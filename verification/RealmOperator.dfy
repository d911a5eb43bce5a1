/** Exactly when a gateway is the operator of its databases, whenever somebody logs in or out. */
module RealmOperator {
  import opened Text
  import opened ClientAddress
  import opened RealmWorld
  import opened Credentials
  import opened Realm
  import opened RealmMoves
  import opened RealmSafety
  import opened RealmRuns

  // ---- the claims of one run ----

  /** Each claim in turn is made as the identity of the credential. */
  predicate AsItself(w: World, dbs: seq<string>, c: Credential)
    decreases |dbs|
  {
    dbs != [] ==>
      && Caller(w, c) == w.who(c.token)
      && AsItself(ClaimOn(w, dbs[0], Caller(w, c), c.token).0, dbs[1..], c)
  }

  /** The identity of the token is the operator of all the databases. */
  predicate Operates(w: World, dbs: seq<string>, token: string) {
    forall db :: db in dbs ==> db in w.operators && w.operators[db] == w.who(token)
  }

  /** Once all claims have worked, the credential's identity is the operator everywhere exactly when each
      claim was made as it. */
  lemma {:induction false} ClaimsDecide(w: World, dbs: seq<string>, c: Credential)
    ensures var (v, worked) := ClaimAll(w, dbs, c);
      && Quiet(w, v)
      && (worked ==> forall db :: db in dbs ==> db in v.operators)
      && (worked ==> (Operates(v, dbs, c.token) <==> AsItself(w, dbs, c)))
    decreases |dbs|
  {
    hide ClaimOn, Caller, LoginStays, NoSignals;
    if dbs == [] {
      QuietSame(w);
    } else {
      var caller := Caller(w, c);
      ClaimQuiet(w, dbs[0], caller, c.token);
      var (now, worked) := ClaimOn(w, dbs[0], caller, c.token);
      if worked {
        ClaimsDecide(now, dbs[1..], c);
        var v := ClaimAll(now, dbs[1..], c).0;
        QuietTwice(w, now, v);
        OperatesOneMore(v, dbs, c.token);
        assert forall db :: db in dbs ==> db == dbs[0] || db in dbs[1..];
      }
    }
  }

  lemma OperatesOneMore(w: World, dbs: seq<string>, token: string)
    requires dbs != []
    ensures Operates(w, dbs, token) <==>
      Operates(w, dbs[1..], token) && dbs[0] in w.operators && w.operators[dbs[0]] == w.who(token)
  {
    assert forall db :: db in dbs <==> db == dbs[0] || db in dbs[1..];
  }

  /** When claims are made as the identity of the credential: always when it was issued by the server, and
      otherwise as long as the CLI stays logged in with it until the last claim. */
  lemma {:induction false} SteadyClaims(w: World, dbs: seq<string>, c: Credential)
    requires IsServerIssued(c) || (CliToken(w) == Some(c.token) && LoginStaysFor(w, |dbs|))
    ensures AsItself(w, dbs, c)
    decreases |dbs|
  {
    hide Tick, LoginStaysFor, Parse, CliToken;
    if dbs != [] {
      CallsAsItself(w, c, |dbs|);
      var now := ClaimOn(w, dbs[0], Caller(w, c), c.token).0;
      SameLogin(Tick(w), now, |dbs| - 1);
      SteadyClaims(now, dbs[1..], c);
    }
  }

  lemma CallsAsItself(w: World, c: Credential, n: nat)
    requires n > 0 && (IsServerIssued(c) || (CliToken(w) == Some(c.token) && LoginStaysFor(w, n)))
    ensures Caller(w, c) == w.who(c.token)
    ensures IsServerIssued(c) || (CliToken(Tick(w)) == Some(c.token) && LoginStaysFor(Tick(w), n - 1))
  {
    hide Tick, LoginStaysFor, Parse;
    if !IsServerIssued(c) {
      TickKeepsLogin(w, n);
    }
  }

  /** The credential that a run resolves from the login is the one the CLI is logged in with. */
  lemma LoginIsResolved(w: World)
    requires ResolveOrMint(w).1.Some? && !IsServerIssued(ResolveOrMint(w).1.value)
    ensures CliToken(ResolveOrMint(w).0) == Some(ResolveOrMint(w).1.value.token)
  {
    hide Tick, Parse, ReadStore, Persist;
  }

  // ---- where a run makes its claims ----

  /** The machine on which the claims begin, and the credential they are made with, if it gets that far. */
  function ClaimsFrom(w: World): Option<(World, Credential)> {
    var (resolved, c) := ResolveOrMint(w);
    if c.None? then None else Some((resolved, c.value))
  }

  function BringUpClaims(w: World, m: Manager, spacetime: Status): Option<(World, Credential)> {
    var node := EnsureSpacetime(w, m, spacetime);
    if node.failure.Some? then None
    else
      var (built, worked) := RunAll(node.w, [BuildGateway, Preflight] + Publishes(Databases(node.m.topology)));
      if worked then ClaimsFrom(built) else None
  }

  function UpFromClaims(w: World, m: Manager, bind: ClientBind, topology: Topology): Option<(World, Credential)> {
    var (w1, spacetime) := StatusFor(w, m, Spacetime);
    var (w2, running) := StatusFor(w1, m, Gateway);
    if Running(running) && (m.bind != bind || m.topology != topology) then None
    else
      var (w3, gateway) := StatusFor(w2, Asked(m, bind, topology), Gateway);
      if (spacetime.Healthy? || spacetime.External?) && gateway.Healthy? then None
      else BringUpClaims(w3, Asked(m, bind, topology), spacetime)
  }

  function UpClaims(w: World, m: Manager, bind: ClientBind, topology: Topology): Option<(World, Credential)> {
    if Head(w).yes then UpFromClaims(Tick(w), m, bind, topology) else None
  }

  /** A run that comes to its claims starts a gateway only after all of them have worked, and with the
      credential they were made with; any other run starts none. */
  ghost predicate Around(w: World, at: Option<(World, Credential)>, bind: ClientBind, topology: Topology, r: World) {
    match at
    case None => Quiet(w, r)
    case Some((v, c)) =>
      && Quiet(w, v) && (IsServerIssued(c) || CliToken(v) == Some(c.token))
      && var (claimed, worked) := ClaimAll(v, Databases(topology), c);
         && Moves(claimed, r)
         && NewFrom(w, r, if worked then Some(Launch(bind, topology, c.token)) else None)
  }

  lemma OperateAround(w: World, m: Manager, gateway: Status)
    ensures Around(w, ClaimsFrom(w), m.bind, m.topology, Operate(w, m, gateway).w)
  {
    hide Moves, ResolveOrMint, ClaimAll, RunAll, EnsureGateway, Databases, Repairs, CliToken;
    var dbs := Databases(m.topology);
    ResolveQuiet(w);
    var (resolved, c) := ResolveOrMint(w);
    if c.Some? {
      if !IsServerIssued(c.value) {
        LoginIsResolved(w);
      }
      ClaimsDecide(resolved, dbs, c.value);
      var (claimed, all) := ClaimAll(resolved, dbs, c.value);
      QuietSame(claimed);
      if all {
        var repaired := RunAll(claimed, Repairs(dbs) + [Provision]).0;
        RunAllQuiet(claimed, Repairs(dbs) + [Provision]);
        EnsureGatewayMoves(repaired, m, gateway, c.value);
        MovesTwice(claimed, repaired, EnsureGateway(repaired, m, gateway, c.value).w);
      }
    }
  }

  /** Quiet steps before and after change nothing. */
  lemma AroundMore(u: World, w: World, at: Option<(World, Credential)>, bind: ClientBind, topology: Topology,
                   r: World, s: World)
    requires Quiet(u, w) && Around(w, at, bind, topology, r) && Quiet(r, s)
    ensures Around(u, at, bind, topology, s)
  {
    hide Moves, ClaimAll, Databases, CliToken;
    match at {
      case None =>
        QuietTwice(u, w, r);
        QuietTwice(u, r, s);
      case Some((v, c)) =>
        QuietTwice(u, w, v);
        MovesTwice(ClaimAll(v, Databases(topology), c).0, r, s);
    }
  }

  lemma BringUpAround(w: World, m: Manager, spacetime: Status, gateway: Status)
    ensures Around(w, BringUpClaims(w, m, spacetime), m.bind, m.topology, BringUp(w, m, spacetime, gateway).w)
  {
    hide Quiet, EnsureSpacetime, RunAll, Operate, Finish, Databases, Publishes, ClaimsFrom, Around;
    var at := BringUpClaims(w, m, spacetime);
    EnsureSpacetimeQuiet(w, m, spacetime);
    var node := EnsureSpacetime(w, m, spacetime);
    NothingAround(w, m.bind, m.topology, node.w);
    if node.failure.None? {
      var commands := [BuildGateway, Preflight] + Publishes(Databases(node.m.topology));
      RunAllQuiet(node.w, commands);
      var built := RunAll(node.w, commands).0;
      QuietTwice(w, node.w, built);
      NothingAround(w, m.bind, m.topology, built);
      OperateAround(built, node.m, gateway);
      var served := Operate(built, node.m, gateway);
      QuietSame(served.w);
      FinishQuiet(served.w, served.m);
      AroundMore(w, built, ClaimsFrom(built), m.bind, m.topology, served.w, served.w);
      AroundMore(w, built, ClaimsFrom(built), m.bind, m.topology, served.w, Finish(served.w, served.m).w);
    }
  }

  lemma NothingAround(w: World, bind: ClientBind, topology: Topology, r: World)
    requires Quiet(w, r)
    ensures Around(w, None, bind, topology, r)
  {
  }

  lemma UpFromAround(w: World, m: Manager, bind: ClientBind, topology: Topology)
    ensures Around(w, UpFromClaims(w, m, bind, topology), bind, topology, UpFrom(w, m, bind, topology).w)
  {
    hide Quiet, StatusFor, BringUp, BringUpClaims, Around, Host, TopologyName, Running;
    var asked := Asked(m, bind, topology);
    StatusQuiet(w, m, Spacetime);
    var (w1, spacetime) := StatusFor(w, m, Spacetime);
    StatusQuiet(w1, m, Gateway);
    var w2 := StatusFor(w1, m, Gateway).0;
    QuietTwice(w, w1, w2);
    StatusQuiet(w2, asked, Gateway);
    var (w3, gateway) := StatusFor(w2, asked, Gateway);
    QuietTwice(w, w2, w3);
    NothingAround(w, bind, topology, w2);
    NothingAround(w, bind, topology, w3);
    BringUpAround(w3, asked, spacetime, gateway);
    var r := BringUp(w3, asked, spacetime, gateway).w;
    QuietSame(r);
    AroundMore(w, w3, BringUpClaims(w3, asked, spacetime), bind, topology, r, r);
  }

  lemma UpAround(w: World, m: Manager, bind: ClientBind, topology: Topology)
    ensures Around(w, UpClaims(w, m, bind, topology), bind, topology, Up(w, m, bind, topology).w)
  {
    hide Quiet, Tick, UpFrom, UpFromClaims, Around;
    TickQuiet(w);
    NothingAround(w, bind, topology, Tick(w));
    if Head(w).yes {
      UpFromAround(Tick(w), m, bind, topology);
      var r := UpFrom(Tick(w), m, bind, topology).w;
      QuietSame(r);
      AroundMore(w, Tick(w), UpFromClaims(Tick(w), m, bind, topology), bind, topology, r, r);
    }
  }

  /** No `up` signals anybody. */
  lemma UpMoves(w: World, m: Manager, bind: ClientBind, topology: Topology)
    ensures Moves(w, Up(w, m, bind, topology).w)
  {
    hide Moves, Up, UpClaims, ClaimAll, Databases, CliToken, NewFrom;
    UpAround(w, m, bind, topology);
    match UpClaims(w, m, bind, topology) {
      case None =>
      case Some((v, c)) =>
        var claimed := ClaimAll(v, Databases(topology), c).0;
        ClaimsDecide(v, Databases(topology), c);
        MovesTwice(w, v, claimed);
        MovesTwice(w, claimed, Up(w, m, bind, topology).w);
    }
  }

  // ---- all runs ----

  function StepClaims(w: World, step: Step): Option<(World, Credential)> {
    match step
    case RunUp(bind, topology, future) =>
      var s := Loaded(w, false);
      if s.Some? then UpClaims(w.(future := future), ManagerOf(s.value), bind, topology) else None
    case _ => None
  }

  /** The gateway is started by this step. */
  predicate Launches(w: World, step: Step, key: (nat, nat)) { key in Do(w, step).launches && key !in w.launches }

  lemma OnlyUpLaunches(w: World, step: Step, key: (nat, nat))
    requires Launches(w, step, key)
    ensures step.RunUp? && Loaded(w, false).Some?
  {
    hide Up, Down, ApplyAll;
    match step {
      case RunUp(_, _, _) =>
      case RunDown(forget, future) =>
        var s := Loaded(w, forget);
        if s.Some? {
          DownSignalsOnly(w.(future := future), ManagerOf(s.value), forget);
        }
      case Meanwhile(events, accounts) =>
        ApplyAllPasses(w, events);
        AlterKeeps(ApplyAll(w, events), accounts);
      case LoseState(_) =>
    }
  }

  /** A step that starts a gateway has made its claims first; right after it, the token's identity is the
      operator exactly when these were made as it. */
  lemma LaunchDecides(w: World, step: Step, key: (nat, nat))
    requires Launches(w, step, key)
    ensures step.RunUp? && StepClaims(w, step).Some?
    ensures var (at, c), dbs, v := StepClaims(w, step).value, Databases(step.topology), Do(w, step);
      && v.launches[key] == Launch(step.bind, step.topology, c.token) && v.who == w.who
      && (forall db :: db in dbs ==> db in v.operators)
      && (Operates(v, dbs, c.token) <==> AsItself(at, dbs, c))
  {
    hide Up, UpClaims, ClaimAll, AsItself, Databases, CliToken, LoginStays, NoSignals;
    OnlyUpLaunches(w, step, key);
    var u, m := w.(future := step.future), ManagerOf(Loaded(w, false).value);
    UpAround(u, m, step.bind, step.topology);
    var (at, c) := UpClaims(u, m, step.bind, step.topology).value;
    var dbs, v := Databases(step.topology), Do(w, step);
    ClaimsDecide(at, dbs, c);
    OperatesStays(ClaimAll(at, dbs, c).0, v, dbs, c.token);
  }

  /** Operators are for ever. */
  lemma OperatesStays(w: World, v: World, dbs: seq<string>, token: string)
    requires Grows(w.operators, v.operators) && v.who == w.who && forall db :: db in dbs ==> db in w.operators
    ensures Operates(v, dbs, token) <==> Operates(w, dbs, token)
  {
  }

  lemma DoOnward(w: World, step: Step)
    requires Sound(w) && w.starting.None?
    ensures Onward(w, Do(w, step))
  {
    hide Sound, Recorded, Up, Down, ApplyAll, DiskAgrees, Agrees;
    match step {
      case RunUp(bind, topology, future) =>
        var v := w.(future := future);
        SameHistory(w, v);
        var s := Loaded(w, false);
        if s.Some? {
          LoadedHolds(v, s.value);
          UpSound(v, s.value, bind, topology);
          OnwardTwice(w, v, Up(v, ManagerOf(s.value), bind, topology).w);
        }
      case RunDown(forget, future) =>
        var v := w.(future := future);
        SameHistory(w, v);
        var s := Loaded(w, forget);
        if s.Some? {
          LoadedHolds(v, s.value);
          DownSound(v, s.value, forget);
          OnwardTwice(w, v, Down(v, ManagerOf(s.value), forget).w);
        }
      case Meanwhile(events, accounts) =>
        ApplyAllPasses(w, events);
        AlterKeeps(ApplyAll(w, events), accounts);
      case LoseState(_) =>
    }
  }

  lemma {:induction false} RunOnward(trace: seq<World>, steps: seq<Step>, k: nat, n: nat)
    requires IsRun(trace, steps) && k <= n <= |steps|
    ensures Onward(trace[k], trace[n])
    decreases n - k
  {
    hide Sound, Do, Onward;
    if k == n {
      OnwardSame(trace[k]);
    } else {
      RunOnward(trace, steps, k, n - 1);
      RunsAreSound(trace, steps, n - 1);
      assert Follows(trace[n - 1], steps[n - 1], trace[n]);
      DoOnward(trace[n - 1], steps[n - 1]);
      OnwardTwice(trace[k], trace[n - 1], trace[n]);
    }
  }

  lemma OnwardSame(w: World)
    ensures Onward(w, w)
  {
  }

  /** Over every sequence of runs, with logins changing at any time: from the step that starts a gateway on and
      for ever, its token's identity is the operator of all its databases exactly when that step found the
      CLI logged in as it, where it needed the CLI, at each claim. */
  lemma GatewayOperatesExactly(trace: seq<World>, steps: seq<Step>, k: nat, n: nat, key: (nat, nat))
    requires IsRun(trace, steps) && k < n <= |steps| && Launches(trace[k], steps[k], key)
    ensures steps[k].RunUp? && StepClaims(trace[k], steps[k]).Some? && key in trace[n].launches
    ensures var (at, c), dbs := StepClaims(trace[k], steps[k]).value, Databases(steps[k].topology);
      && trace[n].launches[key] == Launch(steps[k].bind, steps[k].topology, c.token)
      && (Operates(trace[n], dbs, c.token) <==> AsItself(at, dbs, c))
  {
    hide Do, StepClaims, AsItself, Operates, Databases, Launches;
    LaunchDecides(trace[k], steps[k], key);
    assert Follows(trace[k], steps[k], trace[k + 1]);
    assert key in trace[k + 1].launches by { LaunchesIs(trace[k], steps[k], key); }
    RunOnward(trace, steps, k + 1, n);
    var c := StepClaims(trace[k], steps[k]).value.1;
    OperatesStays(trace[k + 1], trace[n], Databases(steps[k].topology), c.token);
  }

  lemma LaunchesIs(w: World, step: Step, key: (nat, nat))
    ensures Launches(w, step, key) <==> key in Do(w, step).launches && key !in w.launches
  {
  }

  /** Every gateway was started by some step. */
  lemma {:induction false} LaunchedOnce(trace: seq<World>, steps: seq<Step>, n: nat, key: (nat, nat))
    returns (k: nat)
    requires IsRun(trace, steps) && n <= |steps| && key in trace[n].launches
    ensures k < n && Launches(trace[k], steps[k], key)
  {
    hide Do;
    assert n > 0;
    assert Follows(trace[n - 1], steps[n - 1], trace[n]);
    if key in trace[n - 1].launches {
      k := LaunchedOnce(trace, steps, n - 1, key);
    } else {
      k := n - 1;
    }
  }

  /** The run claims with a credential that the server issued, or nobody logs in or out between the resolution
      of the credential and the last claim. */
  predicate KeepsLogin(w: World, step: Step) {
    var claims := StepClaims(w, step);
    claims.Some? && step.RunUp? ==>
      IsServerIssued(claims.value.1) || LoginStaysFor(claims.value.0, |Databases(step.topology)|)
  }

  /** Over every sequence of runs in which each `up` keeps its login while it claims, whatever logins, logouts
      and lost token files there are at any other time: every gateway ever spawned holds a token whose
      identity is the operator of every database of its topology. */
  lemma LoggedInRunsOperate(trace: seq<World>, steps: seq<Step>, n: nat, key: (nat, nat), db: string)
    requires IsRun(trace, steps) && n <= |steps| && forall k :: 0 <= k < n ==> KeepsLogin(trace[k], steps[k])
    requires key in trace[n].launches && db in Databases(trace[n].launches[key].topology)
    ensures var now := trace[n];
      db in now.operators && now.operators[db] == now.who(now.launches[key].token)
  {
    hide Do, StepClaims, AsItself, Databases, Launches, LoginStaysFor, CliToken;
    var k := LaunchedOnce(trace, steps, n, key);
    GatewayOperatesExactly(trace, steps, k, n, key);
    var (at, c) := StepClaims(trace[k], steps[k]).value;
    assert KeepsLogin(trace[k], steps[k]);
    ClaimsAreLoggedIn(trace[k], steps[k]);
    SteadyClaims(at, Databases(steps[k].topology), c);
  }

  lemma ClaimsAreLoggedIn(w: World, step: Step)
    requires StepClaims(w, step).Some?
    ensures var (at, c) := StepClaims(w, step).value;
      && (IsServerIssued(c) || CliToken(at) == Some(c.token))
      && (LoginStays(w.(future := step.future)) ==> LoginStays(at))
  {
    hide Up, UpClaims, ClaimAll, Databases, CliToken, LoginStays, NoSignals;
    var m := ManagerOf(Loaded(w, false).value);
    UpAround(w.(future := step.future), m, step.bind, step.topology);
  }

  /** No login or logout falls into an `up`. */
  predicate NoLogIn(steps: seq<Step>) {
    forall k, i, j ::
      0 <= k < |steps| && steps[k].RunUp? && 0 <= i < |steps[k].future| && 0 <= j < |steps[k].future[i].accounts| ==>
        !steps[k].future[i].accounts[j].LogIn?
  }

  /** In particular: whatever logins, logouts and lost token files there are between the runs. */
  lemma SteadyRunsOperate(trace: seq<World>, steps: seq<Step>, n: nat, key: (nat, nat), db: string)
    requires IsRun(trace, steps) && n <= |steps| && NoLogIn(steps)
    requires key in trace[n].launches && db in Databases(trace[n].launches[key].topology)
    ensures var now := trace[n];
      db in now.operators && now.operators[db] == now.who(now.launches[key].token)
  {
    hide Do, Databases, CliToken, StepClaims;
    forall k | 0 <= k < n ensures KeepsLogin(trace[k], steps[k]) {
      if StepClaims(trace[k], steps[k]).Some? {
        ClaimsAreUps(trace[k], steps[k]);
        ClaimsAreLoggedIn(trace[k], steps[k]);
        FewerTurns(StepClaims(trace[k], steps[k]).value.0, |Databases(steps[k].topology)|);
      }
    }
    LoggedInRunsOperate(trace, steps, n, key, db);
  }

  lemma FewerTurns(w: World, n: nat)
    ensures LoginStays(w) ==> LoginStaysFor(w, n)
  {
  }

  lemma ClaimsAreUps(w: World, step: Step)
    requires StepClaims(w, step).Some?
    ensures step.RunUp?
  {
  }

  // ---- the record of the claims ----

  /** Every claim of the database for the token that has worked was made as the token's identity. */
  predicate ClaimedAsItself(w: World, db: string, token: string) {
    forall k :: 0 <= k < |w.acts| && IsClaim(w.acts[k], db, token) ==> w.acts[k].caller == w.who(token)
  }

  /** Whatever logins, logouts and lost token files there have been, and whenever: every database of a
      gateway that was ever spawned has been claimed for its token, and the identity of the token is the
      operator exactly when it is the one that the claims were made as. */
  lemma EveryGatewayOperates(trace: seq<World>, steps: seq<Step>, n: nat, key: (nat, nat), db: string)
    requires IsRun(trace, steps) && n <= |steps|
    requires key in trace[n].launches && db in Databases(trace[n].launches[key].topology)
    ensures var now, token := trace[n], trace[n].launches[key].token;
      && ClaimedFor(now, db, token) && db in now.operators
      && (now.operators[db] == now.who(token) <==> ClaimedAsItself(now, db, token))
  {
    hide Databases;
    RunsAreSound(trace, steps, n);
    var now, token := trace[n], trace[n].launches[key].token;
    assert AllClaimed(now, now.launches[key]);
    assert ClaimedFor(now, db, token);
    var k :| 0 <= k < |now.acts| && IsClaim(now.acts[k], db, token);
    assert Just(now, now.acts[k]);
    forall j | 0 <= j < |now.acts| && IsClaim(now.acts[j], db, token)
      ensures now.acts[j].caller == now.operators[db]
    {
      assert Just(now, now.acts[j]);
    }
  }
}
