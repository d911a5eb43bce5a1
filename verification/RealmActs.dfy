/** What an `up` does to the machine, in order: every command, claim and start, written out. */
module RealmActs {
  import opened Text
  import opened ClientAddress
  import opened RealmWorld
  import opened Credentials
  import opened Realm
  import opened RealmMoves
  import opened RealmOperator
  import opened RealmRuns
  import opened RealmSafety
  import opened TopologyCheck

  /** The databases of a topology. */
  lemma DatabasesAre()
    ensures Databases(Single) == ["lyracore"]
    ensures Databases(Sharded) == ["lyracore", "lyracore-kalimdor", "lyracore-instances", "lyracore-realm"]
  {
  }

  // ---- steps that only look ----

  lemma ProbePassed(w: World, r: Option<Record>)
    ensures Passed(w, ProbeRecord(w, r).0)
  {
    TickPasses(w);
  }

  lemma StatusPassed(w: World, m: Manager, c: Component)
    ensures Passed(w, StatusFor(w, m, c).0)
  {
    hide Passed, Tick, Classify, ProbeRecord;
    var probed := ProbeRecord(w, RecordOf(m.state, c)).0;
    ProbePassed(w, RecordOf(m.state, c));
    TickPasses(probed);
    PassedTwice(w, probed, Tick(probed));
  }

  lemma {:induction false} WaitPassed(w: World, s: RuntimeState, c: Component)
    ensures Passed(w, WaitForPort(w, s, c).0)
    decreases |w.future|
  {
    hide Passed, Tick, ProbeRecord;
    TickPasses(w);
    var r := RecordOf(s, c);
    ProbePassed(Tick(w), r);
    var probed := ProbeRecord(Tick(w), r).0;
    PassedTwice(w, Tick(w), probed);
    if w.future != [] {
      ProbeShortens(Tick(w), r);
      WaitPassed(probed, s, c);
      PassedTwice(w, probed, WaitForPort(probed, s, c).0);
    }
  }

  lemma ProbeShortens(w: World, r: Option<Record>)
    ensures |ProbeRecord(w, r).0.future| <= |w.future|
  {
    hide Tick;
  }

  lemma PersistPassed(w: World, token: string)
    ensures Passed(w, Persist(w, token).0)
  {
    TickPasses(w);
  }

  lemma ResolvePassed(w: World)
    ensures Passed(w, ResolveOrMint(w).0)
  {
    hide Passed, Tick, Parse, ReadStore, Persist;
    PassedSame(w);
    var shown := Tick(w);
    var asked := Tick(shown);
    TickPasses(w);
    TickPasses(shown);
    PassedTwice(w, shown, asked);
    PersistPassed(asked, Head(shown).text);
    PassedTwice(w, asked, Persist(asked, Head(shown).text).0);
    PersistPassed(shown, Head(w).text);
    PassedTwice(w, shown, Persist(shown, Head(w).text).0);
  }

  lemma PassedSame(w: World)
    ensures Passed(w, w)
  {
  }

  lemma {:induction false} AwaitShardsPassed(w: World, start: nat, text: string, n: nat)
    ensures Passed(w, AwaitShards(w, start, text, n).0)
    decreases |w.future|
  {
    hide Passed, Tick, ConnectedShards, ThisRun;
    PassedSame(w);
    TickPasses(w);
    if w.future != [] {
      var next := if Head(w).yes then ThisRun(Head(w).text, start) else text;
      AwaitShardsPassed(Tick(w), start, next, n);
      PassedTwice(w, Tick(w), AwaitShards(Tick(w), start, next, n).0);
    }
  }

  lemma PassedActs(w: World, v: World)
    requires Passed(w, v)
    ensures v.acts == w.acts && v.disk == w.disk
  {
  }

  lemma FinishActs(w: World, m: Manager)
    ensures Finish(w, m).w.acts == w.acts && Finish(w, m).m == m
    ensures Finish(w, m).w.disk in {w.disk, Saved(m.state)}
  {
    hide Passed, Tick, AwaitShards, ThisRun, Realised, Databases;
    var kept := Save(w, m.state).0;
    TickPasses(w);
    PassedActs(w, Tick(w));
    TickPasses(kept);
    PassedActs(kept, Tick(kept));
    var first := ThisRun(if Head(kept).yes then Head(kept).text else "", m.logStart);
    AwaitShardsPassed(Tick(kept), m.logStart, first, |Databases(m.topology)|);
    PassedActs(Tick(kept), AwaitShards(Tick(kept), m.logStart, first, |Databases(m.topology)|).0);
  }

  // ---- steps that act ----

  /** These commands, one after the other. */
  predicate Runs(acts: seq<Action>, commands: seq<Command>) {
    |acts| == |commands| && forall k :: 0 <= k < |acts| ==> acts[k] == Ran(commands[k])
  }

  /** Commands run in order up to the first that fails: each was tried only after all before it had worked. */
  lemma {:induction false} RunAllActs(w: World, commands: seq<Command>) returns (done: seq<Action>)
    ensures var (v, worked) := RunAll(w, commands);
      && v.acts == w.acts + done && |done| <= |commands| && Runs(done, commands[..|done|]) && v.disk == w.disk
      && (worked ==> Runs(done, commands)) && (!worked ==> done != [])
    decreases |commands|
  {
    hide Tick, Passed, Runs;
    done := [];
    RunsCons(commands, []);
    if commands != [] {
      var logged := Log(w, Ran(commands[0]));
      TickPasses(logged);
      PassedActs(logged, Tick(logged));
      var (now, worked) := RunCommand(w, commands[0]);
      done := [Ran(commands[0])];
      if worked {
        var more := RunAllActs(now, commands[1..]);
        RunsCons(commands, more);
        done := done + more;
      }
    }
  }

  lemma RunsCons(commands: seq<Command>, more: seq<Action>)
    ensures Runs([], commands[..0])
    ensures commands != [] ==> Runs([Ran(commands[0])], commands[..1])
    ensures commands != [] && |more| < |commands| && Runs(more, commands[1..][..|more|]) ==>
      Runs([Ran(commands[0])] + more, commands[..|more| + 1])
    ensures commands != [] && Runs(more, commands[1..]) ==> Runs([Ran(commands[0])] + more, commands)
    ensures commands == [] ==> Runs([], commands)
  {
  }

  /** Who a claim is made as: the credential that the server issued; else whoever the command line is logged in as by
      then; and logged out, anybody. */
  lemma CallerMeans(w: World, c: Credential)
    ensures c.source != SpacetimeLogin ==> Caller(w, c) == w.who(c.token)
    ensures c.source == SpacetimeLogin ==>
      var login := Tick(w).login;
      Caller(w, c) == w.who(if login.Some? && Parse(login.value).Some? then Parse(login.value).value else Head(w).text)
  {
    hide Tick, Parse;
  }

  /** One claim for each database, in order, for the token. */
  predicate ClaimsEach(acts: seq<Action>, dbs: seq<string>, token: string) {
    |acts| == |dbs| && forall k :: 0 <= k < |acts| ==> IsClaim(acts[k], dbs[k], token)
  }

  lemma {:induction false} ClaimAllActs(w: World, dbs: seq<string>, c: Credential) returns (done: seq<Action>)
    ensures var (v, worked) := ClaimAll(w, dbs, c);
      && v.acts == w.acts + done && v.disk == w.disk && |done| <= |dbs|
      && ClaimsEach(done, dbs[..|done|], c.token) && (worked ==> ClaimsEach(done, dbs, c.token))
    decreases |dbs|
  {
    hide Tick, Caller;
    done := [];
    if dbs != [] {
      TickPasses(w);
      var (now, worked) := ClaimOn(w, dbs[0], Caller(w, c), c.token);
      if worked {
        var more := ClaimAllActs(now, dbs[1..], c);
        done := [Claimed(dbs[0], Caller(w, c), c.token)] + more;
        assert forall k :: 0 <= k < |more| ==> dbs[1..][..|more|][k] == dbs[k + 1];
      }
    }
  }

  /** Nothing, or the start of the component. */
  predicate AtMostStarts(acts: seq<Action>, c: Component) {
    acts == [] || (|acts| == 1 && acts[0].Started? && acts[0].c == c)
  }

  lemma SpawnActs(w: World, c: Component, launch: Option<Launch>) returns (done: seq<Action>)
    ensures var (spawned, pid) := Spawn(w, c, launch);
      && spawned.acts == w.acts + done && AtMostStarts(done, c) && spawned.disk == w.disk
      && (done != [] <==> pid.Some?)
  {
    hide Tick, Passed;
    TickPasses(w);
    PassedActs(w, Tick(w));
    done := if Spawn(w, c, launch).1.Some? then [Started(c, Key(Head(w).process))] else [];
  }

  lemma StartUpActs(w: World, m: Manager, c: Component, launch: Option<Launch>) returns (done: seq<Action>)
    ensures var r := StartUp(w, m, c, launch);
      && r.w.acts == w.acts + done && AtMostStarts(done, c) && r.w.disk == w.disk
      && (r.failure.None? ==> done != [])
  {
    hide Tick, WaitForPort, Passed, Spawn;
    done := SpawnActs(w, c, launch);
    var (spawned, pid) := Spawn(w, c, launch);
    if pid.Some? {
      TickPasses(spawned);
      PassedActs(spawned, Tick(spawned));
      var (now, record, _) := SpawnRecorded(w, c, launch);
      if record.Some? {
        WaitPassed(now, SetRecord(m.state, c, record), c);
        PassedActs(now, WaitForPort(now, SetRecord(m.state, c, record), c).0);
      }
    }
  }

  lemma EnsureGatewayActs(w: World, m: Manager, current: Status, c: Credential) returns (done: seq<Action>)
    ensures var r := EnsureGateway(w, m, current, c);
      && r.w.acts == w.acts + done && AtMostStarts(done, Gateway) && r.w.disk == w.disk
      && (r.failure.None? ==> (Running(current) <==> done == []))
  {
    hide Tick, StartUp, Passed;
    done := [];
    if !Running(current) && !current.External? {
      TickPasses(w);
      PassedActs(w, Tick(w));
      var length := if Head(w).yes then |Head(w).text| else 0;
      done := StartUpActs(Tick(w), m.(logStart := length), Gateway, Some(Launch(m.bind, m.topology, c.token)));
    }
  }

  lemma EnsureSpacetimeActs(w: World, m: Manager, current: Status) returns (done: seq<Action>)
    ensures var r := EnsureSpacetime(w, m, current);
      r.w.acts == w.acts + done && AtMostStarts(done, Spacetime) && r.w.disk == w.disk
  {
    hide StartUp;
    done := [];
    if !Running(current) && !current.External? {
      done := StartUpActs(w, m, Spacetime, None);
    }
  }

  // ---- the whole run ----

  /** Building the gateway, the checks before publishing, and one publication for each database. */
  predicate Publishing(acts: seq<Action>, dbs: seq<string>) {
    && |acts| == |dbs| + 2 && acts[0] == Ran(BuildGateway) && acts[1] == Ran(Preflight)
    && forall k :: 0 <= k < |dbs| ==> acts[k + 2] == Ran(Publish(dbs[k]))
  }

  /** One repair for each database, and the provision of the realm. */
  predicate Provisioning(acts: seq<Action>, dbs: seq<string>) {
    && |acts| == |dbs| + 1 && acts[|dbs|] == Ran(Provision)
    && forall k :: 0 <= k < |dbs| ==> acts[k] == Ran(Repair(dbs[k]))
  }

  /** What a run does that gets as far as saving: perhaps it starts the node; it publishes, claims and provisions
      every database; perhaps it starts the gateway. */
  ghost predicate Script(
      acts: seq<Action>, dbs: seq<string>, token: string, node: seq<Action>, published: seq<Action>,
      claims: seq<Action>, provisioned: seq<Action>, gateway: seq<Action>)
  {
    && acts == node + (published + (claims + (provisioned + gateway)))
    && AtMostStarts(node, Spacetime) && Publishing(published, dbs) && ClaimsEach(claims, dbs, token)
    && Provisioning(provisioned, dbs) && AtMostStarts(gateway, Gateway)
  }

  lemma BuildCommands(acts: seq<Action>, dbs: seq<string>)
    requires Runs(acts, [BuildGateway, Preflight] + Publishes(dbs))
    ensures Publishing(acts, dbs)
  {
    var commands := [BuildGateway, Preflight] + Publishes(dbs);
    assert forall k :: 0 <= k < |dbs| ==> commands[k + 2] == Publish(dbs[k]);
  }

  lemma ProvisionCommands(acts: seq<Action>, dbs: seq<string>)
    requires Runs(acts, Repairs(dbs) + [Provision])
    ensures Provisioning(acts, dbs)
  {
    var commands := Repairs(dbs) + [Provision];
    assert forall k :: 0 <= k < |dbs| ==> commands[k] == Repair(dbs[k]);
  }

  /** From the credential on: the claims, the repairs and the provision, and the gateway. */
  lemma OperateActs(w: World, m: Manager, gateway: Status)
      returns (claims: seq<Action>, provisioned: seq<Action>, started: seq<Action>)
    ensures var r := Operate(w, m, gateway);
      && r.w.disk == w.disk && (r.failure.Some? ==> w.acts <= r.w.acts)
      && (r.failure.None? ==>
            && ResolveOrMint(w).1.Some? && r.w.acts == w.acts + (claims + (provisioned + started))
            && ClaimsEach(claims, Databases(m.topology), ResolveOrMint(w).1.value.token)
            && Provisioning(provisioned, Databases(m.topology)) && AtMostStarts(started, Gateway)
            && (Running(gateway) <==> started == []))
  {
    hide Passed, ResolveOrMint, ClaimAll, RunAll, EnsureGateway, Databases, Repairs, Running;
    claims, provisioned, started := [], [], [];
    var dbs := Databases(m.topology);
    ResolvePassed(w);
    var (resolved, c) := ResolveOrMint(w);
    PassedActs(w, resolved);
    if c.Some? {
      claims := ClaimAllActs(resolved, dbs, c.value);
      var (claimed, all) := ClaimAll(resolved, dbs, c.value);
      if all {
        provisioned := RunAllActs(claimed, Repairs(dbs) + [Provision]);
        var (repaired, worked) := RunAll(claimed, Repairs(dbs) + [Provision]);
        if worked {
          ProvisionCommands(provisioned, dbs);
          started := EnsureGatewayActs(repaired, m, gateway, c.value);
        }
      }
    }
  }

  lemma BringUpActs(w: World, m: Manager, spacetime: Status, gateway: Status)
      returns (token: string, node: seq<Action>, published: seq<Action>, claims: seq<Action>,
               provisioned: seq<Action>, started: seq<Action>, acts: seq<Action>)
    ensures var r := BringUp(w, m, spacetime, gateway);
      r.w.disk != w.disk ==>
        && r.w.acts == w.acts + acts && (Running(gateway) <==> started == [])
        && Script(acts, Databases(m.topology), token, node, published, claims, provisioned, started)
    ensures BringUpClaims(w, m, spacetime).Some? ==>
      && BringUpClaims(w, m, spacetime).value.0.acts == w.acts + (node + published)
      && AtMostStarts(node, Spacetime) && Publishing(published, Databases(m.topology))
  {
    hide Passed, ResolveOrMint, EnsureSpacetime, RunAll, Operate, Finish, Databases, Publishes, Running;
    token, claims, provisioned, started, acts := "", [], [], [], [];
    node := EnsureSpacetimeActs(w, m, spacetime);
    EnsureSpacetimeQuiet(w, m, spacetime);
    var n := EnsureSpacetime(w, m, spacetime);
    var dbs := Databases(m.topology);
    published := RunAllActs(n.w, [BuildGateway, Preflight] + Publishes(dbs));
    var (built, worked) := RunAll(n.w, [BuildGateway, Preflight] + Publishes(dbs));
    if n.failure.None? && worked {
      BuildCommands(published, dbs);
      ResolvePassed(built);
      PassedActs(built, ResolveOrMint(built).0);
      assert w.acts + node + published == w.acts + (node + published);
      claims, provisioned, started := OperateActs(built, n.m, gateway);
      var served := Operate(built, n.m, gateway);
      if served.failure.None? {
        token := ResolveOrMint(built).1.value.token;
        FinishActs(served.w, served.m);
        acts := node + (published + (claims + (provisioned + started)));
        assert w.acts + (node + published) + (claims + (provisioned + started)) == w.acts + acts;
      }
    }
  }

  /** What every `up` that saves has done, in order; and what every `up` has done that comes to its claims: by then
      every database of the topology asked for has been published, and all of that has worked. */
  lemma UpActs(w: World, m: Manager, bind: ClientBind, topology: Topology)
      returns (token: string, node: seq<Action>, published: seq<Action>, claims: seq<Action>,
               provisioned: seq<Action>, gateway: seq<Action>, acts: seq<Action>)
    ensures var r := Up(w, m, bind, topology);
      r.w.disk != w.disk ==>
        && r.w.acts == w.acts + acts
        && Script(acts, Databases(topology), token, node, published, claims, provisioned, gateway)
        && (gateway == [] <==> Running(SecondLook(Tick(w), m, bind, topology)))
    ensures UpClaims(w, m, bind, topology).Some? ==>
      && UpClaims(w, m, bind, topology).value.0.acts == w.acts + (node + published)
      && AtMostStarts(node, Spacetime) && Publishing(published, Databases(topology))
  {
    hide Passed, Tick, StatusFor, BringUp, BringUpClaims, Host, TopologyName, Running, Databases, Script;
    var w0, asked := Tick(w), Asked(m, bind, topology);
    TickPasses(w);
    PassedActs(w, w0);
    StatusPassed(w0, m, Spacetime);
    var (w1, spacetime) := StatusFor(w0, m, Spacetime);
    PassedActs(w0, w1);
    StatusPassed(w1, m, Gateway);
    var w2 := StatusFor(w1, m, Gateway).0;
    PassedActs(w1, w2);
    StatusPassed(w2, asked, Gateway);
    var (w3, second) := StatusFor(w2, asked, Gateway);
    PassedActs(w2, w3);
    token, node, published, claims, provisioned, gateway, acts := BringUpActs(w3, asked, spacetime, second);
  }

  // ---- the log of this run ----

  /** When a gateway is started, what the verification reads of a log that has only been appended to is exactly what
      was appended since it was looked at, right before the start. */
  lemma OwnLinesAreRead(w: World, m: Manager, current: Status, c: Credential, now: string)
    requires EnsureGateway(w, m, current, c).failure.None? && !Running(current)
    ensures var start := EnsureGateway(w, m, current, c).m.logStart;
      && (Head(w).yes ==> start == |Head(w).text| && ThisRun(Head(w).text + now, start) == now)
      && (!Head(w).yes ==> start == 0 && ThisRun(now, start) == now)
  {
    hide Tick, Spawn, WaitForPort;
  }

  /** A gateway that is found running leaves the position where it was, at the start of the log for a manager that
      has just been loaded. */
  lemma FoundGatewayReadsAll(w: World, m: Manager, current: Status, c: Credential, now: string)
    requires Running(current)
    ensures EnsureGateway(w, m, current, c).m.logStart == m.logStart
    ensures forall s :: ManagerOf(s).logStart == 0 && ThisRun(now, 0) == now
  {
  }

  // ---- what a look says, and what is saved ----

  /** What a component's status says about its record, the process behind the recorded PID and its port. */
  lemma StatusMeans(w: World, m: Manager, c: Component)
    ensures var status, r := StatusFor(w, m, c).1, if c.Gateway? then m.state.gateway else m.state.spacetime;
      var live := ProbePid(w, if r.Some? then r.value.pid else 0).1;
      && StatusFor(w, m, c).0 == (if r.None? then Tick(w) else Tick(Tick(w)))
      && (status == Stopped <==> r.None? && !Head(w).yes)
      && (status == External <==> r.None? && Head(w).yes)
      && (status == Healthy <==> r.Some? && live == Some(r.value.identity) && Head(Tick(w)).yes)
      && (status == Starting <==> r.Some? && live == Some(r.value.identity) && !Head(Tick(w)).yes)
      && (status == Unhealthy(true) <==> r.Some? && live.None?)
      && (status == Unhealthy(false) <==> r.Some? && live.Some? && live.value != r.value.identity)
  {
    hide Tick;
  }

  lemma EnsureSpacetimeShape(w: World, m: Manager, current: Status)
    ensures var r := EnsureSpacetime(w, m, current);
      KeepsShape(m, r.m) && r.m.bind == m.bind && r.m.topology == m.topology && r.m.logStart == m.logStart
  {
    hide StartUp;
    StartUpShape(w, m, Spacetime, None);
  }

  lemma StartUpShape(w: World, m: Manager, c: Component, launch: Option<Launch>)
    ensures var r := StartUp(w, m, c, launch);
      KeepsShape(m, r.m) && r.m.bind == m.bind && r.m.topology == m.topology && r.m.logStart == m.logStart
  {
    hide SpawnRecorded, WaitForPort;
    StartUpKeepsOther(w, m, c, launch);
  }

  lemma EnsureGatewayShape(w: World, m: Manager, current: Status, c: Credential)
    ensures var r := EnsureGateway(w, m, current, c);
      KeepsShape(m, r.m) && r.m.bind == m.bind && r.m.topology == m.topology
  {
    hide StartUp, Tick;
    var length := if Head(w).yes then |Head(w).text| else 0;
    StartUpShape(Tick(w), m.(logStart := length), Gateway, Some(Launch(m.bind, m.topology, c.token)));
  }

  lemma OperateShape(w: World, m: Manager, gateway: Status)
    ensures var r := Operate(w, m, gateway); KeepsShape(m, r.m) && r.m.bind == m.bind && r.m.topology == m.topology
  {
    hide ResolveOrMint, ClaimAll, RunAll, EnsureGateway, Databases, Repairs, KeepsShape;
    assert KeepsShape(m, m) by { ShapeKept(m); }
    var dbs := Databases(m.topology);
    var (resolved, c) := ResolveOrMint(w);
    if c.Some? {
      var (claimed, all) := ClaimAll(resolved, dbs, c.value);
      EnsureGatewayShape(RunAll(claimed, Repairs(dbs) + [Provision]).0, m, gateway, c.value);
    }
  }

  lemma ShapeKept(m: Manager)
    ensures KeepsShape(m, m)
  {
  }

  lemma BringUpShape(w: World, m: Manager, spacetime: Status, gateway: Status)
    ensures var r := BringUp(w, m, spacetime, gateway);
      r.w.disk != w.disk ==>
        r.w.disk == Saved(r.m.state) && KeepsShape(m, r.m) && r.m.bind == m.bind && r.m.topology == m.topology
  {
    hide Passed, ResolveOrMint, EnsureSpacetime, RunAll, Operate, Finish, Databases, Publishes;
    var _ := EnsureSpacetimeActs(w, m, spacetime);
    EnsureSpacetimeShape(w, m, spacetime);
    var n := EnsureSpacetime(w, m, spacetime);
    var commands := [BuildGateway, Preflight] + Publishes(Databases(n.m.topology));
    var _ := RunAllActs(n.w, commands);
    var built := RunAll(n.w, commands).0;
    var _, _, _ := OperateActs(built, n.m, gateway);
    OperateShape(built, n.m, gateway);
    var served := Operate(built, n.m, gateway);
    FinishActs(served.w, served.m);
  }

  /** How the bind and the topology asked for are written into the state file. */
  lemma SavedShape(w: World, m: Manager, bind: ClientBind, topology: Topology)
    ensures var r := Up(w, m, bind, topology);
      r.w.disk != w.disk ==>
        && r.w.disk == Saved(r.m.state) && r.m.bind == bind && r.m.topology == topology
        && r.m.state.clientHost == Print(if bind.Lan? then bind.ip else Ip(127, 0, 0, 1))
        && r.m.state.topology == (if topology.Single? then "single" else "sharded")
  {
    hide Passed, Tick, StatusFor, BringUp, Running, Print;
    var w0, asked := Tick(w), Asked(m, bind, topology);
    TickPasses(w);
    PassedActs(w, w0);
    StatusPassed(w0, m, Spacetime);
    var (w1, spacetime) := StatusFor(w0, m, Spacetime);
    PassedActs(w0, w1);
    StatusPassed(w1, m, Gateway);
    var w2 := StatusFor(w1, m, Gateway).0;
    PassedActs(w1, w2);
    StatusPassed(w2, asked, Gateway);
    var (w3, second) := StatusFor(w2, asked, Gateway);
    PassedActs(w2, w3);
    BringUpShape(w3, asked, spacetime, second);
  }

  /** What the next command makes of the state file: any topology but "single" is the sharded one. */
  lemma LoadedShape(s: RuntimeState)
    ensures ManagerOf(s).topology == (if s.topology == "single" then Single else Sharded)
    ensures forall ip :: ManagerOf(s).bind == Lan(ip) <==> s.clientHost == Print(ip) && IsPrivate(ip)
  {
    hide Print, Read, IsPrivate;
    forall ip ensures Read(s.clientHost) == Some(ip) <==> s.clientHost == Print(ip) {
      AddressSpelling(s.clientHost, ip);
    }
  }

  /** An `up` that finds everything serving does nothing; every other one that succeeds has built the gateway. */
  lemma AlreadyUp(w: World, m: Manager, bind: ClientBind, topology: Topology)
    requires Head(w).yes
    requires Up(w, m, bind, topology).failure !in {Some(CannotRebind), Some(CannotReshard)}
    ensures var r, node := Up(w, m, bind, topology), StatusFor(Tick(w), m, Spacetime).1;
      if node in {Healthy, External} && SecondLook(Tick(w), m, bind, topology) == Healthy
      then r.failure.None? && r.w.acts == w.acts && r.w.disk == w.disk
      else r.failure.None? ==> w.acts < r.w.acts && Ran(BuildGateway) in r.w.acts[|w.acts|..]
  {
    hide Passed, Tick, StatusFor, BringUp, Host, TopologyName;
    var w0, asked := Tick(w), Asked(m, bind, topology);
    TickPasses(w);
    PassedActs(w, w0);
    StatusPassed(w0, m, Spacetime);
    var (w1, spacetime) := StatusFor(w0, m, Spacetime);
    PassedActs(w0, w1);
    StatusPassed(w1, m, Gateway);
    var w2 := StatusFor(w1, m, Gateway).0;
    PassedActs(w1, w2);
    StatusPassed(w2, asked, Gateway);
    var (w3, second) := StatusFor(w2, asked, Gateway);
    PassedActs(w2, w3);
    BringUpBuilds(w3, asked, spacetime, second);
  }

  lemma BringUpBuilds(w: World, m: Manager, spacetime: Status, gateway: Status)
    ensures var r := BringUp(w, m, spacetime, gateway);
      r.failure.None? ==> w.acts < r.w.acts && Ran(BuildGateway) in r.w.acts[|w.acts|..]
  {
    hide Passed, ResolveOrMint, EnsureSpacetime, RunAll, Operate, Finish, Databases, Publishes;
    var node := EnsureSpacetimeActs(w, m, spacetime);
    EnsureSpacetimeShape(w, m, spacetime);
    var n := EnsureSpacetime(w, m, spacetime);
    var dbs := Databases(m.topology);
    var published := RunAllActs(n.w, [BuildGateway, Preflight] + Publishes(dbs));
    var (built, worked) := RunAll(n.w, [BuildGateway, Preflight] + Publishes(dbs));
    if n.failure.None? && worked {
      BuildCommands(published, dbs);
      var claims, provisioned, started := OperateActs(built, n.m, gateway);
      var served := Operate(built, n.m, gateway);
      if served.failure.None? {
        FinishActs(served.w, served.m);
        Behind(w.acts, node, published, claims + (provisioned + started));
      }
    }
  }

  lemma Behind(before: seq<Action>, node: seq<Action>, published: seq<Action>, rest: seq<Action>)
    requires published != []
    ensures var all := before + node + published + rest; before < all && published[0] in all[|before|..]
  {
    var all := before + node + published + rest;
    assert all[|before|..][|node|] == published[0];
  }

  // ---- how a run ends ----

  /** These answers of the environment come in time and are all yes. */
  predicate AllAnswerYes(future: seq<Turn>, n: nat) {
    n <= |future| && forall k :: 0 <= k < n ==> future[k].yes
  }

  /** Commands work exactly when each of them, in its turn, answers that it did. */
  lemma {:induction false} RunAllWorks(w: World, commands: seq<Command>)
    ensures RunAll(w, commands).1 <==> AllAnswerYes(w.future, |commands|)
    ensures RunAll(w, commands).1 ==> RunAll(w, commands).0.future == w.future[|commands|..]
    decreases |commands|
  {
    hide Tick;
    if commands != [] {
      var now := RunCommand(w, commands[0]).0;
      RunAllWorks(now, commands[1..]);
      if w.future != [] {
        assert now.future == w.future[1..];
        assert forall k :: 0 <= k < |now.future| ==> now.future[k] == w.future[k + 1];
      }
    }
  }

  /** How a start ends: without a process, with one that is gone at the first look, or as the wait for its port ends,
      which begins with the identity seen at that look. */
  lemma StartEnds(w: World, m: Manager, c: Component, launch: Option<Launch>)
    ensures var (spawned, pid) := Spawn(w, c, launch);
      var failure := StartUp(w, m, c, launch).failure;
      if pid.None? then failure == Some(SpawnFailed)
      else
        var (now, seen) := ProbePid(spawned, pid.value);
        if seen.None? then failure == Some(ExitedAtOnce)
        else failure == WaitForPort(now, SetRecord(m.state, c, Some(Record(pid.value, seen.value))), c).2
  {
    hide Tick, Spawn, WaitForPort;
  }

  /** How the part from the credential to the gateway ends: with the first of its steps that does not work. */
  lemma OperateEnds(w: World, m: Manager, gateway: Status)
    ensures var (resolved, c) := ResolveOrMint(w);
      var dbs, failure := Databases(m.topology), Operate(w, m, gateway).failure;
      if c.None? then failure == Some(NoCredential)
      else
        var (claimed, all) := ClaimAll(resolved, dbs, c.value);
        if !all then failure == Some(ClaimRefused)
        else if !AllAnswerYes(claimed.future, |dbs| + 1) then failure == Some(CommandFailed)
        else if Running(gateway) then failure.None?
        else gateway.External? ==> failure == Some(ForeignGateway)
  {
    hide ResolveOrMint, ClaimAll, RunAll, StartUp, Databases, Tick;
    var dbs := Databases(m.topology);
    var (resolved, c) := ResolveOrMint(w);
    if c.Some? {
      RunAllWorks(ClaimAll(resolved, dbs, c.value).0, Repairs(dbs) + [Provision]);
    }
  }

  /** How an `up` that brings the realm up ends: with the first of its steps that does not work, and well exactly when
      all of them do. */
  lemma BringUpEnds(w: World, m: Manager, spacetime: Status, gateway: Status)
    ensures var node, failure := EnsureSpacetime(w, m, spacetime), BringUp(w, m, spacetime, gateway).failure;
      if node.failure.Some? then failure == node.failure
      else if !AllAnswerYes(node.w.future, |Databases(m.topology)| + 2) then failure == Some(CommandFailed)
      else
        var built := RunAll(node.w, [BuildGateway, Preflight] + Publishes(Databases(m.topology))).0;
        var served := Operate(built, node.m, gateway);
        if served.failure.Some? then failure == served.failure
        else if !Head(served.w).yes then failure == Some(NotSaved)
        else failure == if VerifyTopology(Save(served.w, served.m.state).0, served.m).1 then None else Some(Collapsed)
  {
    hide EnsureSpacetime, RunAll, Operate, Databases, Tick, VerifyTopology;
    EnsureSpacetimeShape(w, m, spacetime);
    var node := EnsureSpacetime(w, m, spacetime);
    RunAllWorks(node.w, [BuildGateway, Preflight] + Publishes(Databases(m.topology)));
  }

  // ---- down ----

  lemma {:induction false} AwaitExitPassed(w: World, pid: nat)
    ensures Passed(w, AwaitExit(w, pid))
    decreases |w.future|
  {
    hide Passed, Tick;
    var probed := Tick(w);
    var answered := Tick(probed);
    TickPasses(w);
    TickPasses(probed);
    PassedTwice(w, probed, answered);
    if w.future != [] {
      AwaitExitPassed(probed, pid);
      AwaitExitPassed(answered, pid);
      PassedTwice(w, probed, AwaitExit(probed, pid));
      PassedTwice(w, answered, AwaitExit(answered, pid));
    }
  }

  /** Nothing, or one signal meant for the recorded process. */
  predicate AtMostSignals(acts: seq<Action>, r: Option<Record>) {
    acts == [] ||
    (|acts| == 1 && r.Some? && acts[0].Signal? && acts[0].pid == r.value.pid && acts[0].recorded == r.value.identity)
  }

  /** A component is signalled exactly when the look at its PID finds the recorded process; and stopping it fails
      exactly when the signal cannot be sent. */
  lemma StopOneActs(w: World, s: RuntimeState, c: Component, forget: bool) returns (done: seq<Action>)
    ensures var (v, _, failure, _) := StopOne(w, s, c, forget);
      var r := RecordOf(s, c);
      && v.acts == w.acts + done && v.disk == w.disk && AtMostSignals(done, r)
      && (failure.Some? <==> done != [] && !Terminate(Tick(w), r.value).1)
      && (done != [] <==> r.Some? && ProbePid(w, r.value.pid).1 == Some(r.value.identity))
  {
    hide Tick, AwaitExit, Passed;
    var r := RecordOf(s, c);
    done := [];
    ProbePassed(w, r);
    var (probed, live) := ProbeRecord(w, r);
    PassedActs(w, probed);
    if Decide(r, live).Stop? {
      done := [Signal(r.value.pid, Live(Tick(probed), r.value.pid), r.value.identity)];
      var sent := TerminateActs(probed, r.value);
      AwaitExitPassed(sent, r.value.pid);
      var gone := AwaitExit(sent, r.value.pid);
      PassedActs(sent, gone);
      TickPasses(gone);
      PassedActs(gone, Tick(gone));
    }
  }

  lemma TerminateActs(w: World, r: Record) returns (sent: World)
    ensures sent == Terminate(w, r).0 && sent.disk == w.disk
    ensures sent.acts == w.acts + [Signal(r.pid, Live(Tick(w), r.pid), r.identity)]
  {
    hide Tick, Passed;
    TickPasses(w);
    PassedActs(w, Tick(w));
    sent := Terminate(w, r).0;
    var logged := Log(Tick(w), Signal(r.pid, Live(Tick(w), r.pid), r.identity));
    TickPasses(logged);
    PassedActs(logged, sent);
  }

  lemma StopAllActs(w: World, s: RuntimeState, forget: bool) returns (gateway: seq<Action>, node: seq<Action>)
    ensures var all := StopAll(Stopping(w, s, None, None), [Gateway, Spacetime], forget);
      && all.w.acts == w.acts + (gateway + node) && all.w.disk == w.disk
      && AtMostSignals(gateway, s.gateway) && AtMostSignals(node, s.spacetime)
      && all.failed in {None, Some(NotSignalled)}
      && (all.failed.None? && all.refusal.Some? ==> all.refusal.value.ForeignProcess?)
  {
    hide StopOne, StopAll, Tick, Terminate;
    node := [];
    gateway := StopOneActs(w, s, Gateway, forget);
    StopsBoth(w, s, forget);
    StopOneMeans(w, s, Gateway, forget);
    var (w1, s1, failed1, _) := StopOne(w, s, Gateway, forget);
    if failed1.None? {
      node := StopOneActs(w1, s1, Spacetime, forget);
      StopOneMeans(w1, s1, Spacetime, forget);
    }
  }

  /** What a `down` does, in order: perhaps it signals the gateway, and then perhaps the node; and it saves what it
      keeps, unless a signal or the saving fails. */
  lemma DownActs(w: World, m: Manager, forget: bool) returns (gateway: seq<Action>, node: seq<Action>)
    ensures var r := Down(w, m, forget);
      && r.w.acts == w.acts + (gateway + node)
      && AtMostSignals(gateway, m.state.gateway) && AtMostSignals(node, m.state.spacetime)
      && r.w.disk == (if r.failure in {Some(NotSignalled), Some(NotSaved)} then w.disk else Saved(r.m.state))
      && (r.failure in {None, Some(NotSignalled), Some(NotSaved)} || r.failure.value.ForeignProcess?)
  {
    hide StopAll, Tick, Passed;
    gateway, node := StopAllActs(w, m.state, forget);
    var stopped := StopAll(Stopping(w, m.state, None, None), [Gateway, Spacetime], forget).w;
    TickPasses(stopped);
    PassedActs(stopped, Tick(stopped));
  }
}
