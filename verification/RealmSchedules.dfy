/** Playing a run of `up` against a given schedule, turn by turn. The schedules here start one gateway with
    one token on a machine where somebody else runs the database node. */
module RealmSchedules {
  import opened Text
  import opened ClientAddress
  import opened RealmWorld
  import opened Credentials
  import opened Realm
  import opened TopologyCheck
  import opened RealmRuns
  import opened RealmSafety

  const TOKEN := "0123456789abcdef"
  const GATEWAY := Record(7, Identity(1, "gw"))
  const DB := "lyracore"
  const YES := QUIET.(yes := true, late := false)
  const SPAWN := QUIET.(yes := true, process := GATEWAY)

  function Yeses(n: nat): seq<Turn> { if n == 0 then [] else [YES] + Yeses(n - 1) }

  lemma Passes(w: World, t: Turn, rest: seq<Turn>)
    requires w.future == [t] + rest && t.events == []
    ensures Head(w) == t && Tick(w) == Alter(w.(future := rest), t.accounts)
    ensures t.accounts == [] ==> Tick(w) == w.(future := rest)
  {
    assert w.future[0] == t && w.future[1..] == rest;
  }

  // ---- looking ----

  /** Without a record one turn tells whether somebody answers. */
  lemma LooksForNobody(w: World, m: Manager, c: Component, t: Turn, rest: seq<Turn>)
    requires RecordOf(m.state, c).None? && w.future == [t] + rest && t.events == [] && t.accounts == []
    ensures StatusFor(w, m, c) == (w.(future := rest), if t.yes then External else Stopped)
  {
    hide Tick;
    Passes(w, t, rest);
  }

  lemma LooksForGateway(w: World, m: Manager, p: Turn, t: Turn, rest: seq<Turn>)
    requires m.state.gateway.Some? && w.future == [p] + ([t] + rest)
    requires p.events == [] && p.accounts == [] && t.events == [] && t.accounts == []
    ensures StatusFor(w, m, Gateway) ==
      (w.(future := rest),
       Classify(m.state.gateway, if p.blind then None else Live(w, m.state.gateway.value.pid), t.yes))
  {
    hide Tick, Classify;
    Passes(w, p, [t] + rest);
    Passes(Tick(w), t, rest);
  }

  // ---- running commands and claiming ----

  lemma {:induction false} CommandsWork(w: World, commands: seq<Command>, rest: seq<Turn>)
    requires w.future == Yeses(|commands|) + rest
    ensures var (v, worked) := RunAll(w, commands); worked && v == w.(future := rest, acts := v.acts)
    decreases |commands|
  {
    hide Tick;
    if commands == [] {
      assert Yeses(0) + rest == rest;
    } else {
      var more := Yeses(|commands| - 1) + rest;
      assert w.future == [YES] + more;
      var logged := Log(w, Ran(commands[0]));
      Passes(logged, YES, more);
      CommandsWork(RunCommand(w, commands[0]).0, commands[1..], rest);
    }
  }

  /** The only database of a single realm is claimed, unless it is somebody else's. */
  lemma ClaimWorks(w: World, c: Credential, t: Turn, rest: seq<Turn>)
    requires w.future == [t] + rest && t.events == [] && t.yes
    requires DB in w.operators ==> w.operators[DB] == Caller(w, c)
    ensures var (v, worked) := ClaimAll(w, [DB], c);
      && worked && v.future == rest
      && v == Alter(w.(future := rest), t.accounts).(
        operators := w.operators[DB := Caller(w, c)], acts := w.acts + [Claimed(DB, Caller(w, c), c.token)])
  {
    hide Tick, Caller;
    Passes(w, t, rest);
    AlterKeeps(w.(future := rest), t.accounts);
    var v := ClaimOn(w, DB, Caller(w, c), c.token).0;
    assert [DB][1..] == [] && ClaimAll(v, [], c) == (v, true);
  }

  lemma TokenIsKept(w: World)
    requires w.store == Some(TOKEN)
    ensures ResolveOrMint(w) == (w, Some(Credential(TOKEN, Persisted)))
  {
    hide Tick, Trim, ByteLen, Parse;
    TokenIsTrim();
  }

  lemma TokenIsTrim()
    ensures Trim(TOKEN) == TOKEN
  {
    assert |TOKEN| == 16 && !IsSpace(TOKEN[0]) && !IsSpace(TOKEN[15]);
  }

  // ---- starting the gateway ----

  /** The log's length, the spawn, the first identity, the port's answer, the settled identity. */
  const STARTING: seq<Turn> := [YES] + ([SPAWN] + ([QUIET] + ([YES] + [QUIET])))

  predicate Unborn(w: World) { GATEWAY.pid !in w.procs && Key(GATEWAY) !in w.seen && w.starting.None? }

  /** The machine with the gateway started. */
  function WithGateway(w: World, l: Launch, rest: seq<Turn>): World {
    Settle(Born(w, Gateway, Some(l), GATEWAY).(future := rest))
  }

  lemma GatewayStarts(w: World, m: Manager, l: Launch, rest: seq<Turn>)
    requires Unborn(w) && w.future == [SPAWN] + ([QUIET] + ([YES] + ([QUIET] + rest)))
    ensures StartUp(w, m, Gateway, Some(l)) ==
      Run(WithGateway(w, l, rest), m.(state := m.state.(gateway := Some(GATEWAY))), None)
  {
    hide Tick;
    var after3 := [QUIET] + rest;
    var after2 := [YES] + after3;
    var after1 := [QUIET] + after2;
    Passes(w, SPAWN, after1);
    var born := Born(w.(future := after1), Gateway, Some(l), GATEWAY);
    assert Spawn(w, Gateway, Some(l)) == (born, Some(7));
    Passes(born, QUIET, after2);
    var first := born.(future := after2);
    assert SpawnRecorded(w, Gateway, Some(l)) == (first, Some(GATEWAY), None);
    Passes(first, YES, after3);
    var answered := first.(future := after3);
    Passes(answered, QUIET, rest);
    var s := SetRecord(m.state, Gateway, Some(GATEWAY));
    assert WaitForPort(first, s, Gateway) == (answered.(future := rest), s, None);
  }

  lemma GatewayIsEnsured(w: World, m: Manager, c: Credential, rest: seq<Turn>)
    requires Unborn(w) && w.future == STARTING + rest
    ensures EnsureGateway(w, m, Stopped, c) ==
      Run(WithGateway(w, Launch(m.bind, m.topology, c.token), rest),
          m.(state := m.state.(gateway := Some(GATEWAY)), logStart := 0), None)
  {
    hide Tick, StartUp;
    var more := [SPAWN] + ([QUIET] + ([YES] + ([QUIET] + rest)));
    assert w.future == [YES] + more;
    Passes(w, YES, more);
    GatewayStarts(Tick(w), m.(logStart := 0), Launch(m.bind, m.topology, c.token), rest);
  }

  // ---- saving ----

  /** An empty log says nothing, and nothing is made of it. */
  lemma NothingLogged(w: World, m: Manager)
    requires w.future == []
    ensures VerifyTopology(w, m) == (w, true)
  {
    assert Find("", GatewayLog.CONNECTED, 0).None? && ThisRun("", m.logStart) == "";
    assert Realised("", Databases(m.topology));
    assert GatewayLog.Latest("") == "" by { assert FindLast("", GatewayLog.START, 0).None?; }
    assert ConnectedShards("") == [];
  }

  lemma FinishSaves(w: World, m: Manager)
    requires w.future == [YES]
    ensures Finish(w, m) == Run(w.(future := [], disk := Saved(m.state)), m, None)
  {
    hide Tick, VerifyTopology;
    assert w.future == [YES] + [];
    Passes(w, YES, []);
    NothingLogged(w.(future := [], disk := Saved(m.state)), m);
  }

  /** What is left of a run once its claims have worked. */
  lemma RepairsPass(w: World, rest: seq<Turn>)
    requires w.future == Yeses(2) + rest
    ensures var (v, worked) := RunAll(w, Repairs([DB]) + [Provision]); worked && v == w.(future := rest, acts := v.acts)
  {
    assert |Repairs([DB]) + [Provision]| == 2;
    CommandsWork(w, Repairs([DB]) + [Provision], rest);
  }

  lemma BuildPasses(w: World, rest: seq<Turn>)
    requires w.future == Yeses(3) + rest
    ensures var (v, worked) := RunAll(w, [BuildGateway, Preflight] + Publishes([DB]));
      worked && v == w.(future := rest, acts := v.acts)
  {
    assert |[BuildGateway, Preflight] + Publishes([DB])| == 3;
    CommandsWork(w, [BuildGateway, Preflight] + Publishes([DB]), rest);
  }

  // ---- the first run of a single realm on loopback ----

  /** A machine on which nothing has happened. */
  function Fresh(who: string -> nat, login: Option<string>, store: Option<string>): World {
    World(map[], {}, {}, map[], None, false, map[], who, login, store, Absent, [], [])
  }

  lemma FreshIsUntouched(who: string -> nat, login: Option<string>, store: Option<string>)
    ensures Untouched(Fresh(who, login, store))
  {
  }

  lemma TwoRuns(u: World, first: Step, second: Step)
    requires Untouched(u)
    ensures IsRun([u, Do(u, first), Do(Do(u, first), second)], [first, second])
  {
    hide Do, Untouched;
    assert Follows(u, first, Do(u, first)) && Follows(Do(u, first), second, Do(Do(u, first), second));
  }

  /** The directories, the node's port, no gateway, and no gateway under the bind asked for; building and
      publishing; then `credential`: what it takes to resolve the credential and to claim. */
  function FirstTurns(credential: seq<Turn>): seq<Turn> {
    [YES] + ([YES] + ([QUIET] + ([QUIET] + (Yeses(3) + (credential + (Yeses(2) + (STARTING + [YES])))))))
  }

  function SavedState(): RuntimeState { RuntimeState(None, Some(GATEWAY), "single", Host(Loopback)) }

  /** The first manager, as it asks for a single realm on loopback. */
  function Asking(): Manager { Asked(ManagerOf(EMPTY), Loopback, Single) }

  lemma FirstUpBrings(w: World, credential: seq<Turn>)
    requires w.future == FirstTurns(credential)
    ensures Up(w, ManagerOf(EMPTY), Loopback, Single) ==
      BringUp(w.(future := Yeses(3) + (credential + (Yeses(2) + (STARTING + [YES])))), Asking(), External, Stopped)
  {
    hide Tick, BringUp, StatusFor, Host, FromRecorded;
    var m := ManagerOf(EMPTY);
    var built := Yeses(3) + (credential + (Yeses(2) + (STARTING + [YES])));
    Passes(w, YES, [YES] + ([QUIET] + ([QUIET] + built)));
    var w0 := w.(future := [YES] + ([QUIET] + ([QUIET] + built)));
    LooksForNobody(w0, m, Spacetime, YES, [QUIET] + ([QUIET] + built));
    var w1 := w.(future := [QUIET] + ([QUIET] + built));
    LooksForNobody(w1, m, Gateway, QUIET, [QUIET] + built);
    var w2 := w.(future := [QUIET] + built);
    LooksForNobody(w2, Asking(), Gateway, QUIET, built);
  }

  /** The credential is resolved and the database claimed with the turns of `credential`. */
  ghost predicate Claims(w: World, c: Credential, v: World) {
    && ResolveOrMint(w).1 == Some(c) && ClaimAll(ResolveOrMint(w).0, [DB], c) == (v, true)
    && Unborn(v) && v.future == Yeses(2) + (STARTING + [YES])
  }

  /** The machine once everything is built and published. */
  function Built(w: World): World { RunAll(w, [BuildGateway, Preflight] + Publishes([DB])).0 }

  /** What is left once the node is there. */
  lemma RunServes(w: World, m: Manager, spacetime: Status, credential: seq<Turn>, c: Credential, v: World)
    requires var node := EnsureSpacetime(w, m, spacetime);
      && node.failure.None? && node.m.topology == Single
      && node.w.future == Yeses(3) + (credential + (Yeses(2) + (STARTING + [YES]))) && Claims(Built(node.w), c, v)
    ensures var n, r := EnsureSpacetime(w, m, spacetime).m, BringUp(w, m, spacetime, Stopped);
      && r.w.disk == Saved(n.state.(gateway := Some(GATEWAY))) && r.w.future == [] && r.w.starting.None?
      && r.w.procs == v.procs[GATEWAY.pid := GATEWAY.identity] && r.w.operators == v.operators
      && r.w.launches == v.launches[Key(GATEWAY) := Launch(n.bind, Single, c.token)]
      && r.w.seen == v.seen + {Key(GATEWAY)} && r.w.ours == v.ours + {Key(GATEWAY)}
      && r.w.who == v.who && r.w.store == v.store && r.w.login == v.login
  {
    hide EnsureSpacetime, RunAll, ResolveOrMint, ClaimAll, EnsureGateway, Finish, Repairs, Publishes, Claims, Yeses;
    var node := EnsureSpacetime(w, m, spacetime);
    BuildPasses(node.w, credential + (Yeses(2) + (STARTING + [YES])));
    ClaimsAre(Built(node.w), c, v);
    RepairsPass(v, STARTING + [YES]);
    var repaired := RunAll(v, Repairs([DB]) + [Provision]).0;
    GatewayIsEnsured(repaired, node.m, c, [YES]);
    var served := EnsureGateway(repaired, node.m, Stopped, c);
    FinishSaves(served.w, served.m);
  }

  lemma FirstUpServes(w: World, credential: seq<Turn>, c: Credential, v: World)
    requires w.future == Yeses(3) + (credential + (Yeses(2) + (STARTING + [YES]))) && Claims(Built(w), c, v)
    ensures var r := BringUp(w, Asking(), External, Stopped);
      && r.w.disk == Saved(SavedState()) && r.w.future == [] && r.w.starting.None?
      && r.w.procs == v.procs[GATEWAY.pid := GATEWAY.identity] && r.w.operators == v.operators
      && r.w.launches == v.launches[Key(GATEWAY) := Launch(Loopback, Single, c.token)]
      && r.w.seen == v.seen + {Key(GATEWAY)} && r.w.ours == v.ours + {Key(GATEWAY)}
      && r.w.who == v.who && r.w.store == v.store && r.w.login == v.login
  {
    hide BringUp, Host, Asking, Claims, Yeses, Built;
    AskingIs();
    RunServes(w, Asking(), External, credential, c, v);
  }

  lemma ClaimsAre(w: World, c: Credential, v: World)
    requires Claims(w, c, v)
    ensures ResolveOrMint(w).1 == Some(c) && ClaimAll(ResolveOrMint(w).0, [DB], c) == (v, true)
    ensures Unborn(v) && v.future == Yeses(2) + (STARTING + [YES])
  {
  }

  lemma AskingIs()
    ensures Asking().topology == Single && Asking().bind == Loopback
    ensures Asking().state == RuntimeState(None, None, "single", Host(Loopback))
  {
    hide Host, FromRecorded;
  }
}
