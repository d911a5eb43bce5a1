/** What the steps of `up` leave alone, whatever the machine is like: they signal nobody, start no gateway
    but the one they are told to, and a login that is not going to change does not change under them. */
module RealmMoves {
  import opened Text
  import opened RealmWorld
  import opened Credentials
  import opened Realm
  import opened RealmSafety
  import opened TopologyCheck

  /** Nobody logs in or out in the next `n` turns. */
  predicate LoginStaysFor(w: World, n: nat) {
    forall k, j :: 0 <= k < n && k < |w.future| && 0 <= j < |w.future[k].accounts| ==> !w.future[k].accounts[j].LogIn?
  }

  /** No login or logout is to come. */
  predicate LoginStays(w: World) { LoginStaysFor(w, |w.future|) }

  predicate NoSignals(w: World, v: World) {
    w.acts <= v.acts && forall k :: |w.acts| <= k < |v.acts| ==> !v.acts[k].Signal?
  }

  ghost predicate Moves(w: World, v: World) {
    && v.who == w.who && Grows(w.operators, v.operators) && NoSignals(w, v)
    && (LoginStays(w) ==> LoginStays(v))
  }

  ghost predicate Quiet(w: World, v: World) { Moves(w, v) && v.launches == w.launches }

  /** Only the gateway `l` may have been started. */
  predicate NewFrom(w: World, v: World, l: Option<Launch>) {
    forall key :: key in v.launches ==> key in w.launches || (l.Some? && v.launches[key] == l.value)
  }

  lemma MovesTwice(u: World, v: World, w: World)
    requires Moves(u, v) && Moves(v, w)
    ensures Moves(u, w)
  {
    hide LoginStays;
    assert forall k :: |u.acts| <= k < |v.acts| ==> w.acts[k] == v.acts[k];
  }

  lemma QuietTwice(u: World, v: World, w: World)
    requires Quiet(u, v) && Quiet(v, w)
    ensures Quiet(u, w)
  {
    hide Moves;
    MovesTwice(u, v, w);
  }

  lemma QuietSame(w: World)
    ensures Quiet(w, w)
  {
    hide LoginStays;
  }

  // ---- turns ----

  lemma {:induction false} AlterKeepsLogin(w: World, accounts: seq<Account>)
    requires forall j :: 0 <= j < |accounts| ==> !accounts[j].LogIn?
    ensures Alter(w, accounts).login == w.login
    decreases |accounts|
  {
    if accounts != [] {
      assert accounts[0].Store?;
      AlterKeepsLogin(w.(store := accounts[0].content), accounts[1..]);
    }
  }

  lemma {:induction false} ApplyAllKeepsLogin(w: World, events: seq<Event>)
    ensures ApplyAll(w, events).login == w.login
    decreases |events|
  {
    if events != [] {
      ApplyAllKeepsLogin(Apply(w, events[0]), events[1..]);
    }
  }

  lemma TickKeepsLogin(w: World, n: nat)
    requires n > 0 && LoginStaysFor(w, n)
    ensures Tick(w).login == w.login && LoginStaysFor(Tick(w), n - 1)
  {
    if w.future != [] {
      var v := w.(future := w.future[1..]);
      ApplyAllKeepsLogin(v, w.future[0].events);
      AlterKeepsLogin(ApplyAll(v, w.future[0].events), w.future[0].accounts);
    }
  }

  lemma SameLogin(w: World, v: World, n: nat)
    requires v.future == w.future && v.login == w.login
    ensures (LoginStaysFor(v, n) <==> LoginStaysFor(w, n)) && CliToken(v) == CliToken(w)
  {
    hide Parse;
  }

  lemma LoginStaysOn(w: World)
    ensures LoginStays(w) ==> LoginStays(Tick(w))
  {
    if LoginStays(w) && w.future != [] {
      TickKeepsLogin(w, |w.future|);
    }
  }

  lemma TickQuiet(w: World)
    ensures Quiet(w, Tick(w))
  {
    hide LoginStays, Tick;
    TickPasses(w);
    LoginStaysOn(w);
  }

  /** A step that neither signals nor moves on. */
  lemma StillQuiet(w: World, v: World)
    requires v.who == w.who && v.operators == w.operators && v.launches == w.launches && v.future == w.future
    requires NoSignals(w, v)
    ensures Quiet(w, v)
  {
  }

  lemma ProbeQuiet(w: World, r: Option<Record>)
    ensures Quiet(w, ProbeRecord(w, r).0)
  {
    hide Quiet, Tick;
    QuietSame(w);
    TickQuiet(w);
  }

  lemma StatusQuiet(w: World, m: Manager, c: Component)
    ensures Quiet(w, StatusFor(w, m, c).0)
  {
    hide Quiet, Tick, Classify;
    var probed := ProbeRecord(w, RecordOf(m.state, c)).0;
    ProbeQuiet(w, RecordOf(m.state, c));
    TickQuiet(probed);
    QuietTwice(w, probed, Tick(probed));
  }

  // ---- commands, credentials, claims ----

  lemma {:induction false} RunAllQuiet(w: World, commands: seq<Command>)
    ensures Quiet(w, RunAll(w, commands).0)
    decreases |commands|
  {
    hide Quiet, Tick;
    if commands == [] {
      QuietSame(w);
    } else {
      var logged := Log(w, Ran(commands[0]));
      StillQuiet(w, logged);
      TickQuiet(logged);
      var now := RunCommand(w, commands[0]).0;
      QuietTwice(w, logged, now);
      RunAllQuiet(now, commands[1..]);
      QuietTwice(w, now, RunAll(now, commands[1..]).0);
    }
  }

  lemma ResolveQuiet(w: World)
    ensures Quiet(w, ResolveOrMint(w).0)
  {
    hide Quiet, Tick, Parse, ReadStore;
    QuietSame(w);
    var shown := Tick(w);
    var asked := Tick(shown);
    TickQuiet(w);
    TickQuiet(shown);
    QuietTwice(w, shown, asked);
    PersistQuiet(asked, Head(shown).text);
    QuietTwice(w, asked, Persist(asked, Head(shown).text).0);
    PersistQuiet(shown, Head(w).text);
    QuietTwice(w, shown, Persist(shown, Head(w).text).0);
  }

  lemma PersistQuiet(w: World, token: string)
    ensures Quiet(w, Persist(w, token).0)
  {
    hide Quiet, Tick;
    TickQuiet(w);
    StillQuiet(Tick(w), Persist(w, token).0);
    QuietTwice(w, Tick(w), Persist(w, token).0);
  }

  lemma ClaimQuiet(w: World, db: string, caller: nat, token: string)
    ensures var (v, worked) := ClaimOn(w, db, caller, token);
      Quiet(w, v) && (worked ==> db in v.operators && v.operators[db] == caller)
  {
    hide Quiet, Tick;
    TickQuiet(w);
    var now, v := Tick(w), ClaimOn(w, db, caller, token).0;
    if ClaimOn(w, db, caller, token).1 {
      ClaimedQuiet(now, v, db, caller);
      QuietTwice(w, now, v);
    }
  }

  lemma ClaimedQuiet(w: World, v: World, db: string, caller: nat)
    requires db in w.operators ==> w.operators[db] == caller
    requires v == w.(operators := w.operators[db := caller], acts := v.acts) && NoSignals(w, v)
    ensures Quiet(w, v)
  {
  }

  // ---- starting ----

  lemma SpawnMoves(w: World, c: Component, launch: Option<Launch>)
    ensures var v := Spawn(w, c, launch).0;
      Moves(w, v) && NewFrom(w, v, launch) && (launch.None? ==> v.launches == w.launches)
  {
    hide Moves, Tick, Born;
    TickQuiet(w);
    var now, p := Tick(w), Head(w).process;
    BornMoves(now, c, launch, p);
    MovesTwice(w, now, Born(now, c, launch, p));
  }

  lemma BornMoves(w: World, c: Component, launch: Option<Launch>, p: Record)
    ensures var v := Born(w, c, launch, p);
      Moves(w, v) && NewFrom(w, v, launch) && (launch.None? ==> v.launches == w.launches)
  {
  }

  lemma {:induction false} WaitQuiet(w: World, s: RuntimeState, c: Component)
    ensures Quiet(w, WaitForPort(w, s, c).0)
    decreases |w.future|
  {
    hide Quiet, Tick;
    TickQuiet(w);
    var r := RecordOf(s, c);
    ProbeQuiet(Tick(w), r);
    var probed := ProbeRecord(Tick(w), r).0;
    QuietTwice(w, Tick(w), probed);
    if w.future != [] {
      WaitQuiet(probed, s, c);
      QuietTwice(w, probed, WaitForPort(probed, s, c).0);
    }
  }

  lemma StartUpMoves(w: World, m: Manager, c: Component, launch: Option<Launch>)
    ensures var v := StartUp(w, m, c, launch).w;
      Moves(w, v) && NewFrom(w, v, launch) && (launch.None? ==> Quiet(w, v))
  {
    hide Moves, Tick, Spawn, WaitForPort;
    SpawnMoves(w, c, launch);
    var (spawned, pid) := Spawn(w, c, launch);
    StillQuiet(spawned, Settle(spawned));
    MovesTwice(w, spawned, Settle(spawned));
    if pid.Some? {
      TickQuiet(spawned);
      var (now, record, _) := SpawnRecorded(w, c, launch);
      MovesTwice(w, spawned, now);
      StillQuiet(now, Settle(now));
      MovesTwice(w, now, Settle(now));
      if record.Some? {
        var waited := WaitForPort(now, SetRecord(m.state, c, record), c).0;
        WaitQuiet(now, SetRecord(m.state, c, record), c);
        MovesTwice(w, now, waited);
        StillQuiet(waited, Settle(waited));
        MovesTwice(w, waited, Settle(waited));
      }
    }
  }

  lemma EnsureGatewayMoves(w: World, m: Manager, current: Status, c: Credential)
    ensures var v := EnsureGateway(w, m, current, c).w;
      Moves(w, v) && NewFrom(w, v, Some(Launch(m.bind, m.topology, c.token)))
  {
    hide Moves, Tick, StartUp;
    QuietSame(w);
    TickQuiet(w);
    var length := if Head(w).yes then |Head(w).text| else 0;
    var l := Launch(m.bind, m.topology, c.token);
    StartUpMoves(Tick(w), m.(logStart := length), Gateway, Some(l));
    MovesTwice(w, Tick(w), StartUp(Tick(w), m.(logStart := length), Gateway, Some(l)).w);
  }

  lemma EnsureSpacetimeQuiet(w: World, m: Manager, current: Status)
    ensures Quiet(w, EnsureSpacetime(w, m, current).w)
    ensures EnsureSpacetime(w, m, current).m.topology == m.topology
    ensures EnsureSpacetime(w, m, current).m.bind == m.bind
  {
    hide Quiet, SpawnRecorded, WaitForPort;
    QuietSame(w);
    StartUpMoves(w, m, Spacetime, None);
  }

  // ---- saving ----

  lemma {:induction false} AwaitShardsQuiet(w: World, start: nat, text: string, n: nat)
    ensures Quiet(w, AwaitShards(w, start, text, n).0)
    decreases |w.future|
  {
    hide Quiet, Tick, ConnectedShards, ThisRun;
    QuietSame(w);
    TickQuiet(w);
    if w.future != [] {
      var next := if Head(w).yes then ThisRun(Head(w).text, start) else text;
      AwaitShardsQuiet(Tick(w), start, next, n);
      QuietTwice(w, Tick(w), AwaitShards(Tick(w), start, next, n).0);
    }
  }

  lemma SaveQuiet(w: World, s: RuntimeState)
    ensures Quiet(w, Save(w, s).0)
  {
    hide Quiet, Tick;
    TickQuiet(w);
    StillQuiet(Tick(w), Save(w, s).0);
    QuietTwice(w, Tick(w), Save(w, s).0);
  }

  lemma FinishQuiet(w: World, m: Manager)
    ensures Quiet(w, Finish(w, m).w)
  {
    hide Quiet, Tick, Save, AwaitShards, ThisRun, Realised, Databases;
    SaveQuiet(w, m.state);
    var kept := Save(w, m.state).0;
    TickQuiet(kept);
    QuietTwice(w, kept, Tick(kept));
    var first := ThisRun(if Head(kept).yes then Head(kept).text else "", m.logStart);
    AwaitShardsQuiet(Tick(kept), m.logStart, first, |Databases(m.topology)|);
    QuietTwice(w, Tick(kept), AwaitShards(Tick(kept), m.logStart, first, |Databases(m.topology)|).0);
  }

  // ---- stopping ----

  lemma PassedTwice(u: World, v: World, w: World)
    requires Passed(u, v) && Passed(v, w)
    ensures Passed(u, w)
  {
  }

  lemma {:induction false} AwaitPasses(w: World, pid: nat)
    ensures Passed(w, AwaitExit(w, pid))
    decreases |w.future|
  {
    hide Passed, Tick;
    var probed := Tick(w);
    TickPasses(w);
    TickPasses(probed);
    PassedTwice(w, probed, Tick(probed));
    if w.future != [] {
      AwaitPasses(probed, pid);
      PassedTwice(w, probed, AwaitExit(probed, pid));
      AwaitPasses(Tick(probed), pid);
      PassedTwice(w, Tick(probed), AwaitExit(Tick(probed), pid));
    }
  }

  /** What a signal to a live recorded process puts on record: who has the PID when it is sent. */
  function SignalTo(w: World, r: Record): Action { Signal(r.pid, Live(Tick(w), r.pid), r.identity) }

  /** What stopping one component signals. */
  function Signals(w: World, s: RuntimeState, c: Component): seq<Action> {
    var record := RecordOf(s, c);
    var (probed, live) := ProbeRecord(w, record);
    if Decide(record, live).Stop? then [SignalTo(probed, record.value)] else []
  }

  lemma StopOneSignals(w: World, s: RuntimeState, c: Component, forget: bool)
    ensures var v := StopOne(w, s, c, forget).0;
      v.acts == w.acts + Signals(w, s, c) && v.launches == w.launches && v.who == w.who && v.ours == w.ours
  {
    hide Tick, AwaitExit;
    var record := RecordOf(s, c);
    TickPasses(w);
    var (probed, live) := ProbeRecord(w, record);
    if Decide(record, live).Stop? {
      TickPasses(probed);
      var sent := Log(Tick(probed), SignalTo(probed, record.value));
      TickPasses(sent);
      AwaitPasses(Tick(sent), record.value.pid);
      TickPasses(AwaitExit(Tick(sent), record.value.pid));
    }
  }

  /** What a `down` signals, the gateway first. */
  function DownSignals(w: World, s: RuntimeState, forget: bool): seq<Action> {
    var (w1, s1, failed, _) := StopOne(w, s, Gateway, forget);
    Signals(w, s, Gateway) + if failed.Some? then [] else Signals(w1, s1, Spacetime)
  }

  lemma DownSignalsOnly(w: World, m: Manager, forget: bool)
    ensures var v := Down(w, m, forget).w;
      && v.acts == w.acts + DownSignals(w, m.state, forget)
      && v.launches == w.launches && v.who == w.who && v.ours == w.ours
  {
    hide StopOne, StopAll, Signals, Tick;
    StopsBoth(w, m.state, forget);
    StopOneSignals(w, m.state, Gateway, forget);
    var (w1, s1, _, _) := StopOne(w, m.state, Gateway, forget);
    StopOneSignals(w1, s1, Spacetime, forget);
    var stopped := StopAll(Stopping(w, m.state, None, None), [Gateway, Spacetime], forget);
    TickPasses(stopped.w);
    assert w.acts + (Signals(w, m.state, Gateway) + Signals(w1, s1, Spacetime)) ==
           (w.acts + Signals(w, m.state, Gateway)) + Signals(w1, s1, Spacetime);
  }
}
