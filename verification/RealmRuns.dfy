/** The lifecycle theorems: what every sequence of runs keeps, what one run refuses, and what happens when
    PIDs are recycled. */
module RealmRuns {
  import opened Text
  import opened ClientAddress
  import opened RealmWorld
  import opened Credentials
  import opened Realm
  import opened RealmSafety
  import opened TopologyCheck

  // ---- all runs ----

  /** One invocation of the CLI, or what happens to the machine between two of them. */
  datatype Step =
    | RunUp(bind: ClientBind, topology: Topology, future: seq<Turn>)
    | RunDown(forget: bool, future: seq<Turn>)
    | Meanwhile(events: seq<Event>, accounts: seq<Account>)
    | LoseState(left: bool)

  /** What an invocation loads; a state file that does not read stops everything but `down --forget`. */
  function Loaded(w: World, forget: bool): Option<RuntimeState> {
    match w.disk
    case Absent => Some(EMPTY)
    case Corrupt => if forget then Some(EMPTY) else None
    case Saved(s) => Some(s)
  }

  function Do(w: World, step: Step): World {
    match step
    case RunUp(bind, topology, future) =>
      var s := Loaded(w, false);
      if s.Some? then Up(w.(future := future), ManagerOf(s.value), bind, topology).w else w
    case RunDown(forget, future) =>
      var s := Loaded(w, forget);
      if s.Some? then Down(w.(future := future), ManagerOf(s.value), forget).w else w
    case Meanwhile(events, accounts) => Alter(ApplyAll(w, events), accounts)
    case LoseState(left) => w.(disk := if left then Corrupt else Absent)
  }

  /** A machine on which this CLI has done nothing yet. */
  ghost predicate Untouched(w: World) {
    && w.acts == [] && w.ours == {} && w.launches == map[] && w.starting.None? && w.disk.Absent?
    && forall p :: p in w.procs ==> (p, w.procs[p].start) in w.seen
  }

  ghost predicate Follows(w: World, step: Step, v: World) { v == Do(w, step) }

  /** The machine before each step, and after the last. */
  ghost predicate IsRun(trace: seq<World>, steps: seq<Step>) {
    && |trace| == |steps| + 1 && Untouched(trace[0])
    && forall k :: 0 <= k < |steps| ==> Follows(trace[k], steps[k], trace[k + 1])
  }

  lemma DoSound(w: World, step: Step)
    requires Sound(w) && w.starting.None?
    ensures Sound(Do(w, step)) && Do(w, step).starting.None? && Do(w, step).recycles == w.recycles
  {
    hide Sound, Recorded, Up, Down, ApplyAll, Onward, DiskAgrees, Agrees;
    match step {
      case RunUp(bind, topology, future) =>
        var v := w.(future := future);
        SameHistory(w, v);
        var s := Loaded(w, false);
        if s.Some? {
          LoadedHolds(v, s.value);
          UpSound(v, s.value, bind, topology);
          OnwardKeeps(v, Up(v, ManagerOf(s.value), bind, topology).w);
        }
      case RunDown(forget, future) =>
        var v := w.(future := future);
        SameHistory(w, v);
        var s := Loaded(w, forget);
        if s.Some? {
          LoadedHolds(v, s.value);
          DownSound(v, s.value, forget);
          OnwardKeeps(v, Down(v, ManagerOf(s.value), forget).w);
        }
      case Meanwhile(events, accounts) =>
        var v := ApplyAll(w, events);
        ApplyAllSound(w, events);
        ApplyAllPasses(w, events);
        AlterKeeps(v, accounts);
        SameHistory(v, Alter(v, accounts));
      case LoseState(left) =>
        LossSound(w, if left then Corrupt else Absent);
    }
  }

  lemma LossSound(w: World, left: Disk)
    requires Sound(w) && !left.Saved?
    ensures Sound(w.(disk := left))
  {
    hide AllClaimed;
    LaunchesStay(w, w.(disk := left));
  }

  lemma LoadedHolds(w: World, s: RuntimeState)
    requires Sound(w) && (w.disk == Saved(s) || s == EMPTY)
    ensures Recorded(w, s) && (DiskAgrees(w) ==> Agrees(w, s))
  {
  }

  lemma UntouchedSound(w: World)
    requires Untouched(w)
    ensures Sound(w)
  {
  }

  /** The lifecycle invariant holds at every point of every run. */
  lemma {:induction false} RunsAreSound(trace: seq<World>, steps: seq<Step>, n: nat)
    requires IsRun(trace, steps) && n <= |steps|
    ensures Sound(trace[n]) && trace[n].starting.None? && trace[n].recycles == trace[0].recycles
  {
    hide Sound, Do;
    if n == 0 {
      UntouchedSound(trace[0]);
    } else {
      RunsAreSound(trace, steps, n - 1);
      assert Follows(trace[n - 1], steps[n - 1], trace[n]);
      DoSound(trace[n - 1], steps[n - 1]);
    }
  }

  // ---- one run of up ----

  lemma {:induction false} WaitFails(w: World, s: RuntimeState, c: Component)
    ensures WaitForPort(w, s, c).2 in {None, Some(TimedOut), Some(DiedDuringStartup)}
    decreases |w.future|
  {
    hide Tick;
    if w.future != [] {
      WaitFails(ProbeRecord(Tick(w), RecordOf(s, c)).0, s, c);
    }
  }

  lemma StartUpFails(w: World, m: Manager, c: Component, launch: Option<Launch>)
    ensures var f := StartUp(w, m, c, launch).failure;
      f in {None, Some(SpawnFailed), Some(ExitedAtOnce), Some(TimedOut), Some(DiedDuringStartup)}
  {
    hide Spawn, Tick, WaitForPort;
    var (spawned, record, _) := SpawnRecorded(w, c, launch);
    WaitFails(spawned, SetRecord(m.state, c, record), c);
  }

  lemma BringUpNeverRefusesAsked(w: World, m: Manager, spacetime: Status, gateway: Status)
    ensures BringUp(w, m, spacetime, gateway).failure !in {Some(CannotRebind), Some(CannotReshard)}
  {
    hide StartUp, EnsureGateway, RunAll, ResolveOrMint, ClaimAll, Save, Tick, VerifyTopology, Publishes, Repairs,
      Databases;
    StartUpFails(w, m, Spacetime, None);
    var node := EnsureSpacetime(w, m, spacetime);
    var built := RunAll(node.w, [BuildGateway, Preflight] + Publishes(Databases(node.m.topology))).0;
    var (resolved, c) := ResolveOrMint(built);
    if c.Some? {
      var claimed := ClaimAll(resolved, Databases(node.m.topology), c.value).0;
      var repaired := RunAll(claimed, Repairs(Databases(node.m.topology)) + [Provision]).0;
      EnsureGatewayFails(repaired, node.m, gateway, c.value);
    }
  }

  lemma EnsureGatewayFails(w: World, m: Manager, current: Status, c: Credential)
    ensures EnsureGateway(w, m, current, c).failure !in {Some(CannotRebind), Some(CannotReshard), Some(Collapsed)}
  {
    hide StartUp, Tick;
    var length := if Head(w).yes then |Head(w).text| else 0;
    StartUpFails(Tick(w), m.(logStart := length), Gateway, Some(Launch(m.bind, m.topology, c.token)));
  }

  /** `up` gets as far as looking for the recorded gateway, and the probe finds it. */
  predicate GatewayLives(w: World, m: Manager) {
    var at := StatusFor(Tick(w), m, Spacetime).0;
    && Head(w).yes && m.state.gateway.Some?
    && ProbePid(at, m.state.gateway.value.pid).1 == Some(m.state.gateway.value.identity)
  }

  /** `up` refuses exactly when the recorded gateway is live and something else is asked for; it has then
      run no command, signalled and spawned nothing, and saved nothing. */
  lemma LiveGatewayKeepsItsShape(w: World, m: Manager, bind: ClientBind, topology: Topology)
    requires Sound(w)
    ensures var r := Up(w, m, bind, topology);
      && (r.failure in {Some(CannotRebind), Some(CannotReshard)} <==>
            GatewayLives(w, m) && (m.bind != bind || m.topology != topology))
      && (r.failure == Some(CannotRebind) <==> GatewayLives(w, m) && m.bind != bind)
      && (r.failure in {Some(CannotRebind), Some(CannotReshard)} ==>
            r.m == m && r.w.acts == w.acts && r.w.disk == w.disk && Sound(r.w))
  {
    hide Sound, BringUp, Tick, Host, Onward, StatusFor;
    LivesIsRunning(w, m);
    var w0 := Tick(w);
    TickAhead(w);
    StatusSound(w0, m, Spacetime);
    var w1, spacetime := StatusFor(w0, m, Spacetime).0, StatusFor(w0, m, Spacetime).1;
    AheadTwice(w, w0, w1);
    StatusSound(w1, m, Gateway);
    var w2, asked := StatusFor(w1, m, Gateway).0, Asked(m, bind, topology);
    AheadTwice(w, w1, w2);
    var (w3, gateway) := StatusFor(w2, asked, Gateway);
    BringUpNeverRefusesAsked(w3, asked, spacetime, gateway);
  }

  lemma LivesIsRunning(w: World, m: Manager)
    ensures GatewayLives(w, m) <==> Head(w).yes && Running(FirstLook(Tick(w), m))
  {
    hide Tick;
  }

  lemma {:induction false} WaitKeepsOther(w: World, s: RuntimeState, c: Component)
    ensures SetRecord(WaitForPort(w, s, c).1, c, None) == SetRecord(s, c, None)
    decreases |w.future|
  {
    hide Tick;
    if w.future != [] {
      WaitKeepsOther(ProbeRecord(Tick(w), RecordOf(s, c)).0, s, c);
    }
  }

  lemma StartUpKeepsOther(w: World, m: Manager, c: Component, launch: Option<Launch>)
    ensures SetRecord(StartUp(w, m, c, launch).m.state, c, None) == SetRecord(m.state, c, None)
  {
    hide Spawn, Tick, WaitForPort;
    var (spawned, record, _) := SpawnRecorded(w, c, launch);
    WaitKeepsOther(spawned, SetRecord(m.state, c, record), c);
  }

  /** A node that somebody else runs is used and never recorded; and with a foreign gateway on the port,
      `up` fails and records none. */
  lemma ExternalIsNeverRecorded(w: World, m: Manager, bind: ClientBind, topology: Topology)
    ensures var r := Up(w, m, bind, topology);
      var (w1, spacetime) := StatusFor(Tick(w), m, Spacetime);
      var w2 := StatusFor(w1, m, Gateway).0;
      && (spacetime.External? ==> r.m.state.spacetime.None?)
      && (StatusFor(w2, Asked(m, bind, topology), Gateway).1.External? ==>
            r.m.state.gateway.None? && r.failure.Some?)
  {
    hide StatusFor, BringUp, Host, Tick;
    var w0 := Tick(w);
    var (w1, spacetime) := StatusFor(w0, m, Spacetime);
    var w2 := StatusFor(w1, m, Gateway).0;
    var asked := Asked(m, bind, topology);
    var (w3, gateway) := StatusFor(w2, asked, Gateway);
    ExternalHasNoRecord(w0, m, Spacetime);
    ExternalHasNoRecord(w1, m, Gateway);
    ExternalHasNoRecord(w2, asked, Gateway);
    BringUpExternal(w3, asked, spacetime, gateway);
  }

  lemma ExternalHasNoRecord(w: World, m: Manager, c: Component)
    ensures var status := StatusFor(w, m, c).1;
      (status.External? ==> RecordOf(m.state, c).None?) && (RecordOf(m.state, c).None? ==> !Running(status))
  {
    hide Tick;
  }

  lemma BringUpExternal(w: World, m: Manager, spacetime: Status, gateway: Status)
    ensures var r := BringUp(w, m, spacetime, gateway);
      && (spacetime.External? ==> r.m.state.spacetime == m.state.spacetime)
      && (gateway.External? ==> r.m.state.gateway == m.state.gateway && r.failure.Some?)
  {
    hide StartUp, EnsureGateway, RunAll, ResolveOrMint, ClaimAll, Save, Tick, VerifyTopology, Publishes, Repairs,
      Databases;
    StartUpKeepsOther(w, m, Spacetime, None);
    var node := EnsureSpacetime(w, m, spacetime);
    var built := RunAll(node.w, [BuildGateway, Preflight] + Publishes(Databases(node.m.topology))).0;
    var (resolved, c) := ResolveOrMint(built);
    if c.Some? {
      var claimed := ClaimAll(resolved, Databases(node.m.topology), c.value).0;
      var repaired := RunAll(claimed, Repairs(Databases(node.m.topology)) + [Provision]).0;
      EnsureGatewayExternal(repaired, node.m, gateway, c.value);
    }
  }

  lemma EnsureGatewayExternal(w: World, m: Manager, current: Status, c: Credential)
    ensures var r := EnsureGateway(w, m, current, c);
      && r.m.state.spacetime == m.state.spacetime
      && (current.External? ==> r.m == m && r.failure == Some(ForeignGateway))
  {
    hide StartUp, Tick;
    var length := if Head(w).yes then |Head(w).text| else 0;
    StartUpKeepsOther(Tick(w), m.(logStart := length), Gateway, Some(Launch(m.bind, m.topology, c.token)));
  }

  // ---- verifying the topology ----

  /** Two readings of the log that differ in the first `n` elements at most. */
  predicate SameBehind(a: string, b: string, n: nat) {
    |a| == |b| && if n <= |a| then a[n..] == b[n..] else a == b
  }

  /** Two schedules that differ in what the first `n` elements of the log are. */
  predicate SameLogs(a: seq<Turn>, b: seq<Turn>, n: nat) {
    |a| == |b| && forall k :: 0 <= k < |a| ==>
      a[k].yes == b[k].yes && a[k].late == b[k].late && SameBehind(a[k].text, b[k].text, n)
  }

  lemma SameLogsStep(a: seq<Turn>, b: seq<Turn>, n: nat)
    requires SameLogs(a, b, n) && a != []
    ensures SameLogs(a[1..], b[1..], n)
    ensures a[0].yes == b[0].yes && a[0].late == b[0].late && ThisRun(a[0].text, n) == ThisRun(b[0].text, n)
  {
    hide SameBehind;
    assert forall k :: 0 <= k < |a[1..]| ==> a[1..][k] == a[k + 1] && b[1..][k] == b[k + 1];
    assert ThisRun(a[0].text, n) == ThisRun(b[0].text, n) by { SameThisRun(a[0].text, b[0].text, n); }
  }

  lemma SameThisRun(a: string, b: string, n: nat)
    requires SameBehind(a, b, n)
    ensures ThisRun(a, n) == ThisRun(b, n)
  {
  }

  lemma {:induction false} AwaitIgnoresEarlier(w: World, v: World, start: nat, text: string, n: nat)
    requires SameLogs(w.future, v.future, start)
    ensures AwaitShards(w, start, text, n).1 == AwaitShards(v, start, text, n).1
    decreases |w.future|
  {
    hide ConnectedShards, ThisRun, SameLogs;
    SameLength(w.future, v.future, start);
    if w.future != [] {
      SameLogsStep(w.future, v.future, start);
      AwaitIgnoresEarlier(Tick(w), Tick(v), start, if Head(w).yes then ThisRun(Head(w).text, start) else text, n);
    }
  }

  lemma SameLength(a: seq<Turn>, b: seq<Turn>, n: nat)
    requires SameLogs(a, b, n)
    ensures |a| == |b|
  {
  }

  /** What earlier runs wrote into the log does not matter to the verdict on the topology. */
  lemma EarlierRunsDoNotCount(w: World, v: World, m: Manager)
    requires SameLogs(w.future, v.future, m.logStart)
    ensures VerifyTopology(w, m).1 == VerifyTopology(v, m).1
  {
    hide AwaitShards, ThisRun, Realised, Databases, SameLogs;
    SameLength(w.future, v.future, m.logStart);
    var first := ThisRun(if Head(w).yes then Head(w).text else "", m.logStart);
    if w.future == [] {
      AwaitIgnoresEarlier(w, v, m.logStart, first, |Databases(m.topology)|);
    } else {
      SameLogsStep(w.future, v.future, m.logStart);
      AwaitIgnoresEarlier(Tick(w), Tick(v), m.logStart, first, |Databases(m.topology)|);
    }
  }

  // ---- one run of down ----

  /** `down` finds somebody else with the recorded PID. */
  predicate IsForeign(w: World, s: RuntimeState, c: Component) {
    var record := RecordOf(s, c);
    record.Some? && ProbePid(w, record.value.pid).1.Some? &&
    ProbePid(w, record.value.pid).1 != Some(record.value.identity)
  }

  /** A `down` that gets to the end keeps a record exactly when the PID is somebody else's and `--forget`
      was not given; it reports success exactly when it kept none; and it saves what it kept. */
  lemma DownKeepsExactlyForeign(w: World, m: Manager, forget: bool)
    requires Down(w, m, forget).failure.None? || Down(w, m, forget).failure.value.ForeignProcess?
    ensures var r := Down(w, m, forget);
      var g := IsForeign(w, m.state, Gateway) && !forget;
      var (w1, s1, _, _) := StopOne(w, m.state, Gateway, forget);
      var n := IsForeign(w1, m.state, Spacetime) && !forget;
      && r.m.state.gateway == (if g then m.state.gateway else None)
      && r.m.state.spacetime == (if n then m.state.spacetime else None)
      && (r.failure.None? <==> !g && !n)
      && (g ==> r.failure == Some(ForeignProcess(Gateway)))
      && r.m.state.clientHost == (if g then m.state.clientHost else "")
      && r.m.bind == (if g then m.bind else Loopback) && r.m.topology == m.topology
      && r.w.disk == Saved(r.m.state)
  {
    StopsBoth(w, m.state, forget);
    StopOneMeans(w, m.state, Gateway, forget);
    var (w1, s1, failed1, refused1) := StopOne(w, m.state, Gateway, forget);
    StopOneMeans(w1, s1, Spacetime, forget);
    hide StopOne, StopAll, Tick;
  }

  lemma StopOneMeans(w: World, s: RuntimeState, c: Component, forget: bool)
    ensures var (v, t, failed, refused) := StopOne(w, s, c, forget);
      && (refused <==> IsForeign(w, s, c) && !forget)
      && (failed.Some? ==> failed == Some(NotSignalled))
      && (failed.None? ==> t == if refused then s else SetRecord(s, c, None))
  {
    hide Tick, AwaitExit, Terminate;
  }

  // ---- what the assumptions are for ----

  /** The last identity that polling reads for a PID; `known` is what was read before. */
  ghost function LastRead(w: World, pid: nat, known: Identity): Identity
    decreases |w.future|
  {
    if w.future == [] || Head(w).late then known
    else
      var (probed, live) := ProbePid(Tick(w), pid);
      var now := if live.Some? then live.value else known;
      if Head(w).yes then now else LastRead(probed, pid, now)
  }

  /** The last identity that a start reads for the PID it was given, if it reads any. */
  ghost function FinalHolder(w: World, c: Component, launch: Option<Launch>): Option<Identity> {
    var (spawned, pid) := Spawn(w, c, launch);
    if pid.None? then None
    else
      var (now, first) := ProbePid(spawned, pid.value);
      if first.None? then None else Some(LastRead(now, pid.value, first.value))
  }

  lemma {:induction false} WaitRecordsLast(w: World, s: RuntimeState, c: Component, known: Identity)
    requires RecordOf(s, c).Some? && known.start == RecordOf(s, c).value.identity.start
    ensures var (_, t, failure), r := WaitForPort(w, s, c), RecordOf(s, c).value;
      failure.None? ==>
        RecordOf(t, c).Some? && Key(RecordOf(t, c).value) == (r.pid, LastRead(w, r.pid, known).start)
    decreases |w.future|
  {
    hide Tick;
    var r := RecordOf(s, c).value;
    var (probed, live) := ProbePid(Tick(w), r.pid);
    if w.future != [] && !Head(w).late && !Head(w).yes && Alive(live, r) {
      WaitRecordsLast(probed, s, c, live.value);
    }
  }

  /** Whatever the system does with PIDs: when a start succeeds, the record is of the process it spawned
      exactly when the last identity read for the PID was that of no other process. */
  lemma StartRecordsLastHolder(w: World, m: Manager, c: Component, launch: Option<Launch>)
    requires StartUp(w, m, c, launch).failure.None?
    ensures var record, holder, ours :=
        RecordOf(StartUp(w, m, c, launch).m.state, c), FinalHolder(w, c, launch), Head(w).process;
      && record.Some? && holder.Some? && Key(ours) in Spawn(w, c, launch).0.ours
      && (Key(record.value) == Key(ours) <==> holder.value.start == ours.identity.start)
  {
    hide Tick, WaitForPort, LastRead;
    var (spawned, record, _) := SpawnRecorded(w, c, launch);
    WaitRecordsLast(spawned, SetRecord(m.state, c, record), c, record.value.identity);
  }

  /** Without the assumption on PIDs: the spawned node exits at once, another process gets its PID before
      the identity is read, and that process is what gets recorded. */
  lemma RecycledPidIsAdopted(w: World, m: Manager, ours: Record, theirs: Record)
    requires w.recycles && w.starting.None? && m.state == EMPTY
    requires ours.pid == theirs.pid && ours.pid !in w.procs && Key(ours) != Key(theirs)
    requires Key(ours) !in w.seen && Key(theirs) !in w.seen && w.ours <= w.seen
    requires w.future == [
      QUIET.(yes := true, process := ours),
      QUIET.(events := [Exit(ours.pid), Start(theirs.pid, theirs.identity.start, theirs.identity.comm)]),
      QUIET.(yes := true, late := false)]
    ensures var r := StartUp(w, m, Spacetime, None);
      r.failure.None? && r.m.state.spacetime == Some(theirs) && Key(theirs) !in r.w.ours
  {
    var e0, e1 := Exit(ours.pid), Start(theirs.pid, theirs.identity.start, theirs.identity.comm);
    var w1 := w.(future := w.future[1..]);
    assert Tick(w) == ApplyAll(w1, []) == w1;
    var born := Born(w1, Spacetime, None, ours);
    assert Spawn(w, Spacetime, None) == (born, Some(ours.pid));
    var w2 := born.(future := born.future[1..]);
    var taken := Apply(Apply(w2, e0), e1);
    assert [e0, e1][1..] == [e1] && [e1][1..] == [];
    assert ApplyAll(w2, [e0, e1]) == ApplyAll(Apply(w2, e0), [e1]) == ApplyAll(taken, []) == taken;
    assert born.future[0].events == [e0, e1];
    assert Tick(born) == taken;
    assert Live(taken, ours.pid) == Some(theirs.identity);
    assert SpawnRecorded(w, Spacetime, None) == (taken, Some(theirs), None);
    var s := SetRecord(m.state, Spacetime, Some(theirs));
    var w3 := taken.(future := taken.future[1..]);
    assert Tick(taken) == ApplyAll(w3, []) == w3 && w3.future == [] && Tick(w3) == w3;
    assert WaitForPort(taken, s, Spacetime) == (w3, Refreshed(Live(w3, ours.pid), s, Spacetime), None);
  }
}
