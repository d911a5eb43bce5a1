/** What holds over every sequence of `up`, `down` and `down --forget` runs, with processes exiting,
    execing and starting and logins and token files changing at every observation, and the state file
    getting lost between runs. */
module RealmSafety {
  import opened Text
  import opened ClientAddress
  import opened RealmWorld
  import opened Credentials
  import opened Realm
  import opened TopologyCheck

  // ---- the invariant ----

  predicate ProcessesSeen(w: World) {
    w.ours <= w.seen && forall p :: p in w.procs ==> (p, w.procs[p].start) in w.seen
  }

  /** While a process is being started, nothing else has its PID, unless the system recycles it. */
  predicate StartingKept(w: World) {
    w.starting.Some? ==>
      && w.starting.value in w.ours
      && (!w.recycles && w.starting.value.0 in w.procs ==>
            w.procs[w.starting.value.0].start == w.starting.value.1)
  }

  /** This CLI spawned the process, as far as the system does not recycle PIDs. */
  predicate Own(w: World, key: (nat, nat)) { w.recycles || key in w.ours }

  /** A signal was meant for a process that this CLI spawned; who claimed a database is its operator. */
  predicate Just(w: World, a: Action) {
    match a
    case Signal(pid, _, recorded) => Own(w, (pid, recorded.start))
    case Claimed(db, caller, _) => db in w.operators && w.operators[db] == caller
    case _ => true
  }

  predicate ActsJust(w: World) { forall k :: 0 <= k < |w.acts| ==> Just(w, w.acts[k]) }

  predicate IsClaim(a: Action, db: string, token: string) { a.Claimed? && a.db == db && a.token == token }

  predicate ClaimedFor(w: World, db: string, token: string) {
    exists k :: 0 <= k < |w.acts| && IsClaim(w.acts[k], db, token)
  }

  /** Every database of the topology has been claimed for the token. */
  predicate AllClaimed(w: World, l: Launch) { forall db :: db in Databases(l.topology) ==> ClaimedFor(w, db, l.token) }

  predicate LaunchesClaimed(w: World) {
    forall key :: key in w.launches ==> key in w.ours && AllClaimed(w, w.launches[key])
  }

  /** Every record is of a process that this CLI spawned. */
  predicate Recorded(w: World, s: RuntimeState) {
    && (s.spacetime.Some? ==> Own(w, Key(s.spacetime.value)))
    && (s.gateway.Some? ==> Own(w, Key(s.gateway.value)))
  }

  predicate StartedAs(w: World, r: Option<Record>, bind: ClientBind, topology: Topology) {
    r.Some? ==>
      && Key(r.value) in w.launches
      && w.launches[Key(r.value)].bind == bind && w.launches[Key(r.value)].topology == topology
  }

  /** The recorded gateway was started with exactly the recorded bind and topology. */
  predicate Agrees(w: World, s: RuntimeState) {
    StartedAs(w, s.gateway, FromRecorded(s.clientHost), RecordedTopology(s.topology))
  }

  /** Whatever happens in a run, see `UpAgreesExactly`. */
  predicate DiskAgrees(w: World) { w.disk.Saved? ==> Agrees(w, w.disk.state) }

  predicate DiskRecorded(w: World) { w.disk.Saved? ==> Recorded(w, w.disk.state) }

  predicate Sound(w: World) {
    ProcessesSeen(w) && StartingKept(w) && ActsJust(w) && LaunchesClaimed(w) && DiskRecorded(w)
  }

  predicate Grows<K(==), V(==)>(a: map<K, V>, b: map<K, V>) { forall k :: k in a ==> k in b && b[k] == a[k] }

  /** History only grows. */
  ghost predicate Onward(w: World, v: World) {
    && w.ours <= v.ours && w.acts <= v.acts && v.who == w.who && v.recycles == w.recycles
    && Grows(w.launches, v.launches) && Grows(w.operators, v.operators)
  }

  /** Only the environment moved. */
  ghost predicate Passed(w: World, v: World) {
    && v == w.(procs := v.procs, seen := v.seen, operators := v.operators, login := v.login, store := v.store,
               future := v.future)
    && Grows(w.operators, v.operators)
  }

  lemma RecordedStays(w: World, v: World, s: RuntimeState)
    requires Onward(w, v)
    ensures Recorded(w, s) ==> Recorded(v, s)
    ensures Agrees(w, s) ==> Agrees(v, s)
  {
    hide FromRecorded, RecordedTopology;
  }

  lemma AllClaimedStays(w: World, v: World, l: Launch)
    requires w.acts <= v.acts && AllClaimed(w, l)
    ensures AllClaimed(v, l)
  {
    hide Databases;
    forall db | db in Databases(l.topology) ensures ClaimedFor(v, db, l.token) {
      assert ClaimedFor(w, db, l.token);
      var k :| 0 <= k < |w.acts| && IsClaim(w.acts[k], db, l.token);
      assert v.acts[k] == w.acts[k];
    }
  }

  lemma LaunchesStay(w: World, v: World)
    requires LaunchesClaimed(w) && w.acts <= v.acts && v.launches == w.launches && w.ours <= v.ours
    ensures LaunchesClaimed(v)
  {
    hide AllClaimed;
    forall key | key in v.launches ensures AllClaimed(v, v.launches[key]) {
      AllClaimedStays(w, v, w.launches[key]);
    }
  }

  // ---- turns ----

  lemma ApplyPasses(w: World, e: Event)
    ensures Passed(w, Apply(w, e))
  {
  }

  lemma {:induction false} ApplyAllPasses(w: World, events: seq<Event>)
    ensures Passed(w, ApplyAll(w, events))
    decreases |events|
  {
    hide Apply;
    if events != [] {
      ApplyPasses(w, events[0]);
      ApplyAllPasses(Apply(w, events[0]), events[1..]);
    }
  }

  lemma TickPasses(w: World)
    ensures Passed(w, Tick(w))
  {
    if w.future != [] {
      var v := w.(future := w.future[1..]);
      ApplyAllPasses(v, w.future[0].events);
      AlterKeeps(ApplyAll(v, w.future[0].events), w.future[0].accounts);
    }
  }

  lemma ApplySound(w: World, e: Event)
    requires Sound(w)
    ensures Sound(Apply(w, e))
  {
    hide AllClaimed;
    LaunchesStay(w, Apply(w, e));
  }

  lemma {:induction false} ApplyAllSound(w: World, events: seq<Event>)
    requires Sound(w)
    ensures Sound(ApplyAll(w, events))
    decreases |events|
  {
    if events != [] {
      ApplySound(w, events[0]);
      hide Sound, Apply;
      ApplyAllSound(Apply(w, events[0]), events[1..]);
    }
  }

  lemma TickSound(w: World)
    requires Sound(w)
    ensures Sound(Tick(w)) && Passed(w, Tick(w))
  {
    TickPasses(w);
    if w.future != [] {
      var v := w.(future := w.future[1..]);
      SameHistory(w, v);
      hide Sound;
      ApplyAllSound(v, w.future[0].events);
      AlterKeeps(ApplyAll(v, w.future[0].events), w.future[0].accounts);
      SameHistory(ApplyAll(v, w.future[0].events), Tick(w));
    }
  }

  /** The login, the token file and the turns to come are not part of the invariant. */
  lemma SameHistory(w: World, v: World)
    requires Sound(w) && v == w.(future := v.future, login := v.login, store := v.store)
    ensures Sound(v) && Onward(w, v)
  {
    hide AllClaimed;
    LaunchesStay(w, v);
  }

  lemma PassedOnward(w: World, v: World)
    requires Passed(w, v)
    ensures Onward(w, v)
  {
  }

  /** A step of the CLI that leaves the state file and the startup bookkeeping alone. */
  ghost predicate Ahead(w: World, v: World) {
    Sound(v) && Onward(w, v) && v.disk == w.disk && v.starting == w.starting
  }

  lemma TickAhead(w: World)
    requires Sound(w)
    ensures Ahead(w, Tick(w)) && Tick(w).acts == w.acts
  {
    TickSound(w);
    PassedOnward(w, Tick(w));
  }

  lemma AheadTwice(u: World, v: World, w: World)
    requires Ahead(u, v) && Ahead(v, w)
    ensures Ahead(u, w)
  {
    hide Sound;
  }

  lemma AheadSame(w: World)
    requires Sound(w)
    ensures Ahead(w, w)
  {
  }

  lemma {:induction false} AlterKeeps(w: World, accounts: seq<Account>)
    ensures Alter(w, accounts) == w.(login := Alter(w, accounts).login, store := Alter(w, accounts).store)
    decreases |accounts|
  {
    if accounts != [] {
      match accounts[0] {
        case LogIn(banner) => AlterKeeps(w.(login := banner), accounts[1..]);
        case Store(content) => AlterKeeps(w.(store := content), accounts[1..]);
      }
    }
  }

  lemma LogSound(w: World, a: Action)
    requires Sound(w) && Just(w, a)
    ensures Ahead(w, Log(w, a))
  {
    hide AllClaimed;
    var v := Log(w, a);
    assert forall b :: Just(w, b) ==> Just(v, b);
    LaunchesStay(w, v);
  }

  lemma CommandSound(w: World, c: Command)
    requires Sound(w)
    ensures Ahead(w, RunCommand(w, c).0)
  {
    hide Sound, Tick;
    LogSound(w, Ran(c));
    var logged := Log(w, Ran(c));
    TickAhead(logged);
    AheadTwice(w, logged, Tick(logged));
  }

  lemma {:induction false} RunAllSound(w: World, commands: seq<Command>)
    requires Sound(w)
    ensures Ahead(w, RunAll(w, commands).0)
    decreases |commands|
  {
    if commands == [] {
      AheadSame(w);
    } else {
      CommandSound(w, commands[0]);
      hide Sound, RunCommand;
      var now := RunCommand(w, commands[0]).0;
      RunAllSound(now, commands[1..]);
      AheadTwice(w, now, RunAll(now, commands[1..]).0);
    }
  }

  lemma SaveSound(w: World, s: RuntimeState)
    requires Sound(w) && Recorded(w, s)
    ensures var (v, worked) := Save(w, s);
      Sound(v) && Onward(w, v) && v.starting == w.starting && v.disk == if worked then Saved(s) else w.disk
  {
    hide Tick, AllClaimed, Agrees;
    TickAhead(w);
    RecordedStays(w, Tick(w), s);
    LaunchesStay(Tick(w), Save(w, s).0);
  }

  // ---- credentials and claims ----

  lemma ResolveSound(w: World)
    requires Sound(w)
    ensures Ahead(w, ResolveOrMint(w).0)
  {
    hide Sound, Tick, Parse, ReadStore;
    AheadSame(w);
    TickAhead(w);
    var shown := Tick(w);
    TickAhead(shown);
    AheadTwice(w, shown, Tick(shown));
    var asked := Tick(shown);
    TickAhead(asked);
    AheadTwice(w, asked, Tick(asked));
    PersistSound(asked, Head(shown).text);
    AheadTwice(w, asked, Persist(asked, Head(shown).text).0);
  }

  lemma PersistSound(w: World, token: string)
    requires Sound(w)
    ensures Ahead(w, Persist(w, token).0)
  {
    hide Sound, Tick;
    TickAhead(w);
    SameHistory(Tick(w), Persist(w, token).0);
    AheadTwice(w, Tick(w), Persist(w, token).0);
  }

  lemma ClaimSound(w: World, db: string, caller: nat, token: string)
    requires Sound(w)
    ensures var (v, worked) := ClaimOn(w, db, caller, token);
      Ahead(w, v) && (worked ==> v.acts == w.acts + [Claimed(db, caller, token)])
  {
    hide Sound, Tick;
    TickAhead(w);
    var now := Tick(w);
    if ClaimOn(w, db, caller, token).1 {
      var claimed := now.(operators := now.operators[db := caller]);
      OperatorAhead(now, db, caller);
      AheadTwice(w, now, claimed);
      LogSound(claimed, Claimed(db, caller, token));
      AheadTwice(w, claimed, ClaimOn(w, db, caller, token).0);
    }
  }

  lemma OperatorAhead(w: World, db: string, caller: nat)
    requires Sound(w) && (db in w.operators ==> w.operators[db] == caller)
    ensures Ahead(w, w.(operators := w.operators[db := caller]))
  {
    hide AllClaimed;
    var v := w.(operators := w.operators[db := caller]);
    assert forall b :: Just(w, b) ==> Just(v, b);
    LaunchesStay(w, v);
  }

  /** Once every claim has worked, every database has been claimed for the credential's token. */
  lemma {:induction false} ClaimAllSound(w: World, dbs: seq<string>, c: Credential)
    requires Sound(w)
    ensures var (v, worked) := ClaimAll(w, dbs, c);
      Ahead(w, v) && (worked ==> forall db :: db in dbs ==> ClaimedFor(v, db, c.token))
    decreases |dbs|
  {
    hide Sound, ClaimOn, ClaimedFor, Caller;
    if dbs == [] {
      AheadSame(w);
    } else {
      ClaimSound(w, dbs[0], Caller(w, c), c.token);
      var (now, worked) := ClaimOn(w, dbs[0], Caller(w, c), c.token);
      if worked {
        ClaimAllSound(now, dbs[1..], c);
        var all := ClaimAll(now, dbs[1..], c).0;
        AheadTwice(w, now, all);
        assert now.acts <= all.acts;
        NewClaim(now, all, |w.acts|, dbs[0], c.token);
        assert forall db :: db in dbs ==> db == dbs[0] || db in dbs[1..];
      }
    }
  }

  lemma NewClaim(w: World, v: World, k: nat, db: string, token: string)
    requires w.acts <= v.acts && k < |w.acts| && IsClaim(w.acts[k], db, token)
    ensures ClaimedFor(v, db, token)
  {
    assert v.acts[k] == w.acts[k];
  }

  // ---- starting a component ----

  lemma SpawnSound(w: World, c: Component, launch: Option<Launch>)
    requires Sound(w) && (launch.Some? ==> AllClaimed(w, launch.value))
    ensures var (v, pid) := Spawn(w, c, launch);
      && Sound(v) && Onward(w, v) && v.disk == w.disk
      && (pid.Some? ==> v.starting.Some? && v.starting.value.0 == pid.value)
      && (pid.Some? && launch.Some? ==> v.starting.value in v.launches && v.launches[v.starting.value] == launch.value)
  {
    hide Sound, Tick, Born, AllClaimed;
    TickAhead(w);
    var now := Tick(w);
    if launch.Some? {
      AllClaimedStays(w, now, launch.value);
    }
    if Spawn(w, c, launch).1.Some? {
      BornSound(now, c, launch, Head(w).process);
    }
  }

  lemma BornSound(w: World, c: Component, launch: Option<Launch>, p: Record)
    requires Sound(w) && p.pid !in w.procs && Key(p) !in w.seen
    requires launch.Some? ==> AllClaimed(w, launch.value)
    ensures var v := Born(w, c, launch, p);
      && Sound(v) && Onward(w, v) && v.disk == w.disk && v.starting == Some(Key(p))
      && (launch.Some? ==> Key(p) in v.launches && v.launches[Key(p)] == launch.value)
  {
    hide AllClaimed;
    var v := Born(w, c, launch, p);
    assert w.acts <= v.acts;
    assert forall b :: Just(w, b) ==> Just(v, b);
    forall key | key in v.launches ensures AllClaimed(v, v.launches[key]) {
      AllClaimedStays(w, v, v.launches[key]);
    }
  }

  lemma ProbeSound(w: World, r: Option<Record>)
    requires Sound(w)
    ensures Ahead(w, ProbeRecord(w, r).0) && ProbeRecord(w, r).0.acts == w.acts
    ensures ProbeRecord(w, r).1.Some? ==> r.Some? && Live(ProbeRecord(w, r).0, r.value.pid) == ProbeRecord(w, r).1
  {
    AheadSame(w);
    TickAhead(w);
  }

  /** The record is of the process that is being started, as far as PIDs are not recycled. */
  predicate Tracks(w: World, r: Option<Record>) {
    && r.Some? && w.starting.Some? && r.value.pid == w.starting.value.0
    && (w.recycles || Key(r.value) == w.starting.value)
  }

  /** Waiting may replace the record by what the process has become, never by another process. */
  lemma {:induction false} WaitSound(w: World, s: RuntimeState, c: Component)
    requires Sound(w) && Tracks(w, RecordOf(s, c))
    ensures var (v, t, _) := WaitForPort(w, s, c);
      && Ahead(w, v) && Tracks(v, RecordOf(t, c))
      && SetRecord(t, c, None) == SetRecord(s, c, None)
    decreases |w.future|
  {
    hide Sound, Tick;
    TickAhead(w);
    var r := RecordOf(s, c);
    ProbeSound(Tick(w), r);
    var (probed, live) := ProbeRecord(Tick(w), r);
    AheadTwice(w, Tick(w), probed);
    StartingIs(probed);
    if w.future != [] && !Head(w).late && !Head(w).yes && Alive(live, r.value) {
      WaitSound(probed, s, c);
      AheadTwice(w, probed, WaitForPort(probed, s, c).0);
    }
  }

  lemma StartingIs(w: World)
    requires Sound(w) && w.starting.Some?
    ensures w.starting.value in w.ours
    ensures !w.recycles && w.starting.value.0 in w.procs ==>
      w.procs[w.starting.value.0].start == w.starting.value.1
  {
  }

  lemma SettleSound(w: World)
    requires Sound(w)
    ensures Sound(Settle(w)) && Onward(w, Settle(w))
  {
    hide AllClaimed;
    LaunchesStay(w, Settle(w));
  }

  lemma SpawnRecordedSound(w: World, c: Component, launch: Option<Launch>)
    requires Sound(w) && w.starting.None? && (launch.Some? ==> AllClaimed(w, launch.value))
    ensures var (v, record, failure) := SpawnRecorded(w, c, launch);
      && (record.None? <==> failure.Some?)
      && Sound(v) && Onward(w, v) && v.disk == w.disk
      && (record.Some? ==> Tracks(v, record))
      && (record.Some? && launch.Some? ==>
            v.starting.value in v.launches && v.launches[v.starting.value] == launch.value)
  {
    hide Sound, Tick, Spawn, AllClaimed;
    SpawnSound(w, c, launch);
    var (spawned, pid) := Spawn(w, c, launch);
    if pid.Some? {
      TickAhead(spawned);
      StartingIs(Tick(spawned));
    }
  }

  /** The record is of the process that was spawned; a failed start leaves the other record alone. */
  lemma StartUpSound(w: World, m: Manager, c: Component, launch: Option<Launch>)
    requires Sound(w) && w.starting.None? && Recorded(w, m.state)
    requires launch.Some? ==> AllClaimed(w, launch.value)
    ensures var r := StartUp(w, m, c, launch);
      && Sound(r.w) && Onward(w, r.w) && r.w.disk == w.disk && r.w.starting.None?
      && r.m == m.(state := r.m.state) && SetRecord(r.m.state, c, None) == SetRecord(m.state, c, None)
      && Recorded(r.w, r.m.state)
      && (r.failure.None? && launch.Some? && !w.recycles ==>
            StartedAs(r.w, RecordOf(r.m.state, c), launch.value.bind, launch.value.topology))
  {
    hide Sound, SpawnRecorded, WaitForPort, Onward, Recorded, StartedAs, AllClaimed;
    SpawnRecordedSound(w, c, launch);
    var (spawned, record, _) := SpawnRecorded(w, c, launch);
    if record.None? {
      SettleSound(spawned);
      OnwardTwice(w, spawned, Settle(spawned));
      RecordedStays(w, Settle(spawned), m.state);
    } else {
      WaitUpSound(w, spawned, m.state, c, record.value, launch);
    }
  }

  /** The part of a start after the record is there. */
  lemma WaitUpSound(w: World, v: World, s: RuntimeState, c: Component, r: Record, launch: Option<Launch>)
    requires Sound(v) && Onward(w, v) && v.disk == w.disk && Recorded(w, s) && Tracks(v, Some(r))
    requires launch.Some? ==> v.starting.value in v.launches && v.launches[v.starting.value] == launch.value
    ensures var (waited, t, _) := WaitForPort(v, SetRecord(s, c, Some(r)), c);
      && Sound(Settle(waited)) && Onward(w, Settle(waited)) && waited.disk == w.disk
      && SetRecord(t, c, None) == SetRecord(s, c, None) && Recorded(Settle(waited), t)
      && (launch.Some? && !w.recycles ==>
            StartedAs(Settle(waited), RecordOf(t, c), launch.value.bind, launch.value.topology))
  {
    hide Sound, WaitForPort;
    WaitSound(v, SetRecord(s, c, Some(r)), c);
    var waited := WaitForPort(v, SetRecord(s, c, Some(r)), c).0;
    StartingIs(waited);
    SettleSound(waited);
    RecordedStays(w, Settle(waited), s);
  }

  // ---- up ----

  /** What every step of `up` keeps. */
  ghost predicate Manages(w: World, m: Manager) { Sound(w) && w.starting.None? && Recorded(w, m.state) }

  /** Where a step that saves nothing leaves a manager whose record of one component it may replace. */
  ghost predicate Leads(w: World, m: Manager, r: Run, c: Component) {
    && Manages(r.w, r.m) && Onward(w, r.w) && r.w.disk == w.disk
    && SetRecord(r.m.state, c, None) == SetRecord(m.state, c, None)
    && r.m.bind == m.bind && r.m.topology == m.topology
  }

  /** The gateway of a run that goes on is the one that was found, or was started as asked. */
  ghost predicate Serves(m: Manager, gateway: Status, r: Run) {
    if Running(gateway) then r.m.state.gateway == m.state.gateway
    else r.w.recycles || StartedAs(r.w, r.m.state.gateway, m.bind, m.topology)
  }

  lemma OperateSound(w: World, m: Manager, gateway: Status)
    requires Manages(w, m)
    ensures var r := Operate(w, m, gateway);
      Leads(w, m, r, Gateway) && (r.failure.None? ==> Serves(m, gateway, r))
  {
    hide Sound, Recorded, AllClaimed, ResolveOrMint, ClaimAll, RunAll, StartUp, Onward, Databases, Repairs, StartedAs;
    var dbs := Databases(m.topology);
    ResolveSound(w);
    var (resolved, c) := ResolveOrMint(w);
    RecordedStays(w, resolved, m.state);
    if c.Some? {
      ClaimAllSound(resolved, dbs, c.value);
      var (claimed, all) := ClaimAll(resolved, dbs, c.value);
      AheadTwice(w, resolved, claimed);
      RecordedStays(w, claimed, m.state);
      if all {
        var launch := Launch(m.bind, m.topology, c.value.token);
        ClaimedIsAll(claimed, launch);
        var commands := Repairs(dbs) + [Provision];
        RunAllSound(claimed, commands);
        var repaired := RunAll(claimed, commands).0;
        AheadTwice(w, claimed, repaired);
        RecordedStays(w, repaired, m.state);
        AllClaimedStays(claimed, repaired, launch) by { OnwardKeeps(claimed, repaired); }
        GatewaySound(w, repaired, m, launch);
      }
    }
  }

  lemma OnwardKeeps(w: World, v: World)
    requires Onward(w, v)
    ensures w.acts <= v.acts && v.recycles == w.recycles
  {
  }

  lemma ClaimedIsAll(w: World, l: Launch)
    requires forall db :: db in Databases(l.topology) ==> ClaimedFor(w, db, l.token)
    ensures AllClaimed(w, l)
  {
    hide Databases, ClaimedFor;
  }

  /** The length of the log is read just before the gateway is started. */
  lemma GatewaySound(u: World, w: World, m: Manager, launch: Launch)
    requires Manages(w, m) && AllClaimed(w, launch) && launch.bind == m.bind && launch.topology == m.topology
    requires Onward(u, w) && w.disk == u.disk
    ensures forall length: nat ::
      var r := StartUp(Tick(w), m.(logStart := length), Gateway, Some(launch));
      Leads(u, m, r, Gateway) &&
      (r.failure.None? ==> r.w.recycles || StartedAs(r.w, r.m.state.gateway, m.bind, m.topology))
  {
    hide Sound, Recorded, AllClaimed, StartUp, Tick, Onward, StartedAs;
    TickAhead(w);
    AheadOnward(w, Tick(w));
    OnwardTwice(u, w, Tick(w));
    RecordedStays(w, Tick(w), m.state);
    OnwardKeeps(w, Tick(w));
    AllClaimedStays(w, Tick(w), launch);
    forall length: nat
      ensures var r := StartUp(Tick(w), m.(logStart := length), Gateway, Some(launch));
        Leads(u, m, r, Gateway) &&
        (r.failure.None? ==> r.w.recycles || StartedAs(r.w, r.m.state.gateway, m.bind, m.topology))
    {
      StartUpSound(Tick(w), m.(logStart := length), Gateway, Some(launch));
      OnwardKeeps(Tick(w), StartUp(Tick(w), m.(logStart := length), Gateway, Some(launch)).w);
      OnwardTwice(u, Tick(w), StartUp(Tick(w), m.(logStart := length), Gateway, Some(launch)).w);
    }
  }

  lemma NodeSound(w: World, m: Manager, spacetime: Status)
    requires Manages(w, m)
    ensures Leads(w, m, EnsureSpacetime(w, m, spacetime), Spacetime)
  {
    hide Sound, Recorded, StartUp, Onward, StartedAs;
    AheadSame(w);
    AheadOnward(w, w);
    if !Running(spacetime) && !spacetime.External? {
      StartUpSound(w, m, Spacetime, None);
    }
  }

  /** The state file is what it was, or what the manager has. */
  lemma FinishSound(w: World, m: Manager)
    requires Manages(w, m)
    ensures var r := Finish(w, m);
      && Sound(r.w) && Onward(w, r.w) && r.w.starting.None? && r.m == m
      && (r.w.disk == w.disk || r.w.disk == Saved(m.state))
  {
    hide Sound, Save, VerifyTopology, Onward, Recorded;
    SaveSound(w, m.state);
    var kept := Save(w, m.state).0;
    VerifySound(kept, m);
    AheadOnward(kept, VerifyTopology(kept, m).0);
    OnwardTwice(w, kept, VerifyTopology(kept, m).0);
  }

  lemma {:induction false} AwaitShardsSound(w: World, start: nat, text: string, n: nat)
    requires Sound(w)
    ensures Ahead(w, AwaitShards(w, start, text, n).0)
    decreases |w.future|
  {
    hide Sound, Tick, ConnectedShards, ThisRun;
    AheadSame(w);
    TickAhead(w);
    if w.future != [] {
      var next := if Head(w).yes then ThisRun(Head(w).text, start) else text;
      AwaitShardsSound(Tick(w), start, next, n);
      AheadTwice(w, Tick(w), AwaitShards(Tick(w), start, next, n).0);
    }
  }

  /** Verifying only reads. */
  lemma VerifySound(w: World, m: Manager)
    requires Sound(w)
    ensures Ahead(w, VerifyTopology(w, m).0)
  {
    hide Sound, Tick, AwaitShards, ThisRun, Realised, Databases;
    TickAhead(w);
    var first := ThisRun(if Head(w).yes then Head(w).text else "", m.logStart);
    AwaitShardsSound(Tick(w), m.logStart, first, |Databases(m.topology)|);
    AheadTwice(w, Tick(w), AwaitShards(Tick(w), m.logStart, first, |Databases(m.topology)|).0);
  }

  /** What a run that brings the realm up leaves behind. It saves nothing, or it saves the bind and topology
      asked for, with the gateway it found or started. */
  ghost predicate Brings(w: World, m: Manager, gateway: Status, r: Run) {
    && Sound(r.w) && Onward(w, r.w) && r.w.starting.None?
    && (r.w.disk == w.disk || (r.w.disk == Saved(r.m.state) && KeepsShape(m, r.m) && Serves(m, gateway, r)))
  }

  predicate KeepsShape(m: Manager, n: Manager) {
    n.state.clientHost == m.state.clientHost && n.state.topology == m.state.topology
  }

  lemma BringUpSound(w: World, m: Manager, spacetime: Status, gateway: Status)
    requires Manages(w, m)
    ensures Brings(w, m, gateway, BringUp(w, m, spacetime, gateway))
  {
    hide Sound, Recorded, Onward, StartedAs, EnsureSpacetime, RunAll, Operate, Finish, Databases, Publishes, Running;
    NodeSound(w, m, spacetime);
    var node := EnsureSpacetime(w, m, spacetime);
    if node.failure.None? {
      var commands := [BuildGateway, Preflight] + Publishes(Databases(node.m.topology));
      RunAllSound(node.w, commands);
      var built := RunAll(node.w, commands).0;
      BuiltManages(w, node.w, built, node.m);
      OperateSound(built, node.m, gateway);
      var served := Operate(built, node.m, gateway);
      OnwardTwice(w, built, served.w);
      if served.failure.None? {
        FinishSound(served.w, served.m);
        var r := Finish(served.w, served.m);
        OnwardTwice(w, served.w, r.w);
        StartedStays(served.w, r.w, served.m.state.gateway, m.bind, m.topology);
      }
    }
  }

  lemma BuiltManages(u: World, w: World, v: World, m: Manager)
    requires Onward(u, w) && Manages(w, m) && Ahead(w, v)
    ensures Manages(v, m) && Onward(u, v) && v.disk == w.disk
  {
    hide Sound, Recorded, Onward;
    OnwardTwice(u, w, v);
    RecordedStays(w, v, m.state);
  }

  lemma StartedStays(w: World, v: World, r: Option<Record>, bind: ClientBind, topology: Topology)
    requires Onward(w, v)
    ensures StartedAs(w, r, bind, topology) ==> StartedAs(v, r, bind, topology)
  {
  }

  lemma StatusSound(w: World, m: Manager, c: Component)
    requires Sound(w)
    ensures Ahead(w, StatusFor(w, m, c).0) && StatusFor(w, m, c).0.acts == w.acts
  {
    hide Sound, Tick, Classify;
    var record := RecordOf(m.state, c);
    ProbeSound(w, record);
    TickAhead(ProbeRecord(w, record).0);
    AheadTwice(w, ProbeRecord(w, record).0, StatusFor(w, m, c).0);
  }

  /** Every `up` keeps the invariant, also one to which the gateway wavers. */
  lemma UpSound(w: World, s: RuntimeState, bind: ClientBind, topology: Topology)
    requires Sound(w) && w.starting.None? && Recorded(w, s)
    ensures var r := Up(w, ManagerOf(s), bind, topology); Sound(r.w) && Onward(w, r.w) && r.w.starting.None?
  {
    hide Sound, Recorded, Tick, UpFrom, Onward;
    TickAhead(w);
    AheadOnward(w, Tick(w));
    RecordedStays(w, Tick(w), s);
    if Head(w).yes {
      UpFromBrings(Tick(w), ManagerOf(s), bind, topology);
      OnwardTwice(w, Tick(w), UpFrom(Tick(w), ManagerOf(s), bind, topology).w);
    }
  }

  /** The first look at the gateway, under the recorded bind. */
  function FirstLook(w: World, m: Manager): Status { StatusFor(StatusFor(w, m, Spacetime).0, m, Gateway).1 }

  /** The second look at the gateway, under the bind and topology asked for. */
  function SecondLook(w: World, m: Manager, bind: ClientBind, topology: Topology): Status {
    var w2 := StatusFor(StatusFor(w, m, Spacetime).0, m, Gateway).0;
    StatusFor(w2, Asked(m, bind, topology), Gateway).1
  }

  lemma UpFromBrings(w: World, m: Manager, bind: ClientBind, topology: Topology)
    requires Manages(w, m)
    ensures Brings(w, Asked(m, bind, topology), SecondLook(w, m, bind, topology), UpFrom(w, m, bind, topology))
  {
    hide Sound, Recorded, StatusFor, BringUp, Onward, Host, StartedAs, TopologyName, Ahead, Running, KeepsShape;
    var asked := Asked(m, bind, topology);
    StatusSound(w, m, Spacetime);
    var (w1, spacetime) := StatusFor(w, m, Spacetime);
    AheadOnward(w, w1);
    StatusSound(w1, m, Gateway);
    var (w2, running) := StatusFor(w1, m, Gateway);
    AheadTwice(w, w1, w2);
    AheadOnward(w, w2);
    StatusSound(w2, asked, Gateway);
    var (w3, gateway) := StatusFor(w2, asked, Gateway);
    AheadTwice(w, w2, w3);
    AheadOnward(w, w3);
    RecordedStays(w, w3, m.state);
    SameRecords(w3, m.state, asked.state);
    BringUpSound(w3, asked, spacetime, gateway);
    OnwardTwice(w, w3, BringUp(w3, asked, spacetime, gateway).w);
  }

  lemma AheadOnward(w: World, v: World)
    requires Ahead(w, v)
    ensures Sound(v) && Onward(w, v) && v.starting == w.starting && v.disk == w.disk
  {
  }

  lemma OnwardTwice(u: World, v: World, w: World)
    requires Onward(u, v) && Onward(v, w)
    ensures Onward(u, w)
  {
  }

  lemma SameRecords(w: World, s: RuntimeState, t: RuntimeState)
    requires Recorded(w, s) && t.spacetime == s.spacetime && t.gateway == s.gateway
    ensures Recorded(w, t)
  {
  }

  // ---- down ----

  lemma {:induction false} AwaitSound(w: World, pid: nat)
    requires Sound(w)
    ensures Ahead(w, AwaitExit(w, pid))
    decreases |w.future|
  {
    hide Sound, Tick;
    var probed := Tick(w);
    TickAhead(w);
    TickAhead(probed);
    AheadTwice(w, probed, Tick(probed));
    if w.future != [] {
      assert ProbePid(w, pid).0 == probed;
      AwaitSound(probed, pid);
      AheadTwice(w, probed, AwaitExit(probed, pid));
      AwaitSound(Tick(probed), pid);
      AheadTwice(w, Tick(probed), AwaitExit(Tick(probed), pid));
    }
  }

  /** A component is signalled only when its live identity was the recorded one a moment ago. */
  lemma StopOneSound(w: World, s: RuntimeState, c: Component, forget: bool)
    requires Sound(w) && Recorded(w, s)
    ensures var (v, t, _, _) := StopOne(w, s, c, forget);
      Ahead(w, v) && Recorded(v, t) && (t == s || t == SetRecord(s, c, None))
  {
    hide Sound, Tick, AwaitExit;
    var record := RecordOf(s, c);
    ProbeSound(w, record);
    var (probed, live) := ProbeRecord(w, record);
    RecordedStays(w, probed, s);
    if Decide(record, live).Stop? {
      TerminateSound(probed, record.value);
      var sent := Terminate(probed, record.value).0;
      AheadTwice(w, probed, sent);
      AwaitSound(sent, record.value.pid);
      var gone := AwaitExit(sent, record.value.pid);
      AheadTwice(w, sent, gone);
      TickAhead(gone);
      AheadTwice(w, gone, Tick(gone));
    }
  }

  lemma TerminateSound(w: World, r: Record)
    requires Sound(w) && Own(w, Key(r))
    ensures Ahead(w, Terminate(w, r).0)
  {
    hide Sound, Tick;
    TickAhead(w);
    var now := Tick(w);
    var a := Signal(r.pid, Live(now, r.pid), r.identity);
    LogSound(now, a);
    AheadTwice(w, now, Log(now, a));
    TickAhead(Log(now, a));
    AheadTwice(w, Log(now, a), Terminate(w, r).0);
  }

  lemma StopsBoth(w: World, s: RuntimeState, forget: bool)
    ensures var (w1, s1, failed1, refused1) := StopOne(w, s, Gateway, forget);
      var (w2, s2, failed2, refused2) := StopOne(w1, s1, Spacetime, forget);
      var all := StopAll(Stopping(w, s, None, None), [Gateway, Spacetime], forget);
      if failed1.Some? then all.w == w1 && all.state == s1 && all.failed == failed1
      else
        && all.w == w2 && all.state == s2 && all.failed == failed2
        && (failed2.None? ==>
              all.refusal == if refused1 then Some(ForeignProcess(Gateway))
                             else if refused2 then Some(ForeignProcess(Spacetime)) else None)
  {
    hide StopOne;
    var cs := [Gateway, Spacetime];
    assert cs[1..] == [Spacetime] && cs[1..][1..] == [];
  }

  /** Stopping drops records and changes nothing else of the state. */
  lemma StoppingSound(w: World, s: RuntimeState, forget: bool)
    requires Sound(w) && Recorded(w, s)
    ensures var all := StopAll(Stopping(w, s, None, None), [Gateway, Spacetime], forget);
      && Ahead(w, all.w) && Recorded(all.w, all.state)
      && all.state.clientHost == s.clientHost && all.state.topology == s.topology
      && (all.state.gateway == s.gateway || all.state.gateway.None?)
  {
    hide Sound, Recorded, StopOne, StopAll;
    StopOneSound(w, s, Gateway, forget);
    var (w1, s1, failed1, refused1) := StopOne(w, s, Gateway, forget);
    StopOneSound(w1, s1, Spacetime, forget);
    var (w2, s2, failed2, refused2) := StopOne(w1, s1, Spacetime, forget);
    AheadTwice(w, w1, w2);
    StopsBoth(w, s, forget);
  }

  lemma DownSound(w: World, s: RuntimeState, forget: bool)
    requires Sound(w) && w.starting.None? && Recorded(w, s)
    ensures var r := Down(w, ManagerOf(s), forget);
      && Sound(r.w) && Onward(w, r.w) && r.w.starting.None?
      && (DiskAgrees(w) && Agrees(w, s) ==> DiskAgrees(r.w))
  {
    hide Sound, Recorded, Onward, StopAll, Save, FromRecorded, RecordedTopology, StartedAs;
    StoppingSound(w, s, forget);
    var stopped := StopAll(Stopping(w, s, None, None), [Gateway, Spacetime], forget);
    AheadOnward(w, stopped.w);
    var left := Unbound(ManagerOf(s).(state := stopped.state));
    SameRecords(stopped.w, stopped.state, left.state);
    SaveSound(stopped.w, left.state);
    var r := Down(w, ManagerOf(s), forget);
    OnwardTwice(w, stopped.w, Save(stopped.w, left.state).0);
    StartedStays(w, r.w, s.gateway, FromRecorded(s.clientHost), RecordedTopology(s.topology));
    if w.disk.Saved? {
      RecordedStays(w, r.w, w.disk.state);
    }
    NoneStarted(r.w, FromRecorded(""), RecordedTopology(s.topology));
  }

  lemma NoneStarted(w: World, bind: ClientBind, topology: Topology)
    ensures StartedAs(w, None, bind, topology)
  {
  }
}
