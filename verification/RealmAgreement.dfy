/** Exactly when the saved state agrees with the gateway it records. */
module RealmAgreement {
  import opened Text
  import opened ClientAddress
  import opened RealmWorld
  import opened Realm
  import opened RealmSafety
  import opened RealmRuns

  /** Something else is asked for than what the state file says. */
  predicate AsksElse(s: RuntimeState, bind: ClientBind, topology: Topology) {
    FromRecorded(s.clientHost) != bind || RecordedTopology(s.topology) != topology
  }

  lemma ShapesDiffer(w: World, s: RuntimeState, bind: ClientBind, topology: Topology)
    requires Agrees(w, s) && s.gateway.Some?
    ensures StartedAs(w, s.gateway, bind, topology) <==> !AsksElse(s, bind, topology)
  {
    hide FromRecorded, RecordedTopology;
  }

  /** An `up` that saves: if its second look found the recorded gateway it has kept that one, and the saved
      state agrees with it exactly when its own bind and topology were asked for; if not, it has started
      one, and agrees with that as far as the system does not recycle PIDs. */
  lemma UpSaves(w: World, s: RuntimeState, bind: ClientBind, topology: Topology)
    requires Sound(w) && w.starting.None? && Recorded(w, s) && Agrees(w, s) && Askable(bind)
    requires Up(w, ManagerOf(s), bind, topology).w.disk != w.disk
    ensures var r := Up(w, ManagerOf(s), bind, topology);
      && r.w.disk == Saved(r.m.state)
      && (if Running(SecondLook(Tick(w), ManagerOf(s), bind, topology))
          then r.m.state.gateway == s.gateway && (Agrees(r.w, r.m.state) <==> !AsksElse(s, bind, topology))
          else w.recycles || Agrees(r.w, r.m.state))
  {
    hide Sound, Recorded, Tick, UpFrom, Onward, Host, FromRecorded, StartedAs, SecondLook, AsksElse, Running;
    var w0, m := Tick(w), ManagerOf(s);
    TickAhead(w);
    AheadOnward(w, w0);
    RecordedStays(w, w0, s);
    UpFromBrings(w0, m, bind, topology);
    var r := UpFrom(w0, m, bind, topology);
    OnwardKeeps(w, w0);
    OnwardKeeps(w0, r.w);
    RecordedBindRoundTrips(bind);
    if Running(SecondLook(w0, m, bind, topology)) {
      RunningIsRecorded(w0, m, bind, topology);
      RecordedStays(w0, r.w, s);
      ShapesDiffer(r.w, s, bind, topology);
    }
  }

  lemma RunningIsRecorded(w: World, m: Manager, bind: ClientBind, topology: Topology)
    requires Running(SecondLook(w, m, bind, topology))
    ensures m.state.gateway.Some?
  {
    hide StatusFor, Host;
    var w2 := StatusFor(StatusFor(w, m, Spacetime).0, m, Gateway).0;
    ExternalHasNoRecord(w2, Asked(m, bind, topology), Gateway);
  }

  /** The recorded gateway looks dead or foreign to the first look and alive to the second: `ps` could not
      be run the first time, or the gateway has taken another name and then its old one back. */
  predicate Wavers(w: World, m: Manager, bind: ClientBind, topology: Topology) {
    !Running(FirstLook(w, m)) && Running(SecondLook(w, m, bind, topology))
  }

  /** The gateway wavers, and the run saves another bind or topology for it. */
  predicate Misled(w: World, s: RuntimeState, bind: ClientBind, topology: Topology) {
    && Wavers(Tick(w), ManagerOf(s), bind, topology) && AsksElse(s, bind, topology)
    && Up(w, ManagerOf(s), bind, topology).w.disk != w.disk
  }

  /** An `up` loses the agreement exactly when it is misled. */
  lemma UpAgreesExactly(w: World, s: RuntimeState, bind: ClientBind, topology: Topology)
    requires Sound(w) && w.starting.None? && Recorded(w, s) && Agrees(w, s) && DiskAgrees(w) && Askable(bind)
    requires !w.recycles
    ensures DiskAgrees(Up(w, ManagerOf(s), bind, topology).w) <==> !Misled(w, s, bind, topology)
  {
    hide Sound, Recorded, Tick, Up, Onward, Agrees, Running, SecondLook, FirstLook, AsksElse;
    var r := Up(w, ManagerOf(s), bind, topology);
    if r.w.disk == w.disk {
      UpSound(w, s, bind, topology);
      if w.disk.Saved? {
        RecordedStays(w, r.w, w.disk.state);
      }
    } else {
      UpSaves(w, s, bind, topology);
      if AsksElse(s, bind, topology) {
        SavesOnlyAsked(w, s, bind, topology);
      }
    }
  }

  /** A gateway that is found at the first look is refused another bind or topology. */
  lemma SavesOnlyAsked(w: World, s: RuntimeState, bind: ClientBind, topology: Topology)
    requires Up(w, ManagerOf(s), bind, topology).w.disk != w.disk && AsksElse(s, bind, topology)
    ensures !Running(FirstLook(Tick(w), ManagerOf(s)))
  {
    hide Tick, BringUp, Host, FromRecorded, Classify;
    var w0, m := Tick(w), ManagerOf(s);
    TickPasses(w);
    StatusPasses(w0, m, Spacetime);
    StatusPasses(StatusFor(w0, m, Spacetime).0, m, Gateway);
  }

  lemma StatusPasses(w: World, m: Manager, c: Component)
    ensures StatusFor(w, m, c).0.disk == w.disk
  {
    hide Tick, Classify;
    var probed := ProbeRecord(w, RecordOf(m.state, c)).0;
    TickPasses(w);
    TickPasses(probed);
  }

  ghost predicate AllAskable(steps: seq<Step>) {
    forall k :: 0 <= k < |steps| ==> (steps[k].RunUp? ==> Askable(steps[k].bind))
  }

  predicate Misleads(w: World, step: Step) {
    step.RunUp? && w.disk.Saved? &&
    Misled(w.(future := step.future), w.disk.state, step.bind, step.topology)
  }

  lemma NothingWavers(w: World, bind: ClientBind, topology: Topology)
    ensures !Wavers(w, ManagerOf(EMPTY), bind, topology)
  {
    hide Tick, FromRecorded, Host;
  }

  lemma DoAgrees(w: World, step: Step)
    requires Sound(w) && w.starting.None? && !w.recycles && DiskAgrees(w) && (step.RunUp? ==> Askable(step.bind))
    ensures DiskAgrees(Do(w, step)) <==> !Misleads(w, step)
  {
    hide Sound, Recorded, Up, Down, ApplyAll, Onward, Agrees, Wavers, Askable;
    match step {
      case RunUp(bind, topology, future) =>
        var v := w.(future := future);
        SameHistory(w, v);
        SameAgreement(w, v);
        NothingWavers(Tick(v), bind, topology);
        var s := Loaded(w, false);
        if s.Some? {
          LoadedHolds(v, s.value);
          UpAgreesExactly(v, s.value, bind, topology);
        }
      case RunDown(forget, future) =>
        var v := w.(future := future);
        SameHistory(w, v);
        SameAgreement(w, v);
        var s := Loaded(w, forget);
        if s.Some? {
          LoadedHolds(v, s.value);
          DownSound(v, s.value, forget);
        }
      case Meanwhile(events, accounts) =>
        ApplyAllPasses(w, events);
        AlterKeeps(ApplyAll(w, events), accounts);
        SameAgreement(w, Do(w, step));
      case LoseState(left) =>
    }
  }

  lemma SameAgreement(w: World, v: World)
    requires v.disk == w.disk && v.launches == w.launches
    ensures DiskAgrees(v) <==> DiskAgrees(w)
  {
    hide FromRecorded, RecordedTopology;
  }

  lemma {:induction false} AgreesUnlessMisled(trace: seq<World>, steps: seq<Step>, n: nat)
    requires IsRun(trace, steps) && !trace[0].recycles && AllAskable(steps) && n <= |steps|
    requires forall k :: 0 <= k < n ==> !Misleads(trace[k], steps[k])
    ensures DiskAgrees(trace[n])
  {
    hide Do, Sound, Misleads, Agrees, Askable;
    if n > 0 {
      AgreesUnlessMisled(trace, steps, n - 1);
      RunsAreSound(trace, steps, n - 1);
      assert Follows(trace[n - 1], steps[n - 1], trace[n]);
      DoAgrees(trace[n - 1], steps[n - 1]);
    }
  }

  /** Over every sequence of runs: the saved state always agrees with its gateway exactly when no `up` was
      misled. */
  lemma AgreementIsExact(trace: seq<World>, steps: seq<Step>)
    requires IsRun(trace, steps) && !trace[0].recycles && AllAskable(steps)
    ensures (forall k :: 0 <= k < |trace| ==> DiskAgrees(trace[k])) <==>
      forall k :: 0 <= k < |steps| ==> !Misleads(trace[k], steps[k])
  {
    hide Do, Sound, Misleads, DiskAgrees, Askable;
    if forall k :: 0 <= k < |steps| ==> !Misleads(trace[k], steps[k]) {
      forall k | 0 <= k < |trace| ensures DiskAgrees(trace[k]) {
        AgreesUnlessMisled(trace, steps, k);
      }
    }
    if forall k :: 0 <= k < |trace| ==> DiskAgrees(trace[k]) {
      forall k | 0 <= k < |steps| ensures !Misleads(trace[k], steps[k]) {
        RunsAreSound(trace, steps, k);
        assert Follows(trace[k], steps[k], trace[k + 1]);
        DoAgrees(trace[k], steps[k]);
      }
    }
  }

  /** In every saved state the recorded gateway was started with exactly the saved bind and topology, as
      long as no `up` was misled. */
  lemma SavedGatewayIsAsRecorded(trace: seq<World>, steps: seq<Step>, n: nat, s: RuntimeState, r: Record)
    requires IsRun(trace, steps) && n <= |steps| && trace[n].disk == Saved(s) && s.gateway == Some(r)
    requires !trace[0].recycles && AllAskable(steps) && forall k :: 0 <= k < n ==> !Misleads(trace[k], steps[k])
    ensures Key(r) in trace[n].ours && Key(r) in trace[n].launches
    ensures trace[n].launches[Key(r)].bind == FromRecorded(s.clientHost)
    ensures trace[n].launches[Key(r)].topology == RecordedTopology(s.topology)
  {
    hide FromRecorded, RecordedTopology, Misleads, Askable;
    RunsAreSound(trace, steps, n);
    AgreesUnlessMisled(trace, steps, n);
  }

  /** A run to which the gateway wavers and which gets as far as saving records the old gateway with the bind and
      topology it was asked for: the saved state agrees with the gateway exactly when those are the ones
      the gateway was started with. */
  lemma WaveringMisleads(w: World, s: RuntimeState, bind: ClientBind, topology: Topology)
    requires Sound(w) && w.starting.None? && Recorded(w, s) && Agrees(w, s) && Askable(bind)
    requires Wavers(Tick(w), ManagerOf(s), bind, topology)
    requires Up(w, ManagerOf(s), bind, topology).w.disk != w.disk
    ensures var r := Up(w, ManagerOf(s), bind, topology);
      && r.w.disk == Saved(r.m.state) && r.m.state.gateway == s.gateway
      && (Agrees(r.w, r.m.state) <==> FromRecorded(s.clientHost) == bind && RecordedTopology(s.topology) == topology)
  {
    hide Sound, Recorded, Tick, Up, Agrees, Running, FirstLook, SecondLook, Askable;
    UpSaves(w, s, bind, topology);
  }
}
