/** Whom a `down` signals. A turn passes between the look at a PID and the signal to it, so the signal can
    come too late. */
module RealmSignals {
  import opened Text
  import opened RealmWorld
  import opened Realm
  import opened RealmMoves
  import opened RealmOperator
  import opened RealmRuns
  import opened RealmSafety

  /** The signal went to the process that was recorded, under the name it had. */
  predicate Reached(a: Action) { a.Signal? ==> a.live == Some(a.recorded) }

  predicate AllReached(acts: seq<Action>) { forall k :: 0 <= k < |acts| ==> Reached(acts[k]) }

  /** The next turn leaves the holder of the PID and its name as they are. */
  predicate LeavesHolder(w: World, pid: nat) { Live(Tick(w), pid) == Live(w, pid) }

  /** If the component is going to be signalled, the turn in between leaves it alone. */
  predicate CalmFor(w: World, s: RuntimeState, c: Component) {
    var record := RecordOf(s, c);
    var (probed, live) := ProbeRecord(w, record);
    Decide(record, live).Stop? ==> LeavesHolder(probed, record.value.pid)
  }

  predicate CalmDown(w: World, s: RuntimeState, forget: bool) {
    var (w1, s1, failed, _) := StopOne(w, s, Gateway, forget);
    CalmFor(w, s, Gateway) && (failed.None? ==> CalmFor(w1, s1, Spacetime))
  }

  predicate Calm(w: World, step: Step) {
    match step
    case RunDown(forget, future) =>
      var s := Loaded(w, forget);
      s.Some? ==> CalmDown(w.(future := future), s.value, forget)
    case _ => true
  }

  lemma SignalReaches(w: World, s: RuntimeState, c: Component)
    ensures AllReached(Signals(w, s, c)) <==> CalmFor(w, s, c)
  {
    hide Tick;
    var record := RecordOf(s, c);
    var (probed, live) := ProbeRecord(w, record);
    if Decide(record, live).Stop? {
      assert Signals(w, s, c)[0] == SignalTo(probed, record.value);
    }
  }

  lemma ReachedConcat(a: seq<Action>, b: seq<Action>)
    ensures AllReached(a + b) <==> AllReached(a) && AllReached(b)
  {
    hide Reached;
    if AllReached(a + b) {
      assert forall k :: 0 <= k < |a| ==> (a + b)[k] == a[k];
      assert forall k :: 0 <= k < |b| ==> (a + b)[|a| + k] == b[k];
    }
  }

  lemma DownReaches(w: World, s: RuntimeState, forget: bool)
    ensures AllReached(DownSignals(w, s, forget)) <==> CalmDown(w, s, forget)
  {
    hide StopOne, Signals, CalmFor, AllReached;
    var (w1, s1, failed, _) := StopOne(w, s, Gateway, forget);
    SignalReaches(w, s, Gateway);
    SignalReaches(w1, s1, Spacetime);
    ReachedConcat(Signals(w, s, Gateway), Signals(w1, s1, Spacetime));
    ReachedConcat(Signals(w, s, Gateway), []);
    assert AllReached([]) by { NoneReached(); }
  }

  lemma NoneReached()
    ensures AllReached([])
  {
  }

  lemma NoSignalsReach(w: World, v: World)
    requires NoSignals(w, v)
    ensures AllReached(v.acts) <==> AllReached(w.acts)
  {
    assert forall k :: 0 <= k < |w.acts| ==> v.acts[k] == w.acts[k];
  }

  lemma MovesSignalNobody(w: World, v: World)
    requires Moves(w, v)
    ensures NoSignals(w, v)
  {
  }

  lemma DoReaches(w: World, step: Step)
    ensures AllReached(Do(w, step).acts) <==> AllReached(w.acts) && Calm(w, step)
  {
    hide Up, Down, ApplyAll, AllReached, CalmDown, Moves, DownSignals, NoSignals;
    match step {
      case RunUp(bind, topology, future) =>
        var v, s := w.(future := future), Loaded(w, false);
        if s.Some? {
          UpMoves(v, ManagerOf(s.value), bind, topology);
          MovesSignalNobody(v, Up(v, ManagerOf(s.value), bind, topology).w);
          NoSignalsReach(v, Up(v, ManagerOf(s.value), bind, topology).w);
        }
      case RunDown(forget, future) =>
        var v, s := w.(future := future), Loaded(w, forget);
        if s.Some? {
          DownSignalsOnly(v, ManagerOf(s.value), forget);
          DownReaches(v, s.value, forget);
          ReachedConcat(w.acts, DownSignals(v, s.value, forget));
        }
      case Meanwhile(events, accounts) =>
        ApplyAllPasses(w, events);
        AlterKeeps(ApplyAll(w, events), accounts);
      case LoseState(_) =>
    }
  }

  /** Over every sequence of runs: every signal went to the recorded process exactly when each turn between a
      look and its signal left the holder of the PID and its name alone. */
  lemma {:induction false} SignalsAreExact(trace: seq<World>, steps: seq<Step>, n: nat)
    requires IsRun(trace, steps) && n <= |steps|
    ensures AllReached(trace[n].acts) <==> forall k :: 0 <= k < n ==> Calm(trace[k], steps[k])
  {
    hide Do, Calm;
    if n > 0 {
      SignalsAreExact(trace, steps, n - 1);
      assert Follows(trace[n - 1], steps[n - 1], trace[n]);
      DoReaches(trace[n - 1], steps[n - 1]);
    }
  }

  /** Over every sequence of runs: a signal was only ever meant for a process that this CLI spawned, provided
      that the system does not give the PID of a process that is being started to another one; and it went
      to that process, under the recorded name, if no turn between a look and its signal disturbed that. */
  lemma OnlyOwnProcessesAreSignalled(trace: seq<World>, steps: seq<Step>, n: nat, a: Action)
    requires IsRun(trace, steps) && n <= |steps| && a in trace[n].acts && a.Signal?
    ensures !trace[0].recycles ==> (a.pid, a.recorded.start) in trace[n].ours
    ensures (forall k :: 0 <= k < n ==> Calm(trace[k], steps[k])) ==> a.live == Some(a.recorded)
  {
    hide Calm;
    RunsAreSound(trace, steps, n);
    SignalsAreExact(trace, steps, n);
    assert Just(trace[n], a);
    if forall k :: 0 <= k < n ==> Calm(trace[k], steps[k]) {
      assert Reached(a);
    }
  }

  predicate Concerns(e: Event, pid: nat) { !e.Claim? && e.pid == pid }

  /** Nothing happens to the PID. */
  predicate Elsewhere(events: seq<Event>, pid: nat) { forall k :: 0 <= k < |events| ==> !Concerns(events[k], pid) }

  lemma OtherLeavesHolder(w: World, e: Event, pid: nat)
    requires !Concerns(e, pid)
    ensures Live(Apply(w, e), pid) == Live(w, pid)
  {
  }

  lemma {:induction false} OthersLeaveHolder(w: World, events: seq<Event>, pid: nat)
    requires Elsewhere(events, pid)
    ensures Live(ApplyAll(w, events), pid) == Live(w, pid)
    decreases |events|
  {
    hide Apply, Concerns;
    if events != [] {
      OtherLeavesHolder(w, events[0], pid);
      OthersLeaveHolder(Apply(w, events[0]), events[1..], pid);
    }
  }

  /** A turn in which nothing happens to the PID leaves its holder alone. */
  lemma QuietTurnIsCalm(w: World, pid: nat)
    requires Elsewhere(Head(w).events, pid)
    ensures LeavesHolder(w, pid)
  {
    hide Elsewhere, ApplyAll, Alter;
    if w.future != [] {
      var v := w.(future := w.future[1..]);
      OthersLeaveHolder(v, w.future[0].events, pid);
      AlterKeeps(ApplyAll(v, w.future[0].events), w.future[0].accounts);
    }
  }
}
