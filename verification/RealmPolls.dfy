/** What the waits of `dev up` and `dev down` are for: how long each one polls, and what has been seen when it ends. */
module RealmPolls {
  import opened Text
  import opened RealmWorld
  import opened Realm
  import opened TopologyCheck

  /** `n` turns pass. */
  ghost function Ticks(w: World, n: nat): World
    decreases n
  {
    if n == 0 then w else Ticks(Tick(w), n - 1)
  }

  /** There is time left at each of the next `n` turns. */
  ghost predicate InTime(w: World, n: nat)
    decreases n
  {
    n == 0 || (w.future != [] && !Head(w).late && InTime(Tick(w), n - 1))
  }

  // ---- a component that starts ----

  /** `n` rounds of the wait for a port, each a probe of the port and a look at the recorded process. */
  ghost function Rounds(w: World, n: nat): World
    decreases n
  {
    if n == 0 then w else Rounds(Tick(Tick(w)), n - 1)
  }

  ghost function Holder(w: World, r: Record): Option<Identity> { ProbePid(Tick(w), r.pid).1 }

  /** Nothing ends the wait in this round: there is time, the port is silent, and the process is the one recorded. */
  ghost predicate StillStarting(w: World, r: Record) {
    && w.future != [] && !Head(w).late && !Head(w).yes
    && Holder(w, r).Some? && Holder(w, r).value.start == r.identity.start
  }

  /** How a round ends the wait. */
  ghost function Ending(w: World, r: Record): Option<Failure> {
    if w.future == [] || Head(w).late then Some(TimedOut) else if Head(w).yes then None else Some(DiedDuringStartup)
  }

  lemma WaitStep(w: World, s: RuntimeState, c: Component)
    requires RecordOf(s, c).Some?
    ensures var r := RecordOf(s, c).value;
      WaitForPort(w, s, c) ==
        if StillStarting(w, r) then WaitForPort(Tick(Tick(w)), s, c)
        else (if Ending(w, r) == Some(TimedOut) then Tick(w) else Tick(Tick(w)),
              if Ending(w, r).None? && Holder(w, r).Some?
              then SetRecord(s, c, Some(Record(r.pid, Holder(w, r).value))) else s,
              Ending(w, r))
  {
    hide Tick;
  }

  /** The wait ends in the first round in which the time is up, or else the port answers, or else the process is
      gone or another one; and it succeeds exactly when the port answers in time, with whatever has the PID then. */
  lemma {:induction false} PortAwaited(w: World, s: RuntimeState, c: Component) returns (n: nat)
    requires RecordOf(s, c).Some?
    ensures var (v, t, failure), r, last := WaitForPort(w, s, c), RecordOf(s, c).value, Rounds(w, n);
      && (forall i :: 0 <= i < n ==> StillStarting(Rounds(w, i), r)) && !StillStarting(last, r)
      && failure == Ending(last, r)
      && v == (if failure == Some(TimedOut) then Tick(last) else Tick(Tick(last)))
      && t == (if failure.None? && Holder(last, r).Some?
               then SetRecord(s, c, Some(Record(r.pid, Holder(last, r).value))) else s)
    decreases |w.future|
  {
    hide Tick, WaitForPort, Holder, Ending;
    var r := RecordOf(s, c).value;
    n := 0;
    WaitStep(w, s, c);
    if StillStarting(w, r) {
      var m := PortAwaited(Tick(Tick(w)), s, c);
      n := m + 1;
      forall i | 0 <= i < n ensures StillStarting(Rounds(w, i), r) {
        if i > 0 {
          assert StillStarting(Rounds(Tick(Tick(w)), i - 1), r);
        }
      }
    }
  }

  // ---- the log of a gateway that has started ----

  /** What the next reading leaves in hand: a log that cannot be read leaves the text as it was. */
  ghost function ReadAgain(w: World, start: nat, text: string): string {
    if Head(w).yes then ThisRun(Head(w).text, start) else text
  }

  ghost function InHand(w: World, start: nat, text: string, n: nat): string
    decreases n
  {
    if n == 0 then text else InHand(Tick(w), start, ReadAgain(w, start, text), n - 1)
  }

  /** The text names too few shards after `i` more readings, and there is time for another. */
  ghost predicate ReadsOn(w: World, start: nat, text: string, wanted: nat, i: nat) {
    && |ConnectedShards(InHand(w, start, text, i))| < wanted
    && Ticks(w, i).future != [] && !Head(Ticks(w, i)).late
  }

  /** The log is read again for as long as it names too few shards and there is time. */
  lemma {:induction false} ShardsAwaited(w: World, start: nat, text: string, wanted: nat) returns (n: nat)
    ensures var (v, last) := AwaitShards(w, start, text, wanted);
      && last == InHand(w, start, text, n)
      && (forall i :: 0 <= i < n ==> ReadsOn(w, start, text, wanted, i)) && !ReadsOn(w, start, text, wanted, n)
      && v == Ticks(w, if |ConnectedShards(last)| >= wanted then n else n + 1)
    decreases |w.future|
  {
    hide Tick, ConnectedShards, ReadAgain;
    n := 0;
    assert Ticks(w, 1) == Ticks(Tick(w), 0);
    if ReadsOn(w, start, text, wanted, 0) {
      var next := ReadAgain(w, start, text);
      ReadStep(w, start, text, wanted);
      var m := ShardsAwaited(Tick(w), start, next, wanted);
      n := m + 1;
      forall i | 0 <= i < n ensures ReadsOn(w, start, text, wanted, i) {
        if i > 0 {
          assert ReadsOn(Tick(w), start, next, wanted, i - 1);
        }
      }
    }
  }

  lemma ReadStep(w: World, start: nat, text: string, wanted: nat)
    requires ReadsOn(w, start, text, wanted, 0)
    ensures AwaitShards(w, start, text, wanted) == AwaitShards(Tick(w), start, ReadAgain(w, start, text), wanted)
  {
    hide Tick, ConnectedShards, ThisRun;
  }

  // ---- a component that stops ----

  lemma ExitStep(w: World, pid: nat)
    ensures w.future == [] ==> AwaitExit(w, pid) == Tick(w)
    ensures w.future != [] && ProbePid(w, pid).1.Some? ==>
      AwaitExit(w, pid) == if Head(w).late then Tick(w) else AwaitExit(Tick(w), pid)
    ensures w.future != [] && ProbePid(w, pid).1.None? ==>
      AwaitExit(w, pid) ==
        if Head(Tick(w)).yes && !Head(Tick(w)).late then AwaitExit(Tick(Tick(w)), pid) else Tick(Tick(w))
  {
    hide Tick;
  }

  /** "Stopped" means gone: unless the time runs out, the wait behind a signal ends with a look that finds nobody
      behind the PID and then a probe that finds the port silent. */
  lemma {:induction false} StoppedMeansGone(w: World, pid: nat) returns (n: nat)
    ensures AwaitExit(w, pid) == Ticks(w, n)
    ensures InTime(w, n) ==>
      n >= 2 && ProbePid(Ticks(w, n - 2), pid).1.None? && !Head(Ticks(w, n - 1)).yes
    decreases |w.future|
  {
    hide Tick, AwaitExit, ProbePid;
    var next := Tick(w);
    ExitStep(w, pid);
    assert Ticks(w, 1) == Ticks(next, 0) && Ticks(w, 2) == Ticks(next, 1) == Ticks(Tick(next), 0);
    if w.future == [] {
      n := 1;
    } else if ProbePid(w, pid).1.Some? {
      n := 1;
      if !Head(w).late {
        var m := StoppedMeansGone(next, pid);
        n := m + 1;
      }
    } else {
      n := 2;
      if Head(next).yes && !Head(next).late {
        var m := StoppedMeansGone(Tick(next), pid);
        n := m + 2;
        TwoLater(w, pid, m);
      }
    }
  }

  lemma TwoLater(w: World, pid: nat, m: nat)
    ensures Ticks(w, m + 2) == Ticks(Tick(Tick(w)), m)
    ensures InTime(w, m + 2) ==> InTime(Tick(Tick(w)), m)
    ensures m >= 2 ==> Ticks(w, m) == Ticks(Tick(Tick(w)), m - 2) && Ticks(w, m + 1) == Ticks(Tick(Tick(w)), m - 1)
  {
    hide Tick;
    assert Ticks(w, m + 2) == Ticks(Tick(w), m + 1);
    assert InTime(w, m + 2) ==> InTime(Tick(w), m + 1);
    if m >= 2 {
      assert Ticks(w, m) == Ticks(Tick(w), m - 1) && Ticks(w, m + 1) == Ticks(Tick(w), m);
    }
  }
}
