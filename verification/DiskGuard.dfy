/** The host disk guard (deploy/lyracore-disk-guard.py): a latched controller over free disk space that
    hands out expiring leases, revokes them when history pruning is overdue, and offers them to every
    database. Times are real numbers of seconds; one run of the script is one `Input`. */
module DiskGuard {
  import opened Text
  import opened LeaseRenewal

  const GIB: int := 1024 * 1024 * 1024
  const WARN_BYTES := 30 * GIB
  const STOP_BYTES := 20 * GIB
  const LEASE_SECONDS := 180.0
  const PRUNE_AGE := 1800.0

  datatype State = Healthy | Warning | Suspended

  /** A field of the previous status file: the file may be missing, or hold anything. */
  datatype Field = Absent | Number(value: real) | Invalid
  datatype StateField = NoState | Known(state: State) | UnknownState

  datatype Previous = Previous(
    state: StateField, sampledAt: Field, freeBytes: Field, boot: Option<string>, pruneSuccess: Field)
  const NO_FILE := Previous(NoState, Absent, Absent, None, Absent)

  datatype Status = Status(
    sampledAt: real, free: int, growth: real, hours: Option<real>, state: State, lease: int,
    boot: string, pruneSuccess: real, pruneAge: Option<real>)

  /** What one run reads: both clocks, the boot id, the disk, the flag, and the prune unit. When
      `systemctl` fails the result is "unknown" and the exit time 0; `unitAnswers` is false when it cannot
      be run or takes too long, and `exited` is None when the exit time is not a number. */
  datatype Input = Input(
    now: real, mono: real, boot: string, free: int, resume: bool,
    result: string, exited: Option<int>, activating: bool, unitAnswers: bool)

  datatype Result<T> = Ok(value: T) | Refused

  // ---- one sample ----

  function Decide(free: int, latched: bool, resume: bool): Result<State> {
    if resume && free < WARN_BYTES then Refused
    else if free < STOP_BYTES || (latched && !resume) then Ok(Suspended)
    else Ok(if free < WARN_BYTES then Warning else Healthy)
  }

  predicate Plausible(f: Field) { f.Absent? || (f.Number? && f.value >= 0.0) }

  function ValueOr(f: Field, default: real): real { if f.Number? then f.value else default }

  function MaxReal(a: real, b: real): real { if a >= b then a else b }

  /** Python's `int`: truncation toward zero. */
  function Trunc(x: real): int { if x >= 0.0 then x.Floor else -((-x).Floor) }

  function Latched(previous: Previous): bool { previous.state == NoState || previous.state == Known(Suspended) }

  function Sample(previous: Previous, i: Input): Result<Status> {
    if previous.state == UnknownState || !Plausible(previous.sampledAt) || !Plausible(previous.freeBytes) then Refused
    else match Decide(i.free, Latched(previous), i.resume)
      case Refused => Refused
      case Ok(state) =>
        var elapsed := i.now - ValueOr(previous.sampledAt, i.now);
        var lost := MaxReal(0.0, ValueOr(previous.freeBytes, i.free as real) - i.free as real);
        var growth := if elapsed > 0.0 then lost / elapsed else 0.0;
        var hours := if growth != 0.0 && i.free > STOP_BYTES
                     then Some((i.free - STOP_BYTES) as real / growth / 3600.0) else None;
        var lease := if state == Suspended then 0 else Trunc((i.now + LEASE_SECONDS) * 1000000.0);
        Ok(Status(i.now, i.free, growth, hours, state, lease, "", 0.0, None))
  }

  /** The forecast is the time at which the measured growth eats the space above the reserve. */
  lemma ForecastReachesReserve(previous: Previous, i: Input)
    requires Sample(previous, i).Ok? && Sample(previous, i).value.hours.Some?
    ensures var s := Sample(previous, i).value;
      s.growth > 0.0 && s.hours.value > 0.0 &&
      i.free as real - s.growth * (s.hours.value * 3600.0) == STOP_BYTES as real
  {
    var s := Sample(previous, i).value;
    var above := (i.free - STOP_BYTES) as real;
    assert s.growth > 0.0 by {
      var elapsed := i.now - ValueOr(previous.sampledAt, i.now);
      var lost := MaxReal(0.0, ValueOr(previous.freeBytes, i.free as real) - i.free as real);
      if lost > 0.0 { DividePositive(lost, elapsed); }
    }
    DividePositive(above, s.growth);
    DividePositive(above / s.growth, 3600.0);
    assert s.growth * (above / s.growth) == above;
    assert s.hours.value * 3600.0 == above / s.growth;
  }

  // ---- the prune deadline ----

  /** `require_recent_prune`. */
  function RequireRecentPrune(s: Status, result: string, age: Option<real>): Status {
    if result == "success" && age.Some? && 0.0 <= age.value <= PRUNE_AGE then s.(pruneAge := age)
    else s.(pruneAge := age, state := Suspended, lease := 0)
  }

  /** The exit time `check_prune` trusts, or 0. */
  function TrustedExit(previous: Previous, i: Input): real
    requires i.exited.Some?
  {
    var reported := i.exited.value as real / 1000000.0;
    var retained := reported == 0.0 && i.result == "success" && i.activating && previous.boot == Some(i.boot);
    var field := if retained then (if previous.pruneSuccess.Absent? then Number(0.0) else previous.pruneSuccess)
                 else Number(reported);
    if field.Number? && 0.0 < field.value <= i.mono then field.value else 0.0
  }

  predicate PrunedRecently(previous: Previous, i: Input)
    requires i.exited.Some?
  {
    i.result == "success" && TrustedExit(previous, i) > 0.0 && i.mono - TrustedExit(previous, i) <= PRUNE_AGE
  }

  function CheckPrune(s: Status, previous: Previous, i: Input): Status
    requires i.exited.Some?
  {
    var finished := TrustedExit(previous, i);
    RequireRecentPrune(
      s.(boot := i.boot, pruneSuccess := if i.result == "success" then finished else 0.0),
      i.result, if finished != 0.0 then Some(i.mono - finished) else None)
  }

  /** The status dictionary the script fills in step by step. */
  class StatusRecord {
    var value: Status

    constructor (sampled: Status)
      ensures value == sampled
    {
      value := sampled;
    }

    method RequireRecent(result: string, age: Option<real>) returns (healthy: bool)
      modifies this
      ensures value == RequireRecentPrune(old(value), result, age)
      ensures healthy <==> result == "success" && age.Some? && 0.0 <= age.value <= PRUNE_AGE
      ensures healthy ==> value.state == old(value).state && value.lease == old(value).lease
    {
      value := value.(pruneAge := age);
      healthy := result == "success" && age.Some? && 0.0 <= age.value <= PRUNE_AGE;
      if !healthy {
        value := value.(state := Suspended);
        value := value.(lease := 0);
      }
    }

    method Check(previous: Previous, i: Input) returns (healthy: bool)
      requires i.exited.Some?
      modifies this
      ensures value == CheckPrune(old(value), previous, i)
      ensures healthy <==> PrunedRecently(previous, i)
    {
      var finished: Field := Number(i.exited.value as real / 1000000.0);
      if finished.value == 0.0 && i.result == "success" && i.activating {
        if previous.boot == Some(i.boot) {
          finished := if previous.pruneSuccess.Absent? then Number(0.0) else previous.pruneSuccess;
        }
      }
      if !finished.Number? || !(0.0 < finished.value <= i.mono) {
        finished := Number(0.0);
      }
      value := value.(boot := i.boot);
      value := value.(pruneSuccess := if i.result == "success" then finished.value else 0.0);
      healthy := RequireRecent(i.result, if finished.value != 0.0 then Some(i.mono - finished.value) else None);
    }
  }

  // ---- a run, and runs ----

  function AsFile(s: Status): Previous {
    Previous(Known(s.state), Number(s.sampledAt), Number(s.free as real), Some(s.boot), Number(s.pruneSuccess))
  }

  /** What one run writes, or `Refused` when it stops before its first write. */
  function RunOnce(previous: Previous, i: Input): Result<Status> {
    match Sample(previous, i)
    case Refused => Refused
    case Ok(s) => if i.unitAnswers && i.exited.Some? then Ok(CheckPrune(s, previous, i)) else Refused
  }

  function FileAfter(previous: Previous, i: Input): Previous {
    match RunOnce(previous, i) case Refused => previous case Ok(s) => AsFile(s)
  }

  /** The status file before each run, and after the last. */
  ghost predicate IsHistory(files: seq<Previous>, runs: seq<Input>) {
    |files| == |runs| + 1 && forall k :: 0 <= k < |runs| ==> files[k + 1] == FileAfter(files[k], runs[k])
  }

  /** The effects of a run, in order: the status file is written before any database is called, and again
      with the failures. */
  datatype Effect =
    | Persist(status: Status, failed: Option<seq<string>>)
    | Renewal(database: string, lease: int, timeout: real)

  /** One call for each timeout given, from the first database on. */
  function Renewals(databases: seq<string>, lease: int, timeouts: seq<real>): (r: seq<Effect>)
    requires |timeouts| <= |databases|
    ensures |r| == |timeouts|
  {
    seq(|timeouts|, k requires 0 <= k < |timeouts| => Renewal(databases[k], lease, timeouts[k]))
  }

  /** What a run does that does not stop before its first write. */
  function Effects(s: Status, databases: seq<string>, renewed: Renewed): seq<Effect>
    requires |renewed.timeouts| <= |databases|
  {
    [Persist(s, None)] + Renewals(databases, s.lease, renewed.timeouts) + [Persist(s, Some(renewed.failures))]
  }

  class Host {
    var file: Previous
    var effects: seq<Effect>

    constructor ()
      ensures file == NO_FILE && effects == []
    {
      file, effects := NO_FILE, [];
    }

    /** `main`. Every lease offered to a database is the one the file already holds, in the order of the
        databases. */
    method Run(databases: seq<string>, i: Input, clock: nat -> real, answers: nat -> bool) returns (healthy: bool)
      modifies this
      ensures file == FileAfter(old(file), i)
      ensures RunOnce(old(file), i).Refused? ==> effects == old(effects) && !healthy
      ensures RunOnce(old(file), i).Ok? ==>
        var s, renewed := RunOnce(old(file), i).value, Renew(databases, clock, answers);
        && |renewed.timeouts| <= |databases|
        && effects == old(effects) + Effects(s, databases, renewed)
        && (healthy <==> renewed.failures == [] && PrunedRecently(old(file), i))
    {
      hide Renew, Sample, CheckPrune;
      var sampled := Sample(file, i);
      if sampled.Refused? || !i.unitAnswers || i.exited.None? {
        return false;
      }
      var status := new StatusRecord(sampled.value);
      var pruned := status.Check(file, i);
      assert status.value == RunOnce(old(file), i).value;
      file := AsFile(status.value);
      effects := effects + [Persist(status.value, None)];
      var failures, timeouts := RenewLeases(databases, clock, answers);
      effects := effects + Renewals(databases, status.value.lease, timeouts);
      file := AsFile(status.value);
      effects := effects + [Persist(status.value, Some(failures))];
      InOneGo(old(effects), status.value, databases, Renewed(failures, timeouts));
      healthy := failures == [] && pruned;
    }
  }

  lemma InOneGo(before: seq<Effect>, s: Status, databases: seq<string>, renewed: Renewed)
    requires |renewed.timeouts| <= |databases|
    ensures before + [Persist(s, None)] + Renewals(databases, s.lease, renewed.timeouts) +
      [Persist(s, Some(renewed.failures))] == before + Effects(s, databases, renewed)
  {
    hide Renewals;
  }

  /** Any runs from any status file make a history. */
  lemma {:induction false} EveryHistory(start: Previous, runs: seq<Input>) returns (files: seq<Previous>)
    ensures IsHistory(files, runs) && files[0] == start
  {
    hide FileAfter;
    if runs == [] {
      files := [start];
    } else {
      var before := runs[..|runs| - 1];
      files := EveryHistory(start, before);
      assert forall k :: 0 <= k < |before| ==> runs[k] == before[k];
      files := files + [FileAfter(files[|before|], runs[|before|])];
    }
  }

  /** A run that read a real, successful exit of the prune unit in the given boot. */
  ghost predicate SawSuccess(i: Input, boot: string, at: real) {
    i.boot == boot && i.result == "success" && i.exited.Some? && at > 0.0 && at == i.exited.value as real / 1000000.0
  }

  ghost predicate Seen(runs: seq<Input>, boot: string, at: real) {
    exists j :: 0 <= j < |runs| && SawSuccess(runs[j], boot, at)
  }

  /** Some run so far saw a success of this boot that is at most 1800 seconds old by now. */
  ghost predicate SeenRecently(runs: seq<Input>, now: Input) {
    exists at: real :: now.mono - 1800.0 <= at <= now.mono && Seen(runs, now.boot, at)
  }

  /** A success time in the file was really observed, in the boot the file names. */
  ghost predicate Honest(file: Previous, runs: seq<Input>) {
    file.pruneSuccess.Number? && file.pruneSuccess.value > 0.0 ==>
      file.boot.Some? && Seen(runs, file.boot.value, file.pruneSuccess.value)
  }

  lemma SeenByMore(runs: seq<Input>, i: Input, boot: string, at: real)
    requires Seen(runs, boot, at) || SawSuccess(i, boot, at)
    ensures Seen(runs + [i], boot, at)
  {
    if Seen(runs, boot, at) {
      var j :| 0 <= j < |runs| && SawSuccess(runs[j], boot, at);
      assert SawSuccess((runs + [i])[j], boot, at);
    } else {
      assert SawSuccess((runs + [i])[|runs|], boot, at);
    }
  }

  lemma TrustedWasSeen(file: Previous, runs: seq<Input>, i: Input)
    requires Honest(file, runs) && i.exited.Some? && i.result == "success"
    requires TrustedExit(file, i) > 0.0
    ensures Seen(runs + [i], i.boot, TrustedExit(file, i))
  {
    SeenByMore(runs, i, i.boot, TrustedExit(file, i));
  }

  lemma {:induction false} HistoryIsHonest(files: seq<Previous>, runs: seq<Input>, n: nat)
    requires IsHistory(files, runs) && files[0].pruneSuccess == Absent && n <= |runs|
    ensures Honest(files[n], runs[..n])
  {
    hide Sample;
    if n > 0 {
      HistoryIsHonest(files, runs, n - 1);
      var file, before, i := files[n - 1], runs[..n - 1], runs[n - 1];
      assert runs[..n] == before + [i] && files[n] == FileAfter(file, i);
      if RunOnce(file, i).Ok? {
        if i.result == "success" && TrustedExit(file, i) > 0.0 {
          TrustedWasSeen(file, before, i);
        }
      } else if file.pruneSuccess.Number? && file.pruneSuccess.value > 0.0 {
        SeenByMore(before, i, file.boot.value, file.pruneSuccess.value);
      }
    }
  }

  /** Over every history from a missing status file: the status a run writes carries a lease exactly
      when it is not suspended; a lease ends at most 180 seconds ahead, with at least 20 GiB free, and
      a prune success really observed in this boot at most 1800 seconds ago, however long the prune
      unit has been reporting that it is activating. */
  lemma LeaseIsEarned(files: seq<Previous>, runs: seq<Input>, n: nat, s: Status)
    requires IsHistory(files, runs) && files[0].pruneSuccess == Absent
    requires n < |runs| && runs[n].now >= 0.0 && RunOnce(files[n], runs[n]) == Ok(s)
    ensures var i := runs[n];
      && (s.lease > 0 <==> s.state != Suspended) && s.lease >= 0
      && (s.lease > 0 ==>
            && s.lease as real <= (i.now + 180.0) * 1000000.0
            && i.free >= 21474836480
            && i.result == "success"
            && SeenRecently(runs[..n + 1], i))
  {
    var i := runs[n];
    HistoryIsHonest(files, runs, n);
    assert (i.now + LEASE_SECONDS) * 1000000.0 >= 180000000.0;
    if s.lease > 0 {
      TrustedWasSeen(files[n], runs[..n], i);
      assert runs[..n + 1] == runs[..n] + [i];
    }
  }

  predicate Resumes(i: Input) { i.resume && i.free >= 32212254720 }

  lemma OneRunLatches(file: Previous, i: Input)
    requires Latched(file)
    ensures Latched(FileAfter(file, i)) || Resumes(i)
  {
  }

  /** From any point of any history on, a suspended status stays suspended until a resume run with at
      least 30 GiB free. */
  lemma {:induction false} SuspensionLatches(files: seq<Previous>, runs: seq<Input>, j: nat, n: nat)
    requires IsHistory(files, runs) && j <= n <= |runs| && Latched(files[j])
    ensures Latched(files[n]) || exists k :: j <= k < n && Resumes(runs[k])
  {
    hide Latched, FileAfter, Resumes;
    if j < n {
      SuspensionLatches(files, runs, j, n - 1);
      if Latched(files[n - 1]) {
        OneRunLatches(files[n - 1], runs[n - 1]);
        assert files[n] == FileAfter(files[n - 1], runs[n - 1]);
      }
    }
  }

  // ---- what one run decides ----

  /** A prune success that ended at `at` and can be trusted now: the unit reports it, or it is being pruned
      again and the status file of this boot has kept it. */
  ghost predicate Trusted(previous: Previous, i: Input, at: real) {
    && i.exited.Some? && 0.0 < at <= i.mono
    && if i.exited.value == 0 && i.result == "success" && i.activating && previous.boot == Some(i.boot)
       then previous.pruneSuccess == Number(at) else at == i.exited.value as real / 1000000.0
  }

  ghost predicate HasTrusted(previous: Previous, i: Input) { exists at: real :: Trusted(previous, i, at) }

  /** The last prune was a success at most 30 minutes ago. */
  ghost predicate Fresh(previous: Previous, i: Input) {
    i.result == "success" && exists at: real :: Trusted(previous, i, at) && i.mono - at <= 1800.0
  }

  lemma TrustedIs(previous: Previous, i: Input, at: real)
    requires Trusted(previous, i, at)
    ensures TrustedExit(previous, i) == at
  {
  }

  lemma NothingTrusted(previous: Previous, i: Input)
    requires i.exited.Some? && !HasTrusted(previous, i)
    ensures TrustedExit(previous, i) == 0.0
  {
    if TrustedExit(previous, i) != 0.0 {
      assert Trusted(previous, i, TrustedExit(previous, i));
    }
  }

  /** A run stops before its first write exactly when the status file or the prune unit cannot be read, or
      a resume is asked for with less than 30 GiB free. */
  lemma RefusesExactly(previous: Previous, i: Input)
    ensures RunOnce(previous, i).Refused? <==>
      || previous.state == UnknownState || (i.resume && i.free < 32212254720)
      || previous.sampledAt == Invalid || (previous.sampledAt.Number? && previous.sampledAt.value < 0.0)
      || previous.freeBytes == Invalid || (previous.freeBytes.Number? && previous.freeBytes.value < 0.0)
      || !i.unitAnswers || i.exited.None?
  {
  }

  /** What a run decides: suspension below 20 GiB, while the latch holds, or without a recent prune; a warning
      below 30 GiB; and a lease that ends 180 seconds ahead, in whole microseconds, whenever it does not
      suspend. */
  lemma RunDecides(previous: Previous, i: Input, s: Status)
    requires RunOnce(previous, i) == Ok(s)
    ensures s.state == Suspended <==>
      || i.free < 21474836480 || !Fresh(previous, i)
      || ((previous.state == NoState || previous.state == Known(Suspended)) && !i.resume)
    ensures s.state == Warning <==> s.state != Suspended && i.free < 32212254720
    ensures s.state == Suspended ==> s.lease == 0
    ensures s.state != Suspended ==>
      var end := (i.now + 180.0) * 1000000.0;
      if end >= 0.0 then s.lease as real <= end < s.lease as real + 1.0
      else s.lease as real - 1.0 < end <= s.lease as real
    ensures PrunedRecently(previous, i) <==> Fresh(previous, i)
  {
    if at: real :| Trusted(previous, i, at) {
      TrustedIs(previous, i, at);
    }
    if !HasTrusted(previous, i) {
      NothingTrusted(previous, i);
    }
  }

  /** What a run writes beside its decision: the sample, the growth since the last one, and the prune. */
  lemma RunWrites(previous: Previous, i: Input, s: Status)
    requires RunOnce(previous, i) == Ok(s)
    ensures s.sampledAt == i.now && s.free == i.free && s.boot == i.boot
    ensures previous.sampledAt.Number? && previous.sampledAt.value < i.now && previous.freeBytes.Number? ==>
      var lost := previous.freeBytes.value - i.free as real;
      s.growth * (i.now - previous.sampledAt.value) == if lost > 0.0 then lost else 0.0
    ensures !(previous.sampledAt.Number? && previous.sampledAt.value < i.now && previous.freeBytes.Number?) ==>
      s.growth == 0.0
    ensures s.hours.Some? <==> s.growth != 0.0 && i.free > 21474836480
    ensures HasTrusted(previous, i) <==> s.pruneAge.Some?
    ensures s.pruneAge.Some? ==> Trusted(previous, i, i.mono - s.pruneAge.value)
    ensures s.pruneSuccess == if s.pruneAge.Some? && i.result == "success" then i.mono - s.pruneAge.value else 0.0
  {
    if HasTrusted(previous, i) {
      var at: real :| Trusted(previous, i, at);
      TrustedIs(previous, i, at);
    } else {
      NothingTrusted(previous, i);
    }
    var elapsed := i.now - ValueOr(previous.sampledAt, i.now);
    if elapsed > 0.0 {
      Divided(MaxReal(0.0, ValueOr(previous.freeBytes, i.free as real) - i.free as real), elapsed);
    }
  }

  lemma Divided(a: real, b: real)
    requires b > 0.0
    ensures a / b * b == a && (a == 0.0 ==> a / b == 0.0)
  {
  }

  /** What a run does, one effect after the other: the status without failures, one call for each timeout, to
      the databases in order and with the lease of the status, and the status with the failures. */
  lemma EffectsAre(s: Status, databases: seq<string>, renewed: Renewed)
    requires |renewed.timeouts| <= |databases|
    ensures var e, n := Effects(s, databases, renewed), |renewed.timeouts|;
      && |e| == n + 2 && e[0] == Persist(s, None) && e[n + 1] == Persist(s, Some(renewed.failures))
      && forall k :: 0 <= k < n ==> e[k + 1] == Renewal(databases[k], s.lease, renewed.timeouts[k])
  {
  }

  /** The next run finds in the file what this one has written. */
  lemma FileIsStatus(previous: Previous, i: Input, s: Status)
    requires RunOnce(previous, i) == Ok(s)
    ensures FileAfter(previous, i) ==
      Previous(Known(s.state), Number(s.sampledAt), Number(s.free as real), Some(s.boot), Number(s.pruneSuccess))
  {
  }
}
