/** Renewing the leases of all databases within 45 seconds (deploy/lyracore-disk-guard.py, `renew`). The
    monotonic clock and the outcome of each call are parameters. */
module LeaseRenewal {
  import opened Text

  datatype Renewed = Renewed(failures: seq<string>, timeouts: seq<real>)

  function MinReal(a: real, b: real): real { if a <= b then a else b }

  /** The timeout the call with `left` databases still to do is given. */
  function Share(remaining: real, left: nat): real
    requires left > 0
  {
    MinReal(10.0, remaining / left as real)
  }

  /** Renewal from database `k` on; `clock(k + 1)` is read before database `k`, `answers(k)` is whether
      its call succeeded. */
  function RenewFrom(databases: seq<string>, k: nat, deadline: real, clock: nat -> real, answers: nat -> bool): Renewed
    requires k <= |databases|
    decreases |databases| - k
  {
    var remaining := deadline - clock(k + 1);
    if k == |databases| then Renewed([], [])
    else if remaining <= 0.0 then Renewed(databases[k..], [])
    else
      var rest := RenewFrom(databases, k + 1, deadline, clock, answers);
      Renewed((if answers(k) then [] else [databases[k]]) + rest.failures,
              [Share(remaining, |databases| - k)] + rest.timeouts)
  }

  function Renew(databases: seq<string>, clock: nat -> real, answers: nat -> bool): Renewed {
    RenewFrom(databases, 0, clock(0) + 45.0, clock, answers)
  }

  lemma RenewStep(
      databases: seq<string>, k: nat, deadline: real, clock: nat -> real, answers: nat -> bool, failed: seq<string>)
    requires k < |databases| && deadline - clock(k + 1) > 0.0
    requires failed == if answers(k) then [] else [databases[k]]
    ensures
      var r := RenewFrom(databases, k, deadline, clock, answers);
      var rest := RenewFrom(databases, k + 1, deadline, clock, answers);
      r.failures == failed + rest.failures &&
      r.timeouts == [Share(deadline - clock(k + 1), |databases| - k)] + rest.timeouts
  {
  }

  /** Renewal is over with the last database or with the deadline. */
  lemma RenewEnds(databases: seq<string>, k: nat, deadline: real, clock: nat -> real, answers: nat -> bool)
    requires k <= |databases| && (k == |databases| || deadline - clock(k + 1) <= 0.0)
    ensures RenewFrom(databases, k, deadline, clock, answers) == Renewed(databases[k..], [])
  {
  }

  method RenewLeases(databases: seq<string>, clock: nat -> real, answers: nat -> bool)
      returns (failures: seq<string>, timeouts: seq<real>)
    ensures Renewed(failures, timeouts) == Renew(databases, clock, answers)
    ensures |timeouts| <= |databases|
  {
    hide Share, RenewFrom;
    failures, timeouts := [], [];
    ghost var all := Renew(databases, clock, answers);
    var deadline := clock(0) + 45.0;
    var index := 0;
    while index < |databases|
      invariant 0 <= index == |timeouts| <= |databases|
      invariant failures + RenewFrom(databases, index, deadline, clock, answers).failures == all.failures
      invariant timeouts + RenewFrom(databases, index, deadline, clock, answers).timeouts == all.timeouts
    {
      ghost var rest := RenewFrom(databases, index + 1, deadline, clock, answers);
      var remaining := deadline - clock(index + 1);
      if remaining <= 0.0 {
        RenewEnds(databases, index, deadline, clock, answers);
        failures := failures + databases[index..];
        return;
      }
      var timeout := Share(remaining, |databases| - index);
      var failed := if answers(index) then [] else [databases[index]];
      RenewStep(databases, index, deadline, clock, answers, failed);
      Regroup(failures, failed, rest.failures, all.failures);
      Regroup(timeouts, [timeout], rest.timeouts, all.timeouts);
      timeouts := timeouts + [timeout];
      failures := failures + failed;
      index := index + 1;
    }
    RenewEnds(databases, index, deadline, clock, answers);
  }

  /** The databases among the first `n` from `k` whose call failed, in order. */
  function FailedCalls(databases: seq<string>, k: nat, n: nat, answers: nat -> bool): seq<string>
    requires k <= n <= |databases|
    decreases n - k
  {
    if k == n then [] else (if answers(k) then [] else [databases[k]]) + FailedCalls(databases, k + 1, n, answers)
  }

  /** The failures are the failed calls, in order, followed by every database never attempted; and a
      database goes unattempted only once the deadline has passed. */
  lemma {:induction false} FailuresExactly(
      databases: seq<string>, k: nat, deadline: real, clock: nat -> real, answers: nat -> bool)
    requires k <= |databases|
    ensures var r := RenewFrom(databases, k, deadline, clock, answers); var n := k + |r.timeouts|;
      n <= |databases| && r.failures == FailedCalls(databases, k, n, answers) + databases[n..] &&
      (n < |databases| ==> clock(n + 1) >= deadline)
    decreases |databases| - k
  {
    if k < |databases| && deadline - clock(k + 1) > 0.0 {
      FailuresExactly(databases, k + 1, deadline, clock, answers);
      var first := if answers(k) then [] else [databases[k]];
      RenewStep(databases, k, deadline, clock, answers, first);
      var r := RenewFrom(databases, k, deadline, clock, answers);
      var n := k + |r.timeouts|;
      Regroup(first, FailedCalls(databases, k + 1, n, answers), databases[n..], r.failures);
    }
  }

  lemma MulOrdered(a: real, b: real, c: real)
    requires a <= b && c >= 0.0
    ensures a * c <= b * c
  {
  }

  lemma DividePositive(a: real, b: real)
    requires a > 0.0 && b > 0.0
    ensures a / b > 0.0
  {
    var q := a / b;
    assert q * b == a;
    if q <= 0.0 { MulOrdered(q, 0.0, b); }
  }

  /** Each call takes at most its timeout, and nothing else takes time. */
  ghost predicate CallsAreTimed(databases: seq<string>, clock: nat -> real) {
    clock(1) == clock(0) &&
    forall k: nat :: k < |databases| ==> CallIsTimed(databases, clock, k)
  }

  ghost predicate CallIsTimed(databases: seq<string>, clock: nat -> real, k: nat)
    requires k < |databases|
  {
    var remaining := clock(0) + 45.0 - clock(k + 1);
    remaining > 0.0 ==> 0.0 <= clock(k + 2) - clock(k + 1) <= Share(remaining, |databases| - k)
  }

  lemma ShareKeepsRate(remaining: real, spent: real, left: nat, rate: real)
    requires left > 0 && rate >= 0.0 && remaining >= rate * left as real
    requires spent <= remaining / left as real
    ensures remaining - spent >= rate * (left - 1) as real
  {
    var per, n := remaining / left as real, left as real;
    ShareBeatsRate(remaining, left, rate);
    Distribute(n, 1.0, per);
    assert remaining - per == per * (n - 1.0);
    MulOrdered(rate, per, n - 1.0);
  }

  lemma Distribute(a: real, b: real, c: real)
    ensures (a - b) * c == a * c - b * c
  {
  }

  lemma ShareBeatsRate(remaining: real, left: nat, rate: real)
    requires left > 0 && remaining >= rate * left as real
    ensures remaining / left as real >= rate
    ensures remaining / left as real * left as real == remaining
  {
    var per, n := remaining / left as real, left as real;
    assert per * n == remaining;
    Distribute(rate, per, n);
    if per < rate { MulOrdered(1.0, n, rate - per); }
  }

  lemma ShareAtLeast(remaining: real, left: nat, rate: real)
    requires left > 0 && remaining >= rate * left as real
    ensures Share(remaining, left) >= MinReal(10.0, rate)
  {
    ShareBeatsRate(remaining, left, rate);
  }

  lemma {:induction false} NoStarvationFrom(
      databases: seq<string>, k: nat, clock: nat -> real, answers: nat -> bool, rate: real)
    requires CallsAreTimed(databases, clock) && k <= |databases| && rate > 0.0
    requires clock(0) + 45.0 - clock(k + 1) >= rate * (|databases| - k) as real
    ensures var r := RenewFrom(databases, k, clock(0) + 45.0, clock, answers);
      |r.timeouts| == |databases| - k && forall j :: 0 <= j < |r.timeouts| ==> r.timeouts[j] >= MinReal(10.0, rate)
    ensures clock(|databases| + 1) <= clock(0) + 45.0
    decreases |databases| - k
  {
    hide RenewFrom;
    if k < |databases| {
      var remaining, left := clock(0) + 45.0 - clock(k + 1), |databases| - k;
      MulOrdered(1.0, left as real, rate);
      assert CallIsTimed(databases, clock, k);
      ShareKeepsRate(remaining, clock(k + 2) - clock(k + 1), left, rate);
      ShareAtLeast(remaining, left, rate);
      NoStarvationFrom(databases, k + 1, clock, answers, rate);
      RenewStep(databases, k, clock(0) + 45.0, clock, answers, if answers(k) then [] else [databases[k]]);
    } else {
      RenewEnds(databases, k, clock(0) + 45.0, clock, answers);
    }
  }

  /** Renewal starves no database: every one of n is called, with a timeout of at least
      min(10, 45 / n) seconds, and all calls together end within 45 seconds. */
  lemma RenewNeverStarves(databases: seq<string>, clock: nat -> real, answers: nat -> bool)
    requires databases != [] && CallsAreTimed(databases, clock)
    ensures var r := Renew(databases, clock, answers);
      |r.timeouts| == |databases| &&
      forall k :: 0 <= k < |databases| ==> r.timeouts[k] >= MinReal(10.0, 45.0 / |databases| as real)
    ensures clock(|databases| + 1) - clock(0) <= 45.0
    ensures Renew(databases, clock, answers).failures == FailedCalls(databases, 0, |databases|, answers)
  {
    var n := |databases| as real;
    assert 45.0 / n * n == 45.0;
    assert 45.0 / n > 0.0 by { DividePositive(45.0, n); }
    NoStarvationFrom(databases, 0, clock, answers, 45.0 / n);
    FailuresExactly(databases, 0, clock(0) + 45.0, clock, answers);
  }

  /** With unique names no database is reported twice, and one is reported exactly when its call failed
      or it was never attempted. */
  lemma ReportedOnce(databases: seq<string>, clock: nat -> real, answers: nat -> bool, k: nat)
    requires NoDup(databases) && k < |databases|
    ensures var r := Renew(databases, clock, answers);
      databases[k] in r.failures <==> k >= |r.timeouts| || !answers(k)
    ensures NoDup(Renew(databases, clock, answers).failures)
  {
    hide RenewFrom, FailedCalls;
    var r := Renew(databases, clock, answers);
    FailuresExactly(databases, 0, clock(0) + 45.0, clock, answers);
    var n := |r.timeouts|;
    FailedCallsMembers(databases, 0, n, answers, databases[k]);
    assert databases[k] in databases[n..] <==> k >= n by {
      if k >= n { assert databases[n..][k - n] == databases[k]; }
    }
    FailuresAreOnce(databases, n, answers);
  }

  lemma FailuresAreOnce(databases: seq<string>, n: nat, answers: nat -> bool)
    requires NoDup(databases) && n <= |databases|
    ensures NoDup(FailedCalls(databases, 0, n, answers) + databases[n..])
  {
    hide FailedCalls;
    var failed := FailedCalls(databases, 0, n, answers);
    FailedCallsOnce(databases, 0, n, answers);
    forall i, j | 0 <= i < |failed| && n <= j < |databases| ensures failed[i] != databases[j] {
      FailedCallsMembers(databases, 0, n, answers, failed[i]);
    }
    AppendNoDup(failed, databases[n..]);
  }

  lemma AppendNoDup<T>(a: seq<T>, b: seq<T>)
    requires NoDup(a) && NoDup(b)
    requires forall i, j :: 0 <= i < |a| && 0 <= j < |b| ==> a[i] != b[j]
    ensures NoDup(a + b)
  {
  }

  lemma {:induction false} FailedCallsMembers(databases: seq<string>, k: nat, n: nat, answers: nat -> bool, x: string)
    requires k <= n <= |databases|
    ensures x in FailedCalls(databases, k, n, answers) <==> exists j :: k <= j < n && databases[j] == x && !answers(j)
    decreases n - k
  {
    if k < n {
      FailedCallsMembers(databases, k + 1, n, answers, x);
      var rest := FailedCalls(databases, k + 1, n, answers);
      assert FailedCalls(databases, k, n, answers) == if answers(k) then rest else [databases[k]] + rest;
      hide FailedCalls;
      assert x in FailedCalls(databases, k, n, answers) <==> (databases[k] == x && !answers(k)) || x in rest;
    }
  }

  lemma {:induction false} FailedCallsOnce(databases: seq<string>, k: nat, n: nat, answers: nat -> bool)
    requires NoDup(databases) && k <= n <= |databases|
    ensures NoDup(FailedCalls(databases, k, n, answers))
    decreases n - k
  {
    if k < n {
      FailedCallsOnce(databases, k + 1, n, answers);
      var rest := FailedCalls(databases, k + 1, n, answers);
      FailedCallsMembers(databases, k + 1, n, answers, databases[k]);
      assert forall j :: 0 <= j < |rest| ==> rest[j] in rest;
    }
  }

  // ---- how much time a call gets ----

  /** A call gets 10 seconds, or an equal share of what is left if that is less. */
  ghost predicate FairShare(timeout: real, remaining: real, left: nat) {
    && remaining > 0.0 && timeout <= 10.0 && timeout * left as real <= remaining
    && (timeout == 10.0 || timeout * left as real == remaining)
  }

  lemma ShareIsFair(remaining: real, left: nat)
    requires remaining > 0.0 && left > 0
    ensures FairShare(Share(remaining, left), remaining, left)
  {
    var per, n := remaining / left as real, left as real;
    assert per * n == remaining;
    if per > 10.0 {
      MulOrdered(10.0, per, n);
    }
  }

  lemma {:induction false} TimesFrom(
      databases: seq<string>, k: nat, deadline: real, clock: nat -> real, answers: nat -> bool, j: nat)
    requires k <= |databases| && k <= j < k + |RenewFrom(databases, k, deadline, clock, answers).timeouts|
    ensures j < |databases|
    ensures var r := RenewFrom(databases, k, deadline, clock, answers);
      FairShare(r.timeouts[j - k], deadline - clock(j + 1), |databases| - j)
    decreases |databases| - k
  {
    hide Share, FairShare;
    if j == k {
      ShareIsFair(deadline - clock(k + 1), |databases| - k);
    } else {
      TimesFrom(databases, k + 1, deadline, clock, answers, j);
    }
  }

  /** The calls of a renewal are those of a prefix of the databases; each gets its fair share of what is left
      of the 45 seconds when it is made, and a call is left out only once they are over. */
  lemma RenewTimes(databases: seq<string>, clock: nat -> real, answers: nat -> bool)
    ensures var timeouts := Renew(databases, clock, answers).timeouts;
      && |timeouts| <= |databases|
      && (forall j :: 0 <= j < |timeouts| ==>
            FairShare(timeouts[j], clock(0) + 45.0 - clock(j + 1), |databases| - j))
      && (|timeouts| < |databases| ==> clock(|timeouts| + 1) >= clock(0) + 45.0)
  {
    hide RenewFrom, FairShare;
    FailuresExactly(databases, 0, clock(0) + 45.0, clock, answers);
    var timeouts := Renew(databases, clock, answers).timeouts;
    forall j | 0 <= j < |timeouts|
      ensures FairShare(timeouts[j], clock(0) + 45.0 - clock(j + 1), |databases| - j)
    {
      TimesFrom(databases, 0, clock(0) + 45.0, clock, answers, j);
    }
  }
}
