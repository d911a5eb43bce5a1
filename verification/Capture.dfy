/** Routine diagnostic captures (deploy/lyracore-capture.py): a bounded recorder of command output, a
    pruner of finished captures, and the admission check that keeps the capture root within 2 GiB. */
module Capture {
  import opened Text

  const TOTAL_BYTES: nat := 2 * 1024 * 1024 * 1024
  const CAPTURE_BYTES: nat := 256 * 1024 * 1024
  const RESERVE: nat := 131072
  const TAIL_BYTES: nat := 65536
  const MAX_AGE := 604800.0

  // ---- recording one stream ----

  function First(s: string, n: nat): string { if |s| <= n then s else s[..n] }

  function Last(s: string, n: nat): string { if |s| <= n then s else s[|s| - n..] }

  lemma FirstOfMore(s: string, chunk: string, n: nat)
    ensures First(s + chunk, n) == First(s, n) + First(chunk, n - |First(s, n)|)
  {
  }

  lemma LastOfMore(s: string, chunk: string, n: nat)
    ensures Last(Last(s, n) + chunk, n) == Last(s + chunk, n)
  {
  }

  /** The read loop of `capture`. The stored output is the first `limit` bytes of everything read, the
      tail its last 64 KiB, and the two counters add up to its length. */
  method Record(limit: nat, chunks: seq<string>) returns (output: string, tail: string, saved: nat, omitted: nat)
    ensures output == First(Concat(chunks), limit) && saved == |output|
    ensures tail == Last(Concat(chunks), TAIL_BYTES)
    ensures saved + omitted == |Concat(chunks)|
  {
    output, tail, saved, omitted := "", "", 0, 0;
    for k := 0 to |chunks|
      invariant output == First(Concat(chunks[..k]), limit) && saved == |output|
      invariant tail == Last(Concat(chunks[..k]), TAIL_BYTES)
      invariant saved + omitted == |Concat(chunks[..k])|
    {
      ConcatOneMore(chunks, k);
      var chunk := chunks[k];
      FirstOfMore(Concat(chunks[..k]), chunk, limit);
      LastOfMore(Concat(chunks[..k]), chunk, TAIL_BYTES);
      var keep := First(chunk, limit - saved);
      output := output + keep;
      saved := saved + |keep|;
      omitted := omitted + |chunk| - |keep|;
      tail := Last(tail + chunk, TAIL_BYTES);
    }
    assert chunks[..|chunks|] == chunks;
  }

  // ---- the capture root ----

  /** A directory of the root. `finished` is the time in a valid completion record, if it has one;
      `top` counts the files directly inside, `all` every file below it. `rank` is its path's place in
      path order, so it also names the directory. */
  datatype Dir = Dir(rank: nat, finished: Option<real>, top: nat, all: nat)

  function Used(dirs: seq<Dir>): nat {
    if dirs == [] then 0 else dirs[0].all + Used(dirs[1..])
  }

  function Counted(captures: seq<Dir>): nat {
    if captures == [] then 0 else captures[0].top + Counted(captures[1..])
  }

  /** Python's order on the triples `(finished, size, path)`. */
  predicate Before(a: Dir, b: Dir)
    requires a.finished.Some? && b.finished.Some?
  {
    a.finished.value < b.finished.value ||
    (a.finished.value == b.finished.value && (a.top < b.top || (a.top == b.top && a.rank <= b.rank)))
  }

  ghost predicate Ordered(captures: seq<Dir>) {
    captures == [] || (
      && captures[0].finished.Some?
      && (forall c :: c in captures[1..] ==> c.finished.Some? && Before(captures[0], c))
      && Ordered(captures[1..]))
  }

  function Insert(d: Dir, captures: seq<Dir>): (r: seq<Dir>)
    requires d.finished.Some? && Ordered(captures)
    ensures Ordered(r)
    ensures forall c :: c in r <==> c == d || c in captures
    ensures multiset(r) == multiset(captures) + multiset{d}
  {
    if captures == [] then [d]
    else
      assert captures == [captures[0]] + captures[1..];
      if Before(d, captures[0]) then
        assert ([d] + captures)[1..] == captures;
        [d] + captures
      else
        var rest := Insert(d, captures[1..]);
        assert ([captures[0]] + rest)[1..] == rest;
        [captures[0]] + rest
  }

  /** `retained`: the directories with a valid completion record, oldest first. */
  function Retained(dirs: seq<Dir>): (r: seq<Dir>)
    ensures Ordered(r)
    ensures forall d :: d in r <==> d in dirs && d.finished.Some?
  {
    if dirs == [] then []
    else if dirs[0].finished.Some? then Insert(dirs[0], Retained(dirs[1..]))
    else Retained(dirs[1..])
  }

  // ---- pruning ----

  predicate Young(c: Dir, now: real) { c.finished.Some? && now - c.finished.value <= MAX_AGE }

  /** Captures that may all stay: none too old, and together within the budget. */
  predicate Fits(captures: seq<Dir>, now: real, budget: nat) {
    (forall c :: c in captures ==> Young(c, now)) && Counted(captures) <= budget
  }

  /** How many of the oldest captures must go: as few as possible. */
  function Cutoff(captures: seq<Dir>, now: real, budget: nat): (k: nat)
    ensures k <= |captures|
    ensures Fits(captures[k..], now, budget)
    ensures forall j :: 0 <= j < k ==> !Fits(captures[j..], now, budget)
  {
    if captures == [] || Fits(captures, now, budget) then 0
    else
      var k := 1 + Cutoff(captures[1..], now, budget);
      assert captures[k..] == captures[1..][k - 1..];
      assert forall j :: 1 <= j < k ==> captures[j..] == captures[1..][j - 1..];
      k
  }

  lemma OldestDecides(captures: seq<Dir>, now: real, budget: nat)
    requires Ordered(captures) && captures != []
    ensures Fits(captures, now, budget) <==> Young(captures[0], now) && Counted(captures) <= budget
  {
    if Young(captures[0], now) {
      assert captures == [captures[0]] + captures[1..];
    }
  }

  lemma {:induction false} SuffixOrdered(captures: seq<Dir>, k: nat)
    requires Ordered(captures) && k <= |captures|
    ensures Ordered(captures[k..])
  {
    if k > 0 {
      assert captures[1..][k - 1..] == captures[k..];
      SuffixOrdered(captures[1..], k - 1);
    } else {
      assert captures[0..] == captures;
    }
  }

  /** The deletion loop of `prune`: it removes exactly the captures before the cutoff, so what it keeps
      is the longest newest suffix that is young enough and fits the budget. */
  method Expire(captures: seq<Dir>, now: real, budget: nat) returns (removed: seq<Dir>, total: nat)
    requires Ordered(captures)
    ensures removed == captures[..Cutoff(captures, now, budget)]
    ensures total == Counted(captures[Cutoff(captures, now, budget)..])
  {
    hide Fits, Ordered, Counted, Young, Cutoff;
    removed, total := [], Counted(captures);
    ghost var cut: nat := 0;
    assert captures[0..] == captures;
    for k := 0 to |captures|
      invariant cut <= k && removed == captures[..cut]
      invariant total == Counted(captures[cut..])
      invariant cut < k ==> Fits(captures[cut..], now, budget)
      invariant forall j :: 0 <= j < cut ==> !Fits(captures[j..], now, budget)
    {
      if cut == k {
        ExpireStep(captures, k, now, budget);
      } else {
        FitsMeans(captures[cut..], now, budget, k - cut);
      }
      if !Young(captures[k], now) || total > budget {
        removed := removed + [captures[k]];
        total := total - captures[k].top;
        cut := cut + 1;
      }
    }
    CutoffUnique(captures, now, budget, cut);
  }

  /** While everything older has gone, the oldest one left decides whether the rest fits. */
  lemma ExpireStep(captures: seq<Dir>, k: nat, now: real, budget: nat)
    requires Ordered(captures) && k < |captures|
    ensures Fits(captures[k..], now, budget) <==> Young(captures[k], now) && Counted(captures[k..]) <= budget
    ensures Counted(captures[k..]) == captures[k].top + Counted(captures[k + 1..])
  {
    hide Fits, Young;
    SuffixOrdered(captures, k);
    OldestDecides(captures[k..], now, budget);
    assert captures[k..][0] == captures[k] && captures[k..][1..] == captures[k + 1..];
  }

  lemma FitsMeans(captures: seq<Dir>, now: real, budget: nat, j: nat)
    requires Fits(captures, now, budget) && j < |captures|
    ensures Young(captures[j], now) && Counted(captures) <= budget
  {
  }

  lemma CutoffUnique(captures: seq<Dir>, now: real, budget: nat, k: nat)
    requires k <= |captures|
    requires k < |captures| ==> Fits(captures[k..], now, budget)
    requires forall j :: 0 <= j < k ==> !Fits(captures[j..], now, budget)
    ensures Cutoff(captures, now, budget) == k
  {
    if k == |captures| { assert captures[k..] == []; }
  }

  function Without(dirs: seq<Dir>, gone: seq<Dir>): (r: seq<Dir>)
    ensures forall d :: d in r <==> d in dirs && d !in gone
    ensures Used(r) <= Used(dirs)
  {
    if dirs == [] then []
    else if dirs[0] in gone then Without(dirs[1..], gone)
    else [dirs[0]] + Without(dirs[1..], gone)
  }

  function Expired(dirs: seq<Dir>, now: real, budget: nat): seq<Dir> {
    var captures := Retained(dirs);
    captures[..Cutoff(captures, now, budget)]
  }

  function Pruned(dirs: seq<Dir>, now: real, budget: nat): (r: seq<Dir>)
    ensures Used(r) <= Used(dirs)
  {
    Without(dirs, Expired(dirs, now, budget))
  }

  /** Pruning only ever deletes finished captures. */
  lemma PruneKeepsTheRest(dirs: seq<Dir>, now: real, budget: nat, d: Dir)
    requires d in dirs && d.finished.None?
    ensures d in Pruned(dirs, now, budget)
  {
    assert forall c :: c in Expired(dirs, now, budget) ==> c in Retained(dirs);
  }

  // ---- whole runs ----

  predicate ValidName(name: string) {
    && 1 <= |name| <= 101 && (IsAlpha(name[0]) || IsDigit(name[0]))
    && forall k :: 1 <= k < |name| ==> IsWordByte(name[k]) || name[k] == '.' || name[k] == '-'
  }

  /** One invocation: a prune, or a capture of a command that wrote `chunks` before it ended or timed
      out. `completion` is the size of the completion record, or None when an exception stopped the
      script before writing it. */
  datatype Invocation =
    | PruneOnly(now: real)
    | Capture(now: real, name: string, rank: nat, chunks: seq<string>, completion: Option<nat>, later: real)

  /** The directory a capture leaves behind. */
  function Recorded(c: Invocation): (d: Dir)
    requires c.Capture?
    ensures c.completion.Some? && c.completion.value <= 65536 ==> d.all <= CAPTURE_BYTES + RESERVE
    ensures c.completion.None? ==> d.all <= CAPTURE_BYTES + RESERVE
  {
    var stream := Concat(c.chunks);
    var logs := |First(stream, CAPTURE_BYTES)| + if |stream| > CAPTURE_BYTES then |Last(stream, TAIL_BYTES)| else 0;
    match c.completion
    case None => Dir(c.rank, None, logs, logs)
    case Some(size) => Dir(c.rank, Some(c.later), logs + size, logs + size)
  }

  predicate Admitted(dirs: seq<Dir>, c: Invocation)
    requires c.Capture?
  {
    && Used(dirs) + CAPTURE_BYTES + RESERVE <= TOTAL_BYTES
    && ValidName(c.name) && forall d :: d in dirs ==> d.rank != c.rank
  }

  /** The root when it is fullest: after the recording, before the closing prune. */
  function AtPeak(dirs: seq<Dir>, c: Invocation): seq<Dir> {
    if c.PruneOnly? then Pruned(dirs, c.now, TOTAL_BYTES)
    else
      var room := Pruned(dirs, c.now, TOTAL_BYTES - CAPTURE_BYTES - RESERVE);
      if Admitted(room, c) then [Recorded(c)] + room else room
  }

  function AfterOne(dirs: seq<Dir>, c: Invocation): seq<Dir> {
    var peak := AtPeak(dirs, c);
    if c.Capture? && c.completion.Some? && Admitted(Pruned(dirs, c.now, TOTAL_BYTES - CAPTURE_BYTES - RESERVE), c)
    then Pruned(peak, c.later, TOTAL_BYTES) else peak
  }

  class Root {
    var dirs: seq<Dir>

    constructor ()
      ensures dirs == []
    {
      dirs := [];
    }

    method Prune(now: real, budget: nat) returns (total: nat)
      modifies this
      ensures dirs == Pruned(old(dirs), now, budget)
      ensures total <= budget
    {
      var captures := Retained(dirs);
      var removed;
      removed, total := Expire(captures, now, budget);
      dirs := Without(dirs, removed);
    }

    /** `capture`: the logs of one command, and its completion record unless an exception intervened. */
    method Keep(c: Invocation) returns (d: Dir)
      requires c.Capture?
      ensures d == Recorded(c)
    {
      var output, tail, saved, omitted := Record(CAPTURE_BYTES, c.chunks);
      var logs := |output| + if omitted > 0 then |tail| else 0;
      match c.completion
      case None => d := Dir(c.rank, None, logs, logs);
      case Some(size) => d := Dir(c.rank, Some(c.later), logs + size, logs + size);
    }

    method Invoke(c: Invocation) returns (recorded: bool)
      modifies this
      ensures dirs == AfterOne(old(dirs), c)
      ensures recorded <==> c.Capture? && Admitted(Pruned(old(dirs), c.now, TOTAL_BYTES - CAPTURE_BYTES - RESERVE), c)
    {
      var budget := if c.PruneOnly? then TOTAL_BYTES else TOTAL_BYTES - CAPTURE_BYTES - RESERVE;
      var total := Prune(c.now, budget);
      if c.PruneOnly? || !Admitted(dirs, c) {
        return false;
      }
      var d := Keep(c);
      dirs := [d] + dirs;
      if c.completion.Some? {
        total := Prune(c.later, TOTAL_BYTES);
      }
      return true;
    }
  }

  function AfterAll(start: seq<Dir>, runs: seq<Invocation>): seq<Dir> {
    if runs == [] then start else AfterOne(AfterAll(start, runs[..|runs| - 1]), runs[|runs| - 1])
  }

  ghost predicate SmallRecord(c: Invocation) {
    c.Capture? && c.completion.Some? ==> c.completion.value <= 65536
  }

  lemma PeakWithinQuota(dirs: seq<Dir>, c: Invocation)
    requires Used(dirs) <= TOTAL_BYTES && SmallRecord(c)
    ensures Used(AtPeak(dirs, c)) <= TOTAL_BYTES && Used(AfterOne(dirs, c)) <= TOTAL_BYTES
  {
    if c.Capture? {
      var room := Pruned(dirs, c.now, TOTAL_BYTES - CAPTURE_BYTES - RESERVE);
      assert Admitted(room, c) ==> Used([Recorded(c)] + room) == Recorded(c).all + Used(room);
    }
  }

  /** No sequence of captures, timeouts, failures and prunes ever takes the root over 2 GiB, not even
      between the recording and the prune that follows it. */
  lemma {:induction false} QuotaHolds(start: seq<Dir>, runs: seq<Invocation>)
    requires Used(start) <= 2147483648
    requires forall c :: c in runs ==> SmallRecord(c)
    ensures Used(AfterAll(start, runs)) <= 2147483648
    ensures runs != [] ==> Used(AtPeak(AfterAll(start, runs[..|runs| - 1]), runs[|runs| - 1])) <= 2147483648
  {
    if runs != [] {
      QuotaHolds(start, runs[..|runs| - 1]);
      PeakWithinQuota(AfterAll(start, runs[..|runs| - 1]), runs[|runs| - 1]);
    }
  }

  // ---- what pruning keeps ----

  predicate DistinctRanks(dirs: seq<Dir>) { forall i, j :: 0 <= i < j < |dirs| ==> dirs[i].rank != dirs[j].rank }

  /** The captures that are no older than `d`: those that finished later, or at the same time and are larger, or
      are as large and come later by name, and `d` itself. */
  predicate NoOlder(d: Dir, c: Dir) {
    && d.finished.Some? && c.finished.Some?
    && (c.finished.value > d.finished.value ||
        (c.finished.value == d.finished.value && (c.top > d.top || (c.top == d.top && c.rank >= d.rank))))
  }

  /** The bytes of the finished captures no older than `d`, in any order of the directories. */
  function NewerBytes(dirs: seq<Dir>, d: Dir): nat {
    if dirs == [] then 0 else (if NoOlder(d, dirs[0]) then dirs[0].top else 0) + NewerBytes(dirs[1..], d)
  }

  lemma {:induction false} NewerInsert(x: Dir, captures: seq<Dir>, d: Dir)
    requires x.finished.Some? && Ordered(captures)
    ensures NewerBytes(Insert(x, captures), d) == (if NoOlder(d, x) then x.top else 0) + NewerBytes(captures, d)
  {
    hide NoOlder;
    if captures == [] || Before(x, captures[0]) {
      assert ([x] + captures)[1..] == captures;
    } else {
      assert captures == [captures[0]] + captures[1..];
      NewerInsert(x, captures[1..], d);
      assert ([captures[0]] + Insert(x, captures[1..]))[1..] == Insert(x, captures[1..]);
    }
  }

  lemma {:induction false} NewerRetained(dirs: seq<Dir>, d: Dir)
    ensures NewerBytes(Retained(dirs), d) == NewerBytes(dirs, d)
  {
    hide Insert;
    if dirs != [] {
      NewerRetained(dirs[1..], d);
      if dirs[0].finished.Some? {
        NewerInsert(dirs[0], Retained(dirs[1..]), d);
      }
    }
  }

  /** Oldest first, what is no older than capture `k` is the suffix that starts with it. */
  lemma {:induction false} NewerIsSuffix(captures: seq<Dir>, k: nat)
    requires Ordered(captures) && k < |captures| && DistinctRanks(captures)
    ensures NewerBytes(captures, captures[k]) == Counted(captures[k..])
  {
    var rest := captures[1..];
    assert captures == [captures[0]] + rest;
    assert forall j :: 0 <= j < |rest| ==> rest[j] == captures[j + 1];
    if k == 0 {
      AllNewer(rest, captures[0]);
      assert captures[0..] == captures;
    } else {
      NewerIsSuffix(rest, k - 1);
      assert rest[k - 1..] == captures[k..];
      assert Before(captures[0], rest[k - 1]) && captures[0].rank != captures[k].rank;
    }
  }

  lemma {:induction false} AllNewer(captures: seq<Dir>, d: Dir)
    requires d.finished.Some? && forall c :: c in captures ==> c.finished.Some? && Before(d, c)
    ensures NewerBytes(captures, d) == Counted(captures)
  {
    if captures != [] {
      assert captures == [captures[0]] + captures[1..];
      AllNewer(captures[1..], d);
    }
  }

  lemma {:induction false} RetainedDistinct(dirs: seq<Dir>)
    requires DistinctRanks(dirs)
    ensures DistinctRanks(Retained(dirs))
  {
    if dirs != [] {
      RetainedDistinct(dirs[1..]);
      if dirs[0].finished.Some? {
        forall c | c in Retained(dirs[1..]) ensures c.rank != dirs[0].rank {
          var j :| 0 <= j < |dirs[1..]| && dirs[1..][j] == c;
          assert dirs[j + 1] == c;
        }
        InsertDistinct(dirs[0], Retained(dirs[1..]));
      }
    }
  }

  lemma {:induction false} InsertDistinct(d: Dir, captures: seq<Dir>)
    requires d.finished.Some? && Ordered(captures) && DistinctRanks(captures)
    requires forall c :: c in captures ==> c.rank != d.rank
    ensures DistinctRanks(Insert(d, captures))
  {
    if captures != [] && !Before(d, captures[0]) {
      var rest := captures[1..];
      assert captures == [captures[0]] + rest;
      InsertDistinct(d, rest);
      forall c | c in Insert(d, rest) ensures c.rank != captures[0].rank {
        if c != d {
          var j :| 0 <= j < |rest| && rest[j] == c;
          assert captures[j + 1] == c;
        }
      }
      var all := Insert(d, rest);
      assert forall j :: 0 <= j < |all| ==> all[j] in all;
    }
  }

  /** A finished capture may stay when it ended at most a week ago and, with everything no older, takes up no
      more than the budget. */
  predicate MayStay(dirs: seq<Dir>, now: real, budget: nat, d: Dir) {
    d.finished.Some? && now - d.finished.value <= 604800.0 && NewerBytes(dirs, d) <= budget
  }

  lemma FitsExactly(captures: seq<Dir>, now: real, budget: nat, k: nat)
    requires Ordered(captures) && DistinctRanks(captures) && k < |captures|
    ensures Fits(captures[k..], now, budget) <==> MayStay(captures, now, budget, captures[k])
  {
    SuffixOrdered(captures, k);
    OldestDecides(captures[k..], now, budget);
    NewerIsSuffix(captures, k);
  }

  lemma {:induction false} LaterFits(captures: seq<Dir>, now: real, budget: nat, j: nat, k: nat)
    requires j <= k <= |captures| && Fits(captures[j..], now, budget)
    ensures Fits(captures[k..], now, budget)
    decreases k - j
  {
    if j < k {
      assert captures[j..][1..] == captures[j + 1..];
      assert forall c :: c in captures[j + 1..] ==> c in captures[j..];
      LaterFits(captures, now, budget, j + 1, k);
    }
  }

  lemma ExpiredExactly(dirs: seq<Dir>, now: real, budget: nat, d: Dir)
    requires DistinctRanks(dirs) && d in dirs && d.finished.Some?
    ensures d in Expired(dirs, now, budget) <==> !MayStay(dirs, now, budget, d)
  {
    hide Fits, Ordered, Counted, MayStay;
    var captures := Retained(dirs);
    var cut := Cutoff(captures, now, budget);
    RetainedDistinct(dirs);
    var k :| 0 <= k < |captures| && captures[k] == d;
    FitsExactly(captures, now, budget, k);
    SameStay(captures, dirs, now, budget, d);
    if k >= cut {
      LaterFits(captures, now, budget, cut, k);
      assert forall j :: 0 <= j < cut ==> captures[j].rank != captures[k].rank;
    } else {
      assert captures[..cut][k] == d;
    }
  }

  lemma SameStay(captures: seq<Dir>, dirs: seq<Dir>, now: real, budget: nat, d: Dir)
    requires captures == Retained(dirs)
    ensures MayStay(captures, now, budget, d) <==> MayStay(dirs, now, budget, d)
  {
    NewerRetained(dirs, d);
  }

  /** What pruning keeps, capture by capture and without sorting: every directory that is not a finished
      capture, and exactly the captures that may stay. */
  lemma PruneKeepsExactly(dirs: seq<Dir>, now: real, budget: nat, d: Dir)
    requires DistinctRanks(dirs) && d in dirs
    ensures d in Pruned(dirs, now, budget) <==> d.finished.None? || MayStay(dirs, now, budget, d)
  {
    hide Expired, MayStay;
    if d.finished.Some? {
      ExpiredExactly(dirs, now, budget, d);
    } else {
      PruneKeepsTheRest(dirs, now, budget, d);
    }
  }

  // ---- what a capture is, and when it is made ----

  lemma EndsOfStream(s: string, n: nat)
    ensures First(s, n) <= s && |First(s, n)| == if |s| < n then |s| else n
    ensures |Last(s, n)| == (if |s| < n then |s| else n) && Last(s, n) == s[|s| - |Last(s, n)|..]
  {
  }

  lemma {:induction false} UsedConcat(a: seq<Dir>, b: seq<Dir>)
    ensures Used(a + b) == Used(a) + Used(b)
    ensures forall d: Dir :: Used([d]) == d.all
  {
    forall d: Dir ensures Used([d]) == d.all {
      assert [d][1..] == [];
    }
    if a == [] {
      assert a + b == b;
    } else {
      UsedConcat(a[1..], b);
      assert (a + b)[1..] == a[1..] + b;
    }
  }

  /** The directory of a capture: the first 256 MiB of the output, its last 64 KiB if that was not all, and the
      completion record, with the time of it, unless an exception came first. */
  lemma RecordedIs(c: Invocation)
    requires c.Capture?
    ensures var n, d := |Concat(c.chunks)|, Recorded(c);
      && d.rank == c.rank && d.finished == (if c.completion.Some? then Some(c.later) else None)
      && d.all == d.top == (if n <= 268435456 then n else 268435456 + 65536) +
                           (if c.completion.Some? then c.completion.value else 0)
  {
  }

  predicate NameStart(c: char) { 'a' <= c <= 'z' || 'A' <= c <= 'Z' || '0' <= c <= '9' }

  /** A capture is made exactly when 256 MiB and 128 KiB fit into the 2 GiB beside all that is there, and its name
      is new and simple. */
  lemma AdmittedMeans(dirs: seq<Dir>, c: Invocation)
    requires c.Capture?
    ensures Admitted(dirs, c) <==>
      && Used(dirs) + 268435456 + 131072 <= 2147483648
      && 1 <= |c.name| <= 101 && NameStart(c.name[0])
      && (forall k :: 0 <= k < |c.name| ==> NameStart(c.name[k]) || c.name[k] in ".-_")
      && (forall d :: d in dirs ==> d.rank != c.rank)
  {
  }

  /** One invocation on a root: pruned to 2 GiB, or, for a capture, to what leaves room for it; then the capture
      beside what was kept, and, once it is complete, pruned to 2 GiB again. */
  lemma InvocationMeans(dirs: seq<Dir>, c: Invocation)
    ensures c.PruneOnly? ==> AfterOne(dirs, c) == AtPeak(dirs, c) == Pruned(dirs, c.now, 2147483648)
    ensures c.Capture? ==>
      var room := Pruned(dirs, c.now, 2147483648 - 268435456 - 131072);
      if !Admitted(room, c) then AfterOne(dirs, c) == AtPeak(dirs, c) == room
      else
        && AtPeak(dirs, c) == [Recorded(c)] + room
        && AfterOne(dirs, c) ==
           if c.completion.None? then [Recorded(c)] + room else Pruned([Recorded(c)] + room, c.later, 2147483648)
  {
    hide Pruned, Admitted, Recorded;
  }

  /** A history is its invocations, one after the other. */
  lemma OneMoreInvocation(start: seq<Dir>, runs: seq<Invocation>, c: Invocation)
    ensures AfterAll(start, []) == start
    ensures AfterAll(start, runs + [c]) == AfterOne(AfterAll(start, runs), c)
  {
    hide AfterOne;
    assert (runs + [c])[..|runs|] == runs;
  }
}
