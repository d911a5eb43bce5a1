/** The bounded log display (src/cmd/logs.rs): the last 100 lines, read from at most the last 64 KiB. */
module LogTail {
  const MAX_BYTES: nat := 64 * 1024
  const MAX_LINES: nat := 100

  /** The content without one terminating newline. */
  function Body(s: string): (n: nat)
    ensures n <= |s| && (n < |s| ==> n == |s| - 1)
  {
    if s != [] && s[|s| - 1] == '\n' then |s| - 1 else |s|
  }

  /** Where the last `n` lines of `s[..end]` start: just after the `n`-th newline from the end, or 0. */
  function LinesStart(s: string, end: nat, n: nat): (p: nat)
    requires end <= |s| && n > 0
    ensures p <= end && (p > 0 ==> s[p - 1] == '\n')
  {
    if end == 0 then 0
    else if s[end - 1] == '\n' then if n == 1 then end else LinesStart(s, end - 1, n - 1)
    else LinesStart(s, end - 1, n)
  }

  /** The last 100 lines of a file, however long. */
  function LastLines(s: string): string { s[LinesStart(s, Body(s), MAX_LINES)..] }

  function FirstNewline(s: string, i: nat, end: nat): (k: nat)
    requires i <= end <= |s|
    ensures i <= k <= end
    ensures k < end ==> s[k] == '\n'
    ensures forall j :: i <= j < k ==> s[j] != '\n'
    decreases end - i
  {
    if i == end || s[i] == '\n' then i else FirstNewline(s, i + 1, end)
  }

  /** Where display starts inside the window `bytes`; `cut` says the window is not the whole file. */
  function DisplayStart(bytes: string, cut: bool): (p: nat)
    ensures p <= |bytes|
  {
    var end := Body(bytes);
    var start := LinesStart(bytes, end, MAX_LINES);
    if cut && start == 0 then
      var k := FirstNewline(bytes, 0, end);
      if k < end then k + 1 else 0
    else start
  }

  function Offset(s: string): nat { if |s| > MAX_BYTES then |s| - MAX_BYTES else 0 }

  datatype Shown = Empty | Shown(notice: bool, text: string)

  function Display(s: string): Shown {
    if s == [] then Empty
    else
      var window := s[Offset(s)..];
      var start := DisplayStart(window, Offset(s) > 0);
      Shown(Offset(s) > 0 || start > 0, window[start..])
  }

  /** The newline just before the last 100 lines, counted from the end. */
  method CountBack(bytes: string, end: nat) returns (start: nat)
    requires end <= |bytes|
    ensures start == LinesStart(bytes, end, MAX_LINES)
  {
    var seen := 0;
    start := end;
    while start > 0 && (seen < MAX_LINES - 1 || bytes[start - 1] != '\n')
      invariant 0 <= start <= end && 0 <= seen < MAX_LINES
      invariant LinesStart(bytes, start, MAX_LINES - seen) == LinesStart(bytes, end, MAX_LINES)
    {
      if bytes[start - 1] == '\n' {
        seen := seen + 1;
      }
      start := start - 1;
    }
  }

  method Position(bytes: string, end: nat) returns (k: nat)
    requires end <= |bytes|
    ensures k == FirstNewline(bytes, 0, end)
  {
    k := 0;
    while k < end && bytes[k] != '\n'
      invariant 0 <= k <= end
      invariant FirstNewline(bytes, k, end) == FirstNewline(bytes, 0, end)
    {
      k := k + 1;
    }
  }

  lemma NothingToShow()
    ensures Display("") == Empty
  {
  }

  method Show(file: string, all: bool) returns (out: Shown)
    ensures all && file != [] ==> out == Shown(false, file)
    ensures !all || file == [] ==> out == Display(file)
  {
    hide Display, LinesStart, FirstNewline, LastLines;
    if |file| == 0 {
      NothingToShow();
      return Empty;
    }
    if all {
      return Shown(false, file);
    }
    var offset := if |file| > MAX_BYTES then |file| - MAX_BYTES else 0;
    var bytes := file[offset..];
    var end := |bytes| - if bytes[|bytes| - 1] == '\n' then 1 else 0;
    var start := CountBack(bytes, end);
    if offset > 0 && start == 0 {
      var k := Position(bytes, end);
      start := if k < end then k + 1 else 0;
    }
    DisplayIs(file, start);
    return Shown(offset > 0 || start > 0, bytes[start..]);
  }

  lemma DisplayIs(file: string, start: nat)
    requires file != [] && start == DisplayStart(file[Offset(file)..], Offset(file) > 0)
    ensures Display(file) == Shown(Offset(file) > 0 || start > 0, file[Offset(file)..][start..])
  {
    hide DisplayStart;
  }

  // ---- what is shown ----

  /** Newlines in `s[i..end]`. */
  function Newlines(s: string, i: nat, end: nat): nat
    requires i <= end <= |s|
    decreases end - i
  {
    if i == end then 0 else Newlines(s, i, end - 1) + if s[end - 1] == '\n' then 1 else 0
  }

  /** `LinesStart` is the only line start with exactly `n` lines after it, if there are that many. */
  lemma {:induction false} LinesStartCounts(s: string, end: nat, n: nat)
    requires end <= |s| && n > 0
    ensures LinesStart(s, end, n) > 0 ==> Newlines(s, LinesStart(s, end, n), end) == n - 1
    ensures LinesStart(s, end, n) == 0 ==> Newlines(s, 0, end) < n
    decreases end
  {
    if end > 0 {
      if s[end - 1] == '\n' {
        if n > 1 {
          LinesStartCounts(s, end - 1, n - 1);
        }
      } else {
        LinesStartCounts(s, end - 1, n);
      }
    }
  }

  /** Looking at a window instead of the whole text finds the same start, when it lies past the edge. */
  lemma {:induction false} WindowStart(s: string, offset: nat, end: nat, n: nat)
    requires offset <= end <= |s| && n > 0
    ensures var inWindow, whole := LinesStart(s[offset..], end - offset, n), LinesStart(s, end, n);
      if whole > offset then offset + inWindow == whole else inWindow == 0
    decreases end
  {
    if end > offset {
      assert s[offset..][end - 1 - offset] == s[end - 1];
      if s[end - 1] == '\n' {
        if n > 1 {
          WindowStart(s, offset, end - 1, n - 1);
        }
      } else {
        WindowStart(s, offset, end - 1, n);
      }
    }
  }

  lemma {:induction false} NewlinesSplit(s: string, i: nat, j: nat, end: nat)
    requires i <= j <= end <= |s|
    ensures Newlines(s, i, end) == Newlines(s, i, j) + Newlines(s, j, end)
    decreases end - j
  {
    if j < end {
      NewlinesSplit(s, i, j, end - 1);
    }
  }

  lemma {:induction false} NoNewlines(s: string, i: nat, end: nat)
    requires i <= end <= |s| && forall k :: i <= k < end ==> s[k] != '\n'
    ensures Newlines(s, i, end) == 0
    decreases end - i
  {
    if i < end {
      NoNewlines(s, i, end - 1);
    }
  }

  /** The position in the file where the display starts. */
  function ShownFrom(s: string): (p: nat)
    ensures p <= |s|
  {
    Offset(s) + DisplayStart(s[Offset(s)..], Offset(s) > 0)
  }

  lemma BodyOfWindow(s: string)
    requires s != []
    ensures Body(s[Offset(s)..]) == Body(s) - Offset(s) && Offset(s) <= Body(s)
  {
    assert s[Offset(s)..][|s| - Offset(s) - 1] == s[|s| - 1];
  }

  lemma {:induction false} WindowNewline(s: string, o: nat, i: nat, end: nat)
    requires o <= i <= end <= |s|
    ensures o + FirstNewline(s[o..], i - o, end - o) == FirstNewline(s, i, end)
    decreases end - i
  {
    if i < end && s[i] != '\n' {
      WindowNewline(s, o, i + 1, end);
    }
  }

  /** Where the display starts, in terms of the whole file. */
  lemma ShownFromIs(s: string)
    requires s != []
    ensures Offset(s) <= Body(s)
    ensures var o, end := Offset(s), Body(s); var whole, k := LinesStart(s, end, MAX_LINES), FirstNewline(s, o, end);
      ShownFrom(s) == if whole > o then whole else if o > 0 && k < end then k + 1 else o
  {
    var o, end := Offset(s), Body(s);
    BodyOfWindow(s);
    WindowStart(s, o, end, MAX_LINES);
    WindowNewline(s, o, o, end);
  }

  lemma SuffixOfSuffix(s: string, i: nat, j: nat)
    requires i + j <= |s|
    ensures s[i..][j..] == s[i + j..]
  {
  }

  lemma DisplayText(s: string)
    requires s != []
    ensures Display(s).Shown? && Display(s).text == s[ShownFrom(s)..]
    ensures |Display(s).text| == |s| - ShownFrom(s)
  {
    var o := Offset(s);
    var start := DisplayStart(s[o..], o > 0);
    assert Display(s) == Shown(o > 0 || start > 0, s[o..][start..]);
    SuffixOfSuffix(s, o, start);
  }

  lemma FewNewlinesAhead(s: string, i: nat, end: nat)
    requires i <= end <= |s| && LinesStart(s, end, MAX_LINES) <= i
    ensures Newlines(s, i, end) < MAX_LINES
  {
    LinesStartCounts(s, end, MAX_LINES);
    NewlinesSplit(s, LinesStart(s, end, MAX_LINES), i, end);
  }

  /** For every non-empty file the display is a suffix of at most 65536 bytes; with the closing newline
      set aside it has at most 100 lines; and it starts at a line boundary unless the window has no
      newline before its last byte. */
  lemma DisplayIsBounded(s: string)
    requires s != []
    ensures Display(s).Shown? && Display(s).text == s[ShownFrom(s)..]
    ensures |Display(s).text| <= MAX_BYTES
    ensures ShownFrom(s) <= Body(s) && Newlines(s, ShownFrom(s), Body(s)) < MAX_LINES
    ensures ShownFrom(s) == 0 || s[ShownFrom(s) - 1] == '\n' ||
      (ShownFrom(s) == Offset(s) && forall k :: Offset(s) <= k < Body(s) ==> s[k] != '\n')
  {
    hide Display, Newlines, LinesStart, ShownFrom;
    DisplayText(s);
    ShownFromIs(s);
    var p, o := ShownFrom(s), Offset(s);
    FewNewlinesAhead(s, p, Body(s));
  }

  /** The display is exactly the last 100 lines (or the whole file) when the file fits the window or
      the newline before those lines lies inside it, and in no other case: a run of 100 lines that
      starts exactly at the window's edge loses its first line. */
  lemma DisplayIsLastLines(s: string)
    requires s != []
    ensures Display(s).text == LastLines(s) <==>
      |s| <= MAX_BYTES || LinesStart(s, Body(s), MAX_LINES) > Offset(s)
  {
    DisplayText(s);
    ShownFromIs(s);
    var o, end := Offset(s), Body(s);
    assert Display(s).text == LastLines(s) <==> ShownFrom(s) == LinesStart(s, end, MAX_LINES);
    if 0 < o == LinesStart(s, end, MAX_LINES) {
      LinesStartCounts(s, end, MAX_LINES);
      if FirstNewline(s, o, end) == end {
        NoNewlines(s, o, end);
      }
    }
  }

  /** `LastLines` is the whole file exactly when the file has at most 100 lines. */
  lemma LastLinesWhole(s: string)
    ensures LastLines(s) == s <==> Newlines(s, 0, Body(s)) < MAX_LINES
  {
    LinesStartCounts(s, Body(s), MAX_LINES);
    var p := LinesStart(s, Body(s), MAX_LINES);
    assert |LastLines(s)| == |s| - p && s[0..] == s;
    if p > 0 {
      NewlinesSplit(s, 0, p, Body(s));
      NewlinesSplit(s, 0, p - 1, p);
      assert Newlines(s, p - 1, p) == 1;
    }
  }

  // ---- 100 lines that start at the edge of the window ----

  function Repeat(c: char, n: nat): (r: string)
    ensures |r| == n && forall k :: 0 <= k < n ==> r[k] == c
  {
    seq(n, _ => c)
  }

  /** An empty line, then exactly 64 KiB: one long line and 99 empty ones. */
  function EdgeFile(): (s: string)
    ensures |s| == 65537
    ensures forall k :: 0 <= k < |s| ==> s[k] == if 1 <= k <= 65436 then 'x' else '\n'
  {
    Repeat('\n', 1) + Repeat('x', 65436) + Repeat('\n', 100)
  }

  lemma {:induction false} OverNewlines(s: string, end: nat, k: nat, n: nat)
    requires k <= end <= |s| && k < n && forall j :: end - k <= j < end ==> s[j] == '\n'
    ensures LinesStart(s, end, n) == LinesStart(s, end - k, n - k)
    decreases k
  {
    if k > 0 {
      OverNewlines(s, end - 1, k - 1, n - 1);
    }
  }

  lemma {:induction false} OverLine(s: string, end: nat, p: nat, n: nat)
    requires p <= end <= |s| && n > 0 && forall j :: p <= j < end ==> s[j] != '\n'
    ensures LinesStart(s, end, n) == LinesStart(s, p, n)
    decreases end - p
  {
    if p < end {
      OverLine(s, end - 1, p, n);
    }
  }

  lemma {:induction false} FirstNewlineIs(s: string, i: nat, k: nat, end: nat)
    requires i <= k < end <= |s| && s[k] == '\n' && forall j :: i <= j < k ==> s[j] != '\n'
    ensures FirstNewline(s, i, end) == k
    decreases k - i
  {
    if i < k {
      FirstNewlineIs(s, i + 1, k, end);
    }
  }

  /** The last 100 lines start exactly at the window, and the long one of them is not shown. */
  lemma EdgeLosesALine()
    ensures var s := EdgeFile();
      && LinesStart(s, Body(s), MAX_LINES) == Offset(s) == 1
      && |LastLines(s)| == 65536 && |Display(s).text| == 99 && Display(s).text != LastLines(s)
  {
    hide EdgeFile, LinesStart, Display, ShownFrom, FirstNewline;
    var s := EdgeFile();
    OverNewlines(s, 65536, 99, MAX_LINES);
    OverLine(s, 65437, 1, 1);
    EmptyLineBefore(s);
    FirstNewlineIs(s, 1, 65437, 65536);
    ShownFromIs(s);
    DisplayText(s);
    assert |LastLines(s)| == 65536;
  }

  lemma EmptyLineBefore(s: string)
    requires s != [] && s[0] == '\n'
    ensures LinesStart(s, 1, 1) == 1
  {
  }
}
