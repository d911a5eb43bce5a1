/** Character classes shared by the text scanners. A `string` stands for the text a scanner reads:
    one element per byte where the program works on bytes, one per Unicode scalar where it works on
    `&str`. The byte scanners compare ASCII only; trimming and splitting at blanks, which the program does
    on `&str`, know the Unicode blanks too. */
module Text {
  datatype Option<+T> = None | Some(value: T)

  predicate IsAsciiSpace(c: char) {
    c == ' ' || c == '\t' || c == '\n' || c == '\r' || c == '\U{0C}'
  }

  predicate IsDigit(c: char) { '0' <= c <= '9' }

  predicate IsAlpha(c: char) { 'a' <= c <= 'z' || 'A' <= c <= 'Z' }

  /** `[A-Za-z0-9_]`. */
  predicate IsWordByte(c: char) { IsAlpha(c) || IsDigit(c) || c == '_' }

  predicate IsIdentStart(c: char) { IsAlpha(c) || c == '_' }

  function LowerChar(c: char): char {
    if 'A' <= c <= 'Z' then (c as int + 32) as char else c
  }

  function Lower(s: string): string { seq(|s|, i requires 0 <= i < |s| => LowerChar(s[i])) }

  /** `char::is_whitespace`: the Unicode White_Space property. */
  predicate IsSpace(c: char) {
    '\t' <= c <= '\r' || c == ' ' || c == '\U{85}' || c == '\U{A0}' || c == '\U{1680}' ||
    '\U{2000}' <= c <= '\U{200A}' || c == '\U{2028}' || c == '\U{2029}' || c == '\U{202F}' ||
    c == '\U{205F}' || c == '\U{3000}'
  }

  predicate AllSpace(s: string) { forall k :: 0 <= k < |s| ==> IsSpace(s[k]) }

  predicate NoSpace(s: string) { forall k :: 0 <= k < |s| ==> !IsSpace(s[k]) }

  /** `str::trim_end`. */
  function TrimEnd(s: string): (r: string)
    ensures |r| <= |s| && r == s[..|r|]
    ensures r == [] || !IsSpace(r[|r| - 1])
    ensures forall k :: |r| <= k < |s| ==> IsSpace(s[k])
  {
    if s != [] && IsSpace(s[|s| - 1]) then TrimEnd(s[..|s| - 1]) else s
  }

  /** `str::trim_start`. */
  function TrimStart(s: string): (r: string)
    ensures |r| <= |s| && r == s[|s| - |r|..]
    ensures r == [] || !IsSpace(r[0])
    ensures forall k :: 0 <= k < |s| - |r| ==> IsSpace(s[k])
  {
    if s != [] && IsSpace(s[0]) then TrimStart(s[1..]) else s
  }

  function Trim(s: string): (r: string) { TrimStart(TrimEnd(s)) }

  /** How many bytes a character has in UTF-8. */
  function CharBytes(c: char): nat {
    if c < '\U{80}' then 1 else if c < '\U{800}' then 2 else if c < '\U{10000}' then 3 else 4
  }

  /** `str::len`. */
  function ByteLen(s: string): (n: nat)
    ensures n >= |s|
  {
    if s == [] then 0 else CharBytes(s[0]) + ByteLen(s[1..])
  }

  predicate MatchesAt(s: string, at: nat, needle: string) {
    at + |needle| <= |s| && s[at..at + |needle|] == needle
  }

  /** `MatchesAt`, byte by byte. */
  lemma MatchesChars(s: string, at: nat, needle: string)
    ensures MatchesAt(s, at, needle) <==>
      at + |needle| <= |s| && forall j :: 0 <= j < |needle| ==> needle[j] == s[at + j]
  {
    if at + |needle| <= |s| {
      var part := s[at..at + |needle|];
      assert forall j :: 0 <= j < |needle| ==> part[j] == s[at + j];
      if forall j :: 0 <= j < |needle| ==> needle[j] == s[at + j] {
        assert part == needle;
      }
    }
  }

  predicate StartsWith(s: string, needle: string) { MatchesAt(s, 0, needle) }

  /** The first position at or after `from` where `needle` occurs: `str::find`. */
  function Find(s: string, needle: string, from: nat): (r: Option<nat>)
    requires from <= |s|
    ensures r.Some? ==> from <= r.value && MatchesAt(s, r.value, needle)
    ensures r.Some? ==> forall k :: from <= k < r.value ==> !MatchesAt(s, k, needle)
    ensures r.None? ==> forall k :: from <= k <= |s| ==> !MatchesAt(s, k, needle)
    decreases |s| - from
  {
    if MatchesAt(s, from, needle) then Some(from)
    else if from == |s| then None
    else Find(s, needle, from + 1)
  }

  /** The last position where `needle` occurs at or below `upto`: `str::rfind`. */
  function FindLast(s: string, needle: string, upto: nat): (r: Option<nat>)
    requires upto <= |s|
    ensures r.Some? ==> r.value <= upto && MatchesAt(s, r.value, needle)
    ensures r.Some? ==> forall k :: r.value < k <= upto ==> !MatchesAt(s, k, needle)
    ensures r.None? ==> forall k :: 0 <= k <= upto ==> !MatchesAt(s, k, needle)
  {
    if MatchesAt(s, upto, needle) then Some(upto)
    else if upto == 0 then None
    else FindLast(s, needle, upto - 1)
  }

  predicate Contains(s: string, needle: string) { Find(s, needle, 0).Some? }

  /** `t` is cut into three at `needle`. */
  ghost predicate Cuts(s: string, pre: string, needle: string, post: string) { s == pre + (needle + post) }

  lemma CutMatches(s: string, pre: string, needle: string, post: string)
    requires Cuts(s, pre, needle, post)
    ensures MatchesAt(s, |pre|, needle) && s[|pre| + |needle|..] == post && s[..|pre|] == pre
  {
    assert s[|pre|..] == needle + post;
    assert s[|pre|..|pre| + |needle|] == needle;
  }

  lemma MatchFits(s: string, at: nat, needle: string)
    requires MatchesAt(s, at, needle)
    ensures at + |needle| <= |s|
  {
  }

  lemma MatchCuts(s: string, at: nat, needle: string)
    requires MatchesAt(s, at, needle)
    ensures Cuts(s, s[..at], needle, s[at + |needle|..])
  {
  }

  /** What it is to contain a text. */
  lemma ContainsMeans(s: string, needle: string)
    ensures Contains(s, needle) <==> exists pre, post :: Cuts(s, pre, needle, post)
  {
    hide MatchesAt;
    if Contains(s, needle) {
      var at := Find(s, needle, 0).value;
      MatchFits(s, at, needle);
      MatchCuts(s, at, needle);
      assert Cuts(s, s[..at], needle, s[at + |needle|..]);
    }
    if pre, post :| Cuts(s, pre, needle, post) {
      CutMatches(s, pre, needle, post);
      CutLength(s, pre, needle, post);
      assert 0 <= |pre| <= |s| && MatchesAt(s, |pre|, needle);
    }
  }

  lemma CutLength(s: string, pre: string, needle: string, post: string)
    requires Cuts(s, pre, needle, post)
    ensures |s| == |pre| + |needle| + |post|
  {
  }

  predicate NoDup<T(==)>(s: seq<T>) {
    forall i, j :: 0 <= i < j < |s| ==> s[i] != s[j]
  }

  lemma IndexAppend<T>(a: seq<T>, b: seq<T>, k: nat)
    requires k < |a| + |b|
    ensures (a + b)[k] == if k < |a| then a[k] else b[k - |a|]
  {
  }

  /** Reassociating what is done, what comes next and what is left. */
  lemma Regroup<T>(a: seq<T>, b: seq<T>, c: seq<T>, all: seq<T>)
    requires a + (b + c) == all
    ensures (a + b) + c == all
  {
    assert a + (b + c) == (a + b) + c;
  }

  /** Moving the first element of what is left onto the end of what is done. */
  lemma MoveOne<T>(done: seq<T>, x: T, rest: seq<T>, all: seq<T>)
    requires done + ([x] + rest) == all
    ensures (done + [x]) + rest == all
  {
    assert (done + [x]) + rest == done + ([x] + rest);
  }

  function LineEnd(s: string, i: nat): (k: nat)
    requires i <= |s|
    ensures i <= k <= |s| && (k < |s| ==> s[k] == '\n')
    ensures forall j :: i <= j < k ==> s[j] != '\n'
    decreases |s| - i
  {
    if i == |s| || s[i] == '\n' then i else LineEnd(s, i + 1)
  }

  function DropCr(line: string): string {
    if line != [] && line[|line| - 1] == '\r' then line[..|line| - 1] else line
  }

  /** `str::lines`. */
  function Lines(s: string): seq<string>
    decreases |s|
  {
    if s == [] then []
    else
      var k := LineEnd(s, 0);
      if k == |s| then [s] else [DropCr(s[..k])] + Lines(s[k + 1..])
  }

  /** What the lines are: a line ends at a line feed, which is dropped with one carriage return before it; what stands
      behind the last line feed is a line unless it is empty. */
  lemma LinesUnfold(line: string, rest: string)
    requires '\n' !in line
    ensures Lines("") == [] && (line != "" ==> Lines(line) == [line])
    ensures Lines((line + "\r") + ("\n" + rest)) == [line] + Lines(rest)
    ensures (line == "" || line[|line| - 1] != '\r') ==> Lines(line + ("\n" + rest)) == [line] + Lines(rest)
  {
    hide LineEnd;
    if line != "" {
      assert LineEnd(line, 0) == |line|;
    }
    LineFeedCuts(line, rest);
    LineFeedCuts(line + "\r", rest);
    assert (line + "\r")[..|line|] == line;
  }

  lemma LineFeedCuts(line: string, rest: string)
    requires '\n' !in line
    ensures Lines(line + ("\n" + rest)) == [DropCr(line)] + Lines(rest)
  {
    hide LineEnd;
    var s := line + ("\n" + rest);
    LineEndIs(s, 0, |line|);
    assert s[..|line|] == line && s[|line| + 1..] == rest;
  }

  predicate WholeLines(a: string) { a == [] || a[|a| - 1] == '\n' }

  lemma {:induction false} LinesConcat(a: string, b: string)
    requires WholeLines(a)
    ensures Lines(a + b) == Lines(a) + Lines(b)
    decreases |a|
  {
    hide LineEnd, DropCr;
    if a == [] {
      assert a + b == b;
    } else {
      var k := LineEnd(a, 0);
      FirstLineIn(a, b, k);
      LinesConcat(a[k + 1..], b);
      Regroup([DropCr(a[..k])], Lines(a[k + 1..]), Lines(b), [DropCr(a[..k])] + (Lines(a[k + 1..]) + Lines(b)));
    }
  }

  lemma FirstLineIn(a: string, b: string, k: nat)
    requires a != [] && WholeLines(a) && k == LineEnd(a, 0)
    ensures k < |a| && LineEnd(a + b, 0) == k && WholeLines(a[k + 1..])
    ensures (a + b)[..k] == a[..k] && (a + b)[k + 1..] == a[k + 1..] + b
  {
    LineEndIs(a + b, 0, k);
  }

  lemma {:induction false} LineEndIs(s: string, i: nat, k: nat)
    requires i <= k < |s| && s[k] == '\n' && forall j :: i <= j < k ==> s[j] != '\n'
    ensures LineEnd(s, i) == k
    decreases k - i
  {
    if i < k {
      LineEndIs(s, i + 1, k);
    }
  }

  function Concat(parts: seq<string>): string {
    if parts == [] then "" else parts[0] + Concat(parts[1..])
  }

  lemma {:induction false} ConcatOneMore(parts: seq<string>, k: nat)
    requires k < |parts|
    ensures Concat(parts[..k + 1]) == Concat(parts[..k]) + parts[k]
  {
    if k == 0 {
      assert parts[..1] == [parts[0]] && [parts[0]][1..] == [] && parts[..0] == [];
    } else {
      ConcatOneMore(parts[1..], k - 1);
      assert parts[..k + 1][1..] == parts[1..][..k] && parts[..k][1..] == parts[1..][..k - 1];
    }
  }

  predicate Blanks(s: string) { forall k :: 0 <= k < |s| ==> IsAsciiSpace(s[k]) }

  /** The first position at or after `i` that holds no ASCII whitespace. */
  function SkipSpace(t: string, i: nat): (j: nat)
    ensures i <= j && (i <= |t| ==> j <= |t|)
    decreases |t| - i
  {
    if i < |t| && IsAsciiSpace(t[i]) then SkipSpace(t, i + 1) else i
  }

  lemma {:induction false} SkipSpaceIs(t: string, i: nat, j: nat)
    requires i <= j <= |t| && (forall k :: i <= k < j ==> IsAsciiSpace(t[k])) && (j == |t| || !IsAsciiSpace(t[j]))
    ensures SkipSpace(t, i) == j
    decreases j - i
  {
    if i < j {
      SkipSpaceIs(t, i + 1, j);
    }
  }

  lemma {:induction false} SkipSpaceStops(t: string, i: nat)
    requires i <= |t|
    ensures var j := SkipSpace(t, i);
      i <= j <= |t| && Blanks(t[i..j]) && (j == |t| || !IsAsciiSpace(t[j]))
    decreases |t| - i
  {
    var j := SkipSpace(t, i);
    if i < j {
      SkipSpaceStops(t, i + 1);
      assert t[i..j] == [t[i]] + t[i + 1..j];
    }
  }

  /** `str::split` on one character. */
  function Split(s: string, sep: char): (parts: seq<string>)
    ensures parts != []
  {
    if s == [] then [""]
    else
      var rest := Split(s[1..], sep);
      if s[0] == sep then [""] + rest else [[s[0]] + rest[0]] + rest[1..]
  }

  function JoinWith(parts: seq<string>, sep: char): string
    requires parts != []
  {
    if |parts| == 1 then parts[0] else parts[0] + [sep] + JoinWith(parts[1..], sep)
  }

  lemma {:induction false} SplitConcat(a: string, c: string, sep: char)
    ensures Split(a + [sep] + c, sep) == Split(a, sep) + Split(c, sep)
  {
    hide Split;
    SplitCons(a + [sep] + c, sep);
    SplitCons(a, sep);
    if a == [] {
      assert (a + [sep] + c)[1..] == c;
    } else {
      var all, rest, tail := a + [sep] + c, Split(a[1..], sep), Split(c, sep);
      SplitConcat(a[1..], c, sep);
      assert all[0] == a[0] && all[1..] == a[1..] + [sep] + c;
      if a[0] == sep {
        Regroup([""], rest, tail, [""] + (rest + tail));
      } else {
        assert (rest + tail)[0] == rest[0] && (rest + tail)[1..] == rest[1..] + tail;
        Regroup([[a[0]] + rest[0]], rest[1..], tail, [[a[0]] + rest[0]] + (rest[1..] + tail));
      }
    }
  }

  lemma SplitCons(s: string, sep: char)
    ensures s == [] ==> Split(s, sep) == [""]
    ensures s != [] && s[0] == sep ==> Split(s, sep) == [""] + Split(s[1..], sep)
    ensures s != [] && s[0] != sep ==>
      var rest := Split(s[1..], sep); Split(s, sep) == [[s[0]] + rest[0]] + rest[1..]
  {
  }

  lemma {:induction false} JoinHead(c: char, parts: seq<string>, sep: char)
    requires parts != []
    ensures JoinWith([[c] + parts[0]] + parts[1..], sep) == [c] + JoinWith(parts, sep)
  {
    var with := [[c] + parts[0]] + parts[1..];
    if |parts| > 1 {
      assert with[1..] == parts[1..];
    }
  }

  lemma {:induction false} JoinSplit(s: string, sep: char)
    ensures JoinWith(Split(s, sep), sep) == s
  {
    if s != [] {
      JoinSplit(s[1..], sep);
      var rest := Split(s[1..], sep);
      if s[0] == sep {
        assert ([""] + rest)[1..] == rest;
      } else {
        JoinHead(s[0], rest, sep);
      }
    }
  }

  lemma {:induction false} JoinConcat(a: seq<string>, b: seq<string>, sep: char)
    requires a != [] && b != []
    ensures JoinWith(a + b, sep) == JoinWith(a, sep) + [sep] + JoinWith(b, sep)
  {
    if |a| == 1 {
      assert (a + b)[1..] == b;
    } else {
      JoinConcat(a[1..], b, sep);
      assert (a + b)[1..] == a[1..] + b;
    }
  }

  lemma {:induction false} OnePiece(s: string, sep: char)
    requires sep !in s
    ensures Split(s, sep) == [s]
  {
    if s != [] {
      OnePiece(s[1..], sep);
      assert s == [s[0]] + s[1..] && s[0] in s;
    }
  }

  lemma {:induction false} SplitJoined(parts: seq<string>, sep: char)
    requires parts != [] && forall i :: 0 <= i < |parts| ==> sep !in parts[i]
    ensures Split(JoinWith(parts, sep), sep) == parts
  {
    hide Split;
    OnePiece(parts[0], sep);
    if |parts| > 1 {
      SplitJoined(parts[1..], sep);
      SplitConcat(parts[0], JoinWith(parts[1..], sep), sep);
    }
  }

  // ---- the character classes by their codes ----

  /** Letters A to Z, and only these, are made small. */
  lemma LowerMeans(s: string, k: nat)
    requires k < |s|
    ensures |Lower(s)| == |s|
    ensures 0x41 <= s[k] as int <= 0x5A ==> Lower(s)[k] as int == s[k] as int + 0x20
    ensures !(0x41 <= s[k] as int <= 0x5A) ==> Lower(s)[k] == s[k]
  {
  }

  lemma ClassesByCode(c: char)
    ensures IsDigit(c) <==> 0x30 <= c as int <= 0x39
    ensures IsAlpha(c) <==> 0x41 <= c as int <= 0x5A || 0x61 <= c as int <= 0x7A
    ensures IsWordByte(c) <==> IsDigit(c) || IsAlpha(c) || c as int == 0x5F
    ensures IsIdentStart(c) <==> IsWordByte(c) && !IsDigit(c)
    ensures IsAsciiSpace(c) <==> c as int in {0x09, 0x0A, 0x0C, 0x0D, 0x20}
    ensures IsSpace(c) <==>
      c as int in {0x09, 0x0A, 0x0B, 0x0C, 0x0D, 0x20, 0x85, 0xA0, 0x1680, 0x2000, 0x2001, 0x2002, 0x2003, 0x2004,
                   0x2005, 0x2006, 0x2007, 0x2008, 0x2009, 0x200A, 0x2028, 0x2029, 0x202F, 0x205F, 0x3000}
  {
  }

  /** The lengths of UTF-8. */
  lemma BytesByCode(s: string)
    ensures ByteLen("") == 0
    ensures s != "" ==>
      ByteLen(s) == ByteLen(s[1..]) +
        if s[0] as int <= 0x7F then 1 else if s[0] as int <= 0x7FF then 2 else if s[0] as int <= 0xFFFF then 3 else 4
  {
  }
}
