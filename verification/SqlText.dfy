/** The byte scanners of the SQL filter validator (src/rls.rs): the tokenizer, the string-literal
    blanker and the parameter blanker, with the span-alignment theorem that relates the tokens of a
    blanked text to the tokens of the original. */
module SqlText {
  import opened Text

  datatype Word = Word(start: nat, end: nat)

  // ---- tokens ----

  /** A maximal run of word bytes. */
  ghost predicate IsRun(t: string, a: nat, b: nat) {
    && a < b <= |t|
    && (forall k :: a <= k < b ==> IsWordByte(t[k]))
    && (a == 0 || !IsWordByte(t[a - 1]))
    && (b == |t| || !IsWordByte(t[b]))
  }

  function RunEnd(t: string, i: nat): (e: nat)
    requires i <= |t|
    ensures i <= e <= |t|
    ensures forall k :: i <= k < e ==> IsWordByte(t[k])
    ensures e == |t| || !IsWordByte(t[e])
    decreases |t| - i
  {
    if i < |t| && IsWordByte(t[i]) then RunEnd(t, i + 1) else i
  }

  function WordsFrom(t: string, i: nat): (ws: seq<Word>)
    requires i <= |t|
    ensures forall k :: 0 <= k < |ws| ==> i <= ws[k].start < ws[k].end <= |t|
    decreases |t| - i
  {
    if i == |t| then []
    else if IsWordByte(t[i]) then [Word(i, RunEnd(t, i))] + WordsFrom(t, RunEnd(t, i))
    else WordsFrom(t, i + 1)
  }

  function Words(t: string): seq<Word> { WordsFrom(t, 0) }

  function WordText(t: string, w: Word): string
    requires w.start <= w.end <= |t|
  {
    t[w.start..w.end]
  }

  /** A scanner position that is not strictly inside a run. */
  predicate Boundary(t: string, p: nat) {
    p == 0 || p >= |t| || !IsWordByte(t[p - 1]) || !IsWordByte(t[p])
  }

  /** The tokenizer yields exactly the maximal runs, in increasing order. */
  lemma {:induction false} WordsExact(t: string, i: nat)
    requires i <= |t| && Boundary(t, i)
    ensures forall a: nat, b: nat :: Word(a, b) in WordsFrom(t, i) <==> i <= a && IsRun(t, a, b)
    ensures forall j, k :: 0 <= j < k < |WordsFrom(t, i)| ==> WordsFrom(t, i)[j].end < WordsFrom(t, i)[k].start
    decreases |t| - i
  {
    if i == |t| {
      assert forall a: nat, b: nat :: i <= a ==> !IsRun(t, a, b);
    } else if IsWordByte(t[i]) {
      var e := RunEnd(t, i);
      OneRun(t, i, e);
      WordsExact(t, e);
      FirstWord(t, i, e);
    } else {
      WordsExact(t, i + 1);
      assert forall b: nat :: !IsRun(t, i, b);
    }
  }

  /** From a boundary on, the first run is the one that starts there. */
  lemma OneRun(t: string, i: nat, e: nat)
    requires i < |t| && Boundary(t, i) && IsWordByte(t[i]) && e == RunEnd(t, i)
    ensures i < e <= |t| && Boundary(t, e)
    ensures forall a: nat, b: nat :: i <= a && IsRun(t, a, b) <==> (a == i && b == e) || (e <= a && IsRun(t, a, b))
    ensures forall b: nat :: !IsRun(t, e, b)
  {
    forall a: nat, b: nat | i <= a < e && IsRun(t, a, b) ensures a == i && b == e {
      assert a == i;
    }
  }

  lemma FirstWord(t: string, i: nat, e: nat)
    requires i < |t| && IsWordByte(t[i]) && e == RunEnd(t, i) && i < e
    requires forall a: nat, b: nat :: i <= a && IsRun(t, a, b) <==> (a == i && b == e) || (e <= a && IsRun(t, a, b))
    requires forall b: nat :: !IsRun(t, e, b)
    requires forall a: nat, b: nat :: Word(a, b) in WordsFrom(t, e) <==> e <= a && IsRun(t, a, b)
    requires forall j, k :: 0 <= j < k < |WordsFrom(t, e)| ==> WordsFrom(t, e)[j].end < WordsFrom(t, e)[k].start
    ensures forall a: nat, b: nat :: Word(a, b) in WordsFrom(t, i) <==> i <= a && IsRun(t, a, b)
    ensures forall j, k :: 0 <= j < k < |WordsFrom(t, i)| ==> WordsFrom(t, i)[j].end < WordsFrom(t, i)[k].start
  {
    hide IsRun;
    var rest := WordsFrom(t, e);
    assert WordsFrom(t, i) == [Word(i, e)] + rest;
    forall k | 0 <= k < |rest| ensures e < rest[k].start {
      assert Word(rest[k].start, rest[k].end) in rest;
    }
    assert forall a: nat, b: nat :: Word(a, b) in WordsFrom(t, i) <==> Word(a, b) == Word(i, e) || Word(a, b) in rest;
  }

  method ScanWords(t: string) returns (out: seq<Word>)
    ensures out == Words(t)
  {
    out := [];
    var i := 0;
    while i < |t|
      invariant 0 <= i <= |t|
      invariant out + WordsFrom(t, i) == Words(t)
    {
      if IsWordByte(t[i]) {
        var start := i;
        ghost var e := RunEnd(t, i);
        while i < |t| && IsWordByte(t[i])
          invariant start <= i <= e
          invariant RunEnd(t, i) == e
        {
          i := i + 1;
        }
        assert out + WordsFrom(t, start) == (out + [Word(start, i)]) + WordsFrom(t, i);
        out := out + [Word(start, i)];
      } else {
        i := i + 1;
      }
    }
  }

  // ---- blanking spans ----

  method Blank(text: array<char>, start: nat, end: nat)
    requires start <= end <= text.Length
    modifies text
    ensures forall k :: 0 <= k < text.Length ==> text[k] == if start <= k < end then ' ' else old(text[k])
  {
    var i := start;
    while i < end
      invariant start <= i <= end
      invariant forall k :: 0 <= k < text.Length ==> text[k] == if start <= k < i then ' ' else old(text[k])
    {
      text[i] := ' ';
      i := i + 1;
    }
  }

  /** `m` is `t` with some tokens blanked whole: no separator turns into a word byte, and each token
      is either kept byte for byte or left with no word byte at all. */
  ghost predicate Aligned(t: string, m: string) {
    && |m| == |t|
    && (forall k :: 0 <= k < |t| && !IsWordByte(t[k]) ==> !IsWordByte(m[k]))
    && (forall a: nat, b: nat :: IsRun(t, a, b) ==>
          (forall k :: a <= k < b ==> m[k] == t[k]) || (forall k :: a <= k < b ==> !IsWordByte(m[k])))
  }

  /** The tokens of `ws` still readable in `m`. */
  function Kept(ws: seq<Word>, m: string): (r: seq<Word>)
    requires forall w :: w in ws ==> w.start < |m|
    ensures forall w :: w in r <==> w in ws && IsWordByte(m[w.start])
  {
    if ws == [] then []
    else if IsWordByte(m[ws[0].start]) then [ws[0]] + Kept(ws[1..], m)
    else Kept(ws[1..], m)
  }

  lemma {:induction false} SkipSeparators(m: string, i: nat, e: nat)
    requires i <= e <= |m|
    requires forall k :: i <= k < e ==> !IsWordByte(m[k])
    ensures WordsFrom(m, i) == WordsFrom(m, e)
    decreases e - i
  {
    if i < e {
      SkipSeparators(m, i + 1, e);
    }
  }

  lemma {:induction false} RunEndIs(m: string, i: nat, e: nat)
    requires i <= e <= |m|
    requires forall k :: i <= k < e ==> IsWordByte(m[k])
    requires e == |m| || !IsWordByte(m[e])
    ensures RunEnd(m, i) == e
    decreases e - i
  {
    if i < e {
      RunEndIs(m, i + 1, e);
    }
  }

  lemma AlignedRun(t: string, m: string, i: nat, e: nat)
    requires Aligned(t, m) && IsRun(t, i, e)
    ensures (forall k :: i <= k < e ==> m[k] == t[k]) || (forall k :: i <= k < e ==> !IsWordByte(m[k]))
    ensures |m| == |t| && (e < |m| ==> !IsWordByte(m[e]))
  {
  }

  lemma AlignedSeparator(t: string, m: string, i: nat)
    requires Aligned(t, m) && i < |t| && !IsWordByte(t[i])
    ensures |m| == |t| && !IsWordByte(m[i])
  {
  }

  lemma BlankedRun(t: string, m: string, i: nat, e: nat)
    requires |m| == |t| && i < e <= |t| && IsWordByte(t[i]) && RunEnd(t, i) == e
    requires e < |m| ==> !IsWordByte(m[e])
    requires (forall k :: i <= k < e ==> m[k] == t[k]) || (forall k :: i <= k < e ==> !IsWordByte(m[k]))
    requires WordsFrom(m, e) == Kept(WordsFrom(t, e), m)
    ensures WordsFrom(m, i) == Kept(WordsFrom(t, i), m)
  {
    var rest := WordsFrom(t, e);
    assert WordsFrom(t, i) == [Word(i, e)] + rest && ([Word(i, e)] + rest)[1..] == rest;
    if IsWordByte(m[i]) {
      RunEndIs(m, i, e);
      assert WordsFrom(m, i) == [Word(i, e)] + WordsFrom(m, e);
    } else {
      SkipSeparators(m, i, e);
    }
  }

  /** Span alignment: blanking whole tokens leaves exactly the uncovered tokens, in order. */
  lemma {:induction false} BlankedWords(t: string, m: string, i: nat)
    requires |m| == |t| && Aligned(t, m) && i <= |t| && Boundary(t, i)
    ensures WordsFrom(m, i) == Kept(WordsFrom(t, i), m)
    decreases |t| - i
  {
    hide Aligned;
    if i == |t| {
    } else if IsWordByte(t[i]) {
      var e := RunEnd(t, i);
      AlignedRun(t, m, i, e);
      BlankedWords(t, m, e);
      BlankedRun(t, m, i, e);
    } else {
      AlignedSeparator(t, m, i);
      BlankedWords(t, m, i + 1);
    }
  }

  // ---- string literals ----

  /** The position after the quote that closes the literal whose contents start (or continue) at
      `i`; a doubled quote is an escape. `None` when the literal never closes. */
  function CloseAt(s: string, i: nat): (r: Option<nat>)
    requires i <= |s|
    ensures r.Some? ==> i < r.value <= |s| && s[r.value - 1] == '\''
    ensures r.Some? && r.value < |s| ==> s[r.value] != '\''
    decreases |s| - i
  {
    if i == |s| then None
    else if s[i] == '\'' then
      if i + 1 < |s| && s[i + 1] == '\'' then CloseAt(s, i + 2) else Some(i + 1)
    else CloseAt(s, i + 1)
  }

  function Spaces(n: nat): (r: string) ensures |r| == n { seq(n, _ => ' ') }

  /** What blanking leaves from position `i`, a position outside every literal. */
  function BlankFrom(s: string, i: nat): (r: string)
    requires i <= |s|
    ensures |r| == |s| - i
    decreases |s| - i
  {
    if i == |s| then []
    else if s[i] != '\'' then [s[i]] + BlankFrom(s, i + 1)
    else match CloseAt(s, i + 1)
      case None => s[i..]
      case Some(e) => Spaces(e - i) + BlankFrom(s, e)
  }

  function BlankStrings(s: string): (r: string)
    ensures |r| == |s|
  {
    BlankFrom(s, 0)
  }

  /** The inner loop of the blanker: run to the closing quote, or off the end. */
  method SkipLiteral(sql: array<char>, from: nat) returns (close: Option<nat>)
    requires from <= sql.Length
    ensures close == CloseAt(sql[..], from)
  {
    var i := from;
    while i < sql.Length
      invariant from <= i <= sql.Length
      invariant CloseAt(sql[..], i) == CloseAt(sql[..], from)
    {
      if sql[i] == '\'' {
        if i + 1 < sql.Length && sql[i + 1] == '\'' {
          i := i + 2;
        } else {
          return Some(i + 1);
        }
      } else {
        i := i + 1;
      }
    }
    return None;
  }

  lemma {:induction false} CloseAtSuffix(s: string, r: string, i: nat)
    requires |s| == |r| && i <= |s|
    requires s[i..] == r[i..]
    ensures CloseAt(s, i) == CloseAt(r, i)
    decreases |s| - i
  {
    if i < |s| {
      assert s[i..][0] == r[i..][0];
      if i + 1 < |s| {
        assert s[i..][1] == r[i..][1];
        assert s[i + 2..] == s[i..][2..];
        CloseAtSuffix(s, r, i + 2);
      }
      assert s[i + 1..] == s[i..][1..];
      CloseAtSuffix(s, r, i + 1);
    }
  }

  /** One step of the blanker, read off the finished text `r`. */
  lemma BlankStep(s: string, r: string, i: nat)
    requires i < |s| == |r| && r[i..] == BlankFrom(s, i)
    ensures s[i] != '\'' ==> r[i] == s[i] && r[i + 1..] == BlankFrom(s, i + 1)
    ensures s[i] == '\'' && CloseAt(s, i + 1).None? ==> forall k :: i <= k < |s| ==> r[k] == s[k]
    ensures s[i] == '\'' && CloseAt(s, i + 1).Some? ==>
      var e := CloseAt(s, i + 1).value; r[e..] == BlankFrom(s, e) && forall k :: i <= k < e ==> r[k] == ' '
  {
    forall k | i <= k < |s| ensures r[k] == r[i..][k - i] {}
    if s[i] != '\'' {
      assert r[i + 1..] == r[i..][1..];
    } else if CloseAt(s, i + 1).Some? {
      var e := CloseAt(s, i + 1).value;
      assert r[e..] == r[i..][e - i..];
    }
  }

  method BlankSqlStrings(sql: array<char>)
    modifies sql
    ensures sql[..] == BlankStrings(old(sql[..]))
  {
    hide BlankFrom, CloseAt;
    ghost var s := sql[..];
    ghost var r := BlankStrings(s);
    var i := 0;
    while i < sql.Length
      invariant i <= sql.Length == |s|
      invariant r[i..] == BlankFrom(s, i)
      invariant forall k :: 0 <= k < i ==> sql[k] == r[k]
      invariant forall k :: i <= k < sql.Length ==> sql[k] == s[k]
    {
      BlankStep(s, r, i);
      if sql[i] != '\'' {
        i := i + 1;
      } else {
        var start := i;
        CloseAtSuffix(s, sql[..], i + 1);
        var close := SkipLiteral(sql, i + 1);
        if close.None? {
          return;
        }
        i := close.value;
        Blank(sql, start, i);
      }
    }
  }

  // ---- parameters ----

  predicate ParamStart(t: string, p: nat) {
    p + 1 < |t| && t[p] == ':' && IsIdentStart(t[p + 1])
  }

  /** Position `k` belongs to a `:parameter`: it opens one, or is a word byte continuing one. */
  ghost predicate InParameter(t: string, k: nat)
    requires k < |t|
  {
    ParamStart(t, k) || (k > 0 && IsWordByte(t[k]) && InParameter(t, k - 1))
  }

  /** A colon at `p` with a letter or an underscore behind it, and only letters, digits and underscores up to `k`. */
  ghost predicate Parameter(t: string, p: nat, k: nat) {
    && p <= k < |t| && p + 1 < |t| && t[p] == ':'
    && ('a' <= t[p + 1] <= 'z' || 'A' <= t[p + 1] <= 'Z' || t[p + 1] == '_')
    && forall j :: p < j <= k ==>
      'a' <= t[j] <= 'z' || 'A' <= t[j] <= 'Z' || '0' <= t[j] <= '9' || t[j] == '_'
  }

  lemma {:induction false} ParameterBytes(t: string, k: nat)
    requires k < |t|
    ensures InParameter(t, k) <==> exists p: nat :: Parameter(t, p, k)
  {
    if k > 0 {
      var before := k - 1;
      ParameterBytes(t, before);
      if IsWordByte(t[k]) {
        if p: nat :| Parameter(t, p, before) {
          assert Parameter(t, p, k);
        }
      }
    }
    if p: nat :| Parameter(t, p, k) {
      if p < k {
        assert Parameter(t, p, k - 1) && IsWordByte(t[k]);
      }
    }
    assert Parameter(t, k, k) <==> ParamStart(t, k);
  }

  ghost function BlankedParameters(t: string): (r: string)
    ensures |r| == |t|
    ensures forall k :: 0 <= k < |t| ==> r[k] == if InParameter(t, k) then ' ' else t[k]
  {
    seq(|t|, k requires 0 <= k < |t| => if InParameter(t, k) then ' ' else t[k])
  }

  lemma {:induction false} WholeParameter(t: string, p: nat, e: nat)
    requires ParamStart(t, p) && p < e <= |t|
    requires forall j :: p < j < e ==> IsWordByte(t[j])
    ensures forall k :: p <= k < e ==> InParameter(t, k)
  {
    if p + 1 < e {
      WholeParameter(t, p, e - 1);
    }
  }

  method SkipWord(sql: array<char>, from: nat) returns (e: nat)
    requires from <= sql.Length
    ensures from <= e <= sql.Length
    ensures forall k :: from <= k < e ==> IsWordByte(sql[k])
    ensures e == sql.Length || !IsWordByte(sql[e])
  {
    e := from;
    while e < sql.Length && IsWordByte(sql[e])
      invariant from <= e <= sql.Length
      invariant forall k :: from <= k < e ==> IsWordByte(sql[k])
    {
      e := e + 1;
    }
  }

  method BlankParameters(sql: array<char>)
    modifies sql
    ensures sql[..] == BlankedParameters(old(sql[..]))
  {
    ghost var t := sql[..];
    ghost var r := BlankedParameters(t);
    var i := 0;
    while i < sql.Length
      invariant i <= sql.Length == |t|
      invariant forall k :: 0 <= k < i ==> sql[k] == r[k]
      invariant forall k :: i <= k < sql.Length ==> sql[k] == t[k]
      invariant i < |t| && InParameter(t, i) ==> ParamStart(t, i)
    {
      var start := i;
      i := i + 1;
      if sql[start] == ':' && i < sql.Length && IsIdentStart(sql[i]) {
        i := SkipWord(sql, i);
        WholeParameter(t, start, i);
        Blank(sql, start, i);
      }
    }
  }
}
