/** Reading a filter's SQL out of module source (src/rls.rs): the search for the `Filter::Sql(` call
    and the Rust string-literal decoder behind it. */
module RustLiteral {
  import opened Text

  // ---- the decoder ----

  function HashEnd(t: string, i: nat): (e: nat)
    requires i <= |t|
    ensures i <= e <= |t|
    ensures forall k :: i <= k < e ==> t[k] == '#'
    ensures e == |t| || t[e] != '#'
    decreases |t| - i
  {
    if i < |t| && t[i] == '#' then HashEnd(t, i + 1) else i
  }

  predicate AllHashes(s: string) { forall k :: 0 <= k < |s| ==> s[k] == '#' }

  /** The body of a raw literal opened by `hashes` hashes, read on from `i`. */
  function RawBody(t: string, start: nat, i: nat, hashes: nat): Option<string>
    requires start <= i <= |t|
    decreases |t| - i
  {
    if i == |t| then None
    else if t[i] == '"' then
      if i + 1 + hashes > |t| then None
      else if AllHashes(t[i + 1..i + 1 + hashes]) then Some(t[start..i])
      else RawBody(t, start, i + 1, hashes)
    else RawBody(t, start, i + 1, hashes)
  }

  function Unescape(c: char): char {
    match c
    case 'n' => '\n'
    case 'r' => '\r'
    case 't' => '\t'
    case '0' => '\0'
    case other => other
  }

  function QuotedBody(t: string, i: nat, out: string): Option<string>
    requires i <= |t|
    decreases |t| - i
  {
    if i == |t| then None
    else if t[i] == '"' then Some(out)
    else if t[i] == '\\' then
      if i + 1 == |t| then None else QuotedBody(t, i + 2, out + [Unescape(t[i + 1])])
    else QuotedBody(t, i + 1, out + [t[i]])
  }

  function Literal(t: string, at: nat): Option<string> {
    if at >= |t| then None
    else if t[at] == 'r' then
      var open := HashEnd(t, at + 1);
      if open == |t| || t[open] != '"' then None
      else RawBody(t, open + 1, open + 1, open - (at + 1))
    else if t[at] != '"' then None
    else QuotedBody(t, at + 1, "")
  }

  method RustStringLiteral(text: string, at: nat) returns (r: Option<string>)
    ensures r == Literal(text, at)
  {
    if at >= |text| {
      return None;
    }
    if text[at] == 'r' {
      var i := at + 1;
      while i < |text| && text[i] == '#'
        invariant at < i <= |text|
        invariant HashEnd(text, i) == HashEnd(text, at + 1)
      {
        i := i + 1;
      }
      var hashes := i - (at + 1);
      if i >= |text| || text[i] != '"' {
        return None;
      }
      i := i + 1;
      var bodyStart := i;
      while i < |text|
        invariant bodyStart <= i <= |text|
        invariant RawBody(text, bodyStart, i, hashes) == RawBody(text, bodyStart, bodyStart, hashes)
      {
        if text[i] == '"' {
          if i + 1 + hashes > |text| {
            return None;
          }
          if AllHashes(text[i + 1..i + 1 + hashes]) {
            return Some(text[bodyStart..i]);
          }
        }
        i := i + 1;
      }
      return None;
    }
    if text[at] != '"' {
      return None;
    }
    var i, out := at + 1, "";
    while i < |text|
      invariant at < i <= |text|
      invariant QuotedBody(text, i, out) == QuotedBody(text, at + 1, "")
    {
      if text[i] == '"' {
        return Some(out);
      } else if text[i] == '\\' {
        i := i + 1;
        if i >= |text| {
          return None;
        }
        out := out + [Unescape(text[i])];
        i := i + 1;
      } else {
        out := out + [text[i]];
        i := i + 1;
      }
    }
    return None;
  }

  // ---- the printer it undoes ----

  function Escape(c: char): string {
    match c
    case '"' => "\\\""
    case '\\' => "\\\\"
    case '\n' => "\\n"
    case '\r' => "\\r"
    case '\t' => "\\t"
    case '\0' => "\\0"
    case other => [other]
  }

  function EscapeAll(s: string): string {
    if s == [] then [] else Escape(s[0]) + EscapeAll(s[1..])
  }

  function Quoted(s: string): string { "\"" + EscapeAll(s) + "\"" }

  function Hashes(n: nat): (r: string) ensures |r| == n && AllHashes(r) { seq(n, _ => '#') }

  function Terminator(n: nat): string { "\"" + Hashes(n) }

  function Raw(n: nat, s: string): string { "r" + Hashes(n) + "\"" + s + Terminator(n) }

  lemma MatchSplit(t: string, at: nat, a: string, b: string)
    requires MatchesAt(t, at, a + b)
    ensures MatchesAt(t, at, a) && MatchesAt(t, at + |a|, b)
  {
    assert t[at..at + |a|] == (a + b)[..|a|];
    assert t[at + |a|..at + |a| + |b|] == (a + b)[|a|..];
  }

  lemma {:induction false} EscapedBody(t: string, i: nat, out: string, s: string)
    requires MatchesAt(t, i, EscapeAll(s) + "\"")
    ensures QuotedBody(t, i, out) == Some(out + s)
    decreases |s|
  {
    hide QuotedBody, Escape, MatchesAt;
    if s == [] {
      NothingEscaped(t, i, out);
      assert out + s == out;
    } else {
      var head := Escape(s[0]);
      assert EscapeAll(s) + "\"" == head + (EscapeAll(s[1..]) + "\"");
      MatchSplit(t, i, head, EscapeAll(s[1..]) + "\"");
      EscapedBody(t, i + |head|, out + [s[0]], s[1..]);
      EscapedChar(t, i, out, s[0]);
      assert (out + [s[0]]) + s[1..] == out + s;
    }
  }

  lemma NothingEscaped(t: string, i: nat, out: string)
    requires MatchesAt(t, i, EscapeAll("") + "\"")
    ensures QuotedBody(t, i, out) == Some(out)
  {
    assert t[i] == t[i..i + 1][0] == '"';
  }

  /** One escaped character is read back as itself. */
  lemma EscapedChar(t: string, i: nat, out: string, c: char)
    requires MatchesAt(t, i, Escape(c))
    ensures QuotedBody(t, i, out) == QuotedBody(t, i + |Escape(c)|, out + [c])
  {
    var head := Escape(c);
    assert t[i] == t[i..i + |head|][0] == head[0];
    if |head| == 2 {
      assert t[i + 1] == t[i..i + 2][1] == head[1];
      assert Unescape(head[1]) == c;
    }
  }

  /** Decoding undoes quoting, whatever surrounds the literal. */
  lemma DecodesQuoted(t: string, at: nat, s: string)
    requires MatchesAt(t, at, Quoted(s))
    ensures Literal(t, at) == Some(s)
  {
    assert Quoted(s) == "\"" + (EscapeAll(s) + "\"");
    MatchSplit(t, at, "\"", EscapeAll(s) + "\"");
    assert t[at] == t[at..at + 1][0] == '"';
    EscapedBody(t, at + 1, "", s);
    assert "" + s == s;
  }

  lemma {:induction false} HashRun(t: string, i: nat, n: nat)
    requires i + n < |t| && t[i + n] != '#'
    requires forall k :: i <= k < i + n ==> t[k] == '#'
    ensures HashEnd(t, i) == i + n
    decreases n
  {
    if n > 0 {
      HashRun(t, i + 1, n - 1);
    }
  }

  lemma RawBodyAt(t: string, i: nat, n: nat)
    requires i < |t|
    ensures t[i] == '"' && i + 1 + n <= |t| && AllHashes(t[i + 1..i + 1 + n]) <==> MatchesAt(t, i, Terminator(n))
  {
    if t[i] == '"' && i + 1 + n <= |t| && AllHashes(t[i + 1..i + 1 + n]) {
      assert t[i..i + 1 + n] == [t[i]] + t[i + 1..i + 1 + n];
      assert t[i + 1..i + 1 + n] == Hashes(n);
    }
    if MatchesAt(t, i, Terminator(n)) {
      assert t[i] == t[i..i + 1 + n][0] == '"';
      assert t[i + 1..i + 1 + n] == t[i..i + 1 + n][1..] == Hashes(n);
    }
  }

  /** The body ends at the first terminator at or after `i`. */
  lemma {:induction false} RawBodyEnds(t: string, start: nat, i: nat, n: nat, end: nat)
    requires start <= i <= end && MatchesAt(t, end, Terminator(n))
    requires forall k :: i <= k < end ==> !MatchesAt(t, k, Terminator(n))
    ensures RawBody(t, start, i, n) == Some(t[start..end])
    decreases end - i
  {
    RawBodyAt(t, i, n);
    if i < end {
      RawBodyEnds(t, start, i + 1, n, end);
    }
  }

  /** Inside a printed raw literal the terminator occurs where it occurs in the body, and at its end. */
  lemma TerminatorInside(t: string, start: nat, s: string, n: nat, k: nat)
    requires MatchesAt(t, start, s + Terminator(n)) && k < |s|
    ensures MatchesAt(t, start + k, Terminator(n)) <==> MatchesAt(s, k, Terminator(n))
  {
    var whole, end := s + Terminator(n), Terminator(n);
    MatchesChars(t, start, whole);
    MatchesChars(t, start + k, end);
    MatchesChars(s, k, end);
    assert forall j :: 0 <= j < |s| ==> whole[j] == s[j];
    assert whole[|s|] == '"';
    assert forall j :: 0 < j < |end| ==> end[j] == '#';
    if MatchesAt(t, start + k, end) && k + 1 + n > |s| {
      // The quote after the body would have to be one of the hashes.
      assert false;
    }
  }

  lemma RawOpens(t: string, at: nat, n: nat, s: string)
    requires MatchesAt(t, at, Raw(n, s))
    ensures MatchesAt(t, at + n + 2, s + Terminator(n))
    ensures Literal(t, at) == RawBody(t, at + n + 2, at + n + 2, n)
  {
    RawOpening(t, at, n, s);
    hide Raw, RawBody;
    HashRun(t, at + 1, n);
  }

  lemma RawOpening(t: string, at: nat, n: nat, s: string)
    requires MatchesAt(t, at, Raw(n, s))
    ensures at + n + 1 < |t| && t[at] == 'r' && t[at + n + 1] == '"'
    ensures forall k :: at + 1 <= k < at + 1 + n ==> t[k] == '#'
    ensures MatchesAt(t, at + n + 2, s + Terminator(n))
  {
    var open := "r" + Hashes(n) + "\"";
    assert Raw(n, s) == open + (s + Terminator(n));
    MatchSplit(t, at, open, s + Terminator(n));
    assert forall j :: 0 <= j < |open| ==> t[at + j] == t[at..at + |open|][j] == open[j];
    forall k | at + 1 <= k < at + 1 + n ensures t[k] == '#' {
      assert t[at + (k - at)] == open[k - at];
    }
    assert t[at + (n + 1)] == open[n + 1] == '"';
  }

  /** Where a raw literal's body really ends: at the first terminator in it, or at its end. */
  function BodyEnd(n: nat, s: string): (e: nat)
    ensures e <= |s|
    ensures e < |s| ==> MatchesAt(s, e, Terminator(n))
    ensures forall k: nat :: k < e ==> !MatchesAt(s, k, Terminator(n))
    ensures e == |s| <==> forall k: nat :: !MatchesAt(s, k, Terminator(n))
  {
    match Find(s, Terminator(n), 0)
    case None => |s|
    case Some(k) => k
  }

  lemma RawStopsAt(t: string, start: nat, n: nat, s: string)
    requires MatchesAt(t, start, s + Terminator(n))
    ensures RawBody(t, start, start, n) == Some(s[..BodyEnd(n, s)])
  {
    hide Terminator, RawBody, BodyEnd;
    var end := BodyEnd(n, s);
    MatchSplit(t, start, s, Terminator(n));
    forall k | start <= k < start + end ensures !MatchesAt(t, k, Terminator(n)) {
      TerminatorInside(t, start, s, n, k - start);
    }
    if end < |s| {
      TerminatorInside(t, start, s, n, end);
    }
    RawBodyEnds(t, start, start, n, start + end);
    assert t[start..start + end] == t[start..start + |s|][..end];
  }

  /** Decoding undoes raw printing exactly when the terminator does not occur in the body. */
  lemma DecodesRaw(t: string, at: nat, n: nat, s: string)
    requires MatchesAt(t, at, Raw(n, s))
    ensures Literal(t, at) == Some(s) <==> forall k: nat :: !MatchesAt(s, k, Terminator(n))
  {
    RawOpens(t, at, n, s);
    RawStopsAt(t, at + n + 2, n, s);
    assert |s[..BodyEnd(n, s)]| == BodyEnd(n, s) && s[..|s|] == s;
  }

  // ---- what the decoder reads ----

  /** A piece of a quoted body that stands for the character: the character itself, or an escape for it. */
  predicate Spells(piece: string, c: char) {
    || (piece == [c] && c != '"' && c != '\\')
    || (piece == "\\n" && c == '\n') || (piece == "\\r" && c == '\r')
    || (piece == "\\t" && c == '\t') || (piece == "\\0" && c == '\0')
    || (|piece| == 2 && piece[0] == '\\' && piece[1] == c && c != 'n' && c != 'r' && c != 't' && c != '0')
  }

  predicate SpellsAll(pieces: seq<string>, s: string) {
    |pieces| == |s| && forall k :: 0 <= k < |s| ==> Spells(pieces[k], s[k])
  }

  function Closed(pieces: seq<string>): string { Concat(pieces) + "\"" }

  lemma ClosedCons(piece: string, pieces: seq<string>)
    ensures Closed([piece] + pieces) == piece + Closed(pieces)
  {
    assert ([piece] + pieces)[1..] == pieces;
    assert (piece + Concat(pieces)) + "\"" == piece + (Concat(pieces) + "\"");
  }

  lemma MatchJoin(t: string, at: nat, a: string, b: string)
    requires MatchesAt(t, at, a) && MatchesAt(t, at + |a|, b)
    ensures MatchesAt(t, at, a + b)
  {
    assert t[at..at + |a + b|] == t[at..at + |a|] + t[at + |a|..at + |a| + |b|];
  }

  /** The body goes on from `i` with a piece that stands for `c`. */
  lemma PieceIsRead(t: string, i: nat, out: string, piece: string, c: char)
    requires MatchesAt(t, i, piece) && Spells(piece, c)
    ensures i < i + |piece| <= |t| && QuotedBody(t, i, out) == QuotedBody(t, i + |piece|, out + [c])
  {
    assert t[i] == t[i..i + |piece|][0] == piece[0];
    if |piece| == 2 {
      assert t[i + 1] == t[i..i + 2][1] == piece[1];
    }
  }

  lemma {:induction false} PiecesAreRead(t: string, i: nat, out: string, pieces: seq<string>, s: string)
    requires MatchesAt(t, i, Closed(pieces)) && SpellsAll(pieces, s)
    ensures QuotedBody(t, i, out) == Some(out + s)
    decreases |s|
  {
    hide MatchesAt, Closed, Spells;
    if s == [] {
      Ends(t, i, pieces);
      assert out + s == out;
    } else {
      var piece, rest := pieces[0], pieces[1..];
      assert pieces == [piece] + rest;
      ClosedCons(piece, rest);
      MatchSplit(t, i, piece, Closed(rest));
      assert Spells(pieces[0], s[0]);
      PieceIsRead(t, i, out, piece, s[0]);
      assert SpellsAll(rest, s[1..]);
      PiecesAreRead(t, i + |piece|, out + [s[0]], rest, s[1..]);
      assert (out + [s[0]]) + s[1..] == out + s;
    }
  }

  lemma Ends(t: string, i: nat, pieces: seq<string>)
    requires MatchesAt(t, i, Closed(pieces)) && pieces == []
    ensures i < |t| && t[i] == '"'
  {
    assert Closed(pieces) == "\"" && t[i] == t[i..i + 1][0];
  }

  lemma {:induction false} ReadIsPieces(t: string, i: nat, out: string) returns (pieces: seq<string>, s: string)
    requires i <= |t| && QuotedBody(t, i, out).Some?
    ensures QuotedBody(t, i, out) == Some(out + s) && SpellsAll(pieces, s) && MatchesAt(t, i, Closed(pieces))
    decreases |t| - i
  {
    hide Closed, MatchesAt;
    if t[i] == '"' {
      pieces, s := [], "";
      assert out + s == out;
      OnlyQuote(t, i);
    } else {
      var n := if t[i] == '\\' then 2 else 1;
      var c := if n == 2 then Unescape(t[i + 1]) else t[i];
      var rest, more := ReadIsPieces(t, i + n, out + [c]);
      var piece := t[i..i + n];
      pieces, s := [piece] + rest, [c] + more;
      assert (out + [c]) + more == out + s;
      assert Spells(piece, c) && MatchesAt(t, i, piece) by { OnePieceFits(t, i, n, c); }
      ClosedCons(piece, rest);
      MatchJoin(t, i, piece, Closed(rest));
    }
  }

  lemma OnlyQuote(t: string, i: nat)
    requires i < |t| && t[i] == '"'
    ensures MatchesAt(t, i, Closed([]))
  {
    assert t[i..i + 1] == [t[i]] && Closed([]) == "\"";
  }

  lemma OnePieceFits(t: string, i: nat, n: nat, c: char)
    requires i + n <= |t| && 0 < n && t[i] != '"' && n == (if t[i] == '\\' then 2 else 1)
    requires c == if n == 2 then Unescape(t[i + 1]) else t[i]
    ensures Spells(t[i..i + n], c) && MatchesAt(t, i, t[i..i + n])
  {
    if n == 1 {
      assert t[i..i + 1] == [c];
    } else {
      assert t[i..i + 2] == [t[i], t[i + 1]];
    }
  }

  /** A quoted literal in the text: a quote, pieces that spell the value, and a quote. */
  ghost predicate QuotedAt(t: string, at: nat, pieces: seq<string>, s: string) {
    SpellsAll(pieces, s) && MatchesAt(t, at, "\"" + Closed(pieces))
  }

  /** A raw literal in the text whose terminator does not occur in its body. */
  ghost predicate RawAt(t: string, at: nat, n: nat, s: string) {
    MatchesAt(t, at, Raw(n, s)) && forall k: nat :: !MatchesAt(s, k, Terminator(n))
  }

  lemma {:induction false} RawBodyStops(t: string, start: nat, i: nat, n: nat) returns (end: nat)
    requires start <= i <= |t| && RawBody(t, start, i, n).Some?
    ensures i <= end < |t| && RawBody(t, start, i, n) == Some(t[start..end]) && MatchesAt(t, end, Terminator(n))
    ensures forall k :: i <= k < end ==> !MatchesAt(t, k, Terminator(n))
    decreases |t| - i
  {
    hide MatchesAt, Terminator, AllHashes;
    RawBodyAt(t, i, n);
    if MatchesAt(t, i, Terminator(n)) {
      end := i;
    } else {
      end := RawBodyStops(t, start, i + 1, n);
    }
  }

  /** What is read as a raw literal is printed there. */
  lemma RawIsPrinted(t: string, at: nat) returns (n: nat)
    requires at < |t| && t[at] == 'r' && Literal(t, at).Some?
    ensures RawAt(t, at, n, Literal(t, at).value)
  {
    hide RawBody, Raw, Terminator;
    var open := HashEnd(t, at + 1);
    n := open - (at + 1);
    var end := RawBodyStops(t, open + 1, open + 1, n);
    var s := t[open + 1..end];
    RawFits(t, at, n, end);
    forall k: nat ensures !MatchesAt(s, k, Terminator(n)) {
      SliceMatch(t, open + 1, end, k, Terminator(n));
      if k < |s| {
        assert !MatchesAt(t, open + 1 + k, Terminator(n));
      } else {
        TerminatorLong(n);
      }
    }
  }

  lemma TerminatorLong(n: nat)
    ensures |Terminator(n)| == n + 1
  {
  }

  lemma SliceMatch(t: string, start: nat, end: nat, k: nat, needle: string)
    requires start <= end <= |t|
    ensures MatchesAt(t[start..end], k, needle) ==> MatchesAt(t, start + k, needle)
  {
    MatchesChars(t[start..end], k, needle);
    MatchesChars(t, start + k, needle);
  }

  lemma RawFits(t: string, at: nat, n: nat, end: nat)
    requires at + n + 2 <= end <= |t| && t[at] == 'r' && AllHashes(t[at + 1..at + 1 + n]) && t[at + 1 + n] == '"'
    requires MatchesAt(t, end, Terminator(n))
    ensures MatchesAt(t, at, Raw(n, t[at + n + 2..end]))
  {
    hide MatchesAt, Terminator;
    var s := t[at + n + 2..end];
    RawOpeningFits(t, at, n);
    SliceFits(t, at + n + 2, end);
    var open := "r" + Hashes(n) + "\"";
    MatchJoin(t, at, open, s);
    MatchJoin(t, at, open + s, Terminator(n));
  }

  lemma SliceFits(t: string, i: nat, j: nat)
    requires i <= j <= |t|
    ensures MatchesAt(t, i, t[i..j])
  {
  }

  lemma RawOpeningFits(t: string, at: nat, n: nat)
    requires at + n + 2 <= |t| && t[at] == 'r' && AllHashes(t[at + 1..at + 1 + n]) && t[at + 1 + n] == '"'
    ensures MatchesAt(t, at, "r" + Hashes(n) + "\"")
  {
    assert t[at + 1..at + 1 + n] == Hashes(n);
    assert t[at..at + n + 2] == [t[at]] + t[at + 1..at + 1 + n] + [t[at + 1 + n]];
  }

  /** The decoder reads exactly the quoted and raw literals, and what it returns is what they spell. */
  lemma LiteralMeans(t: string, at: nat, s: string)
    ensures Literal(t, at) == Some(s) <==>
      (exists pieces :: QuotedAt(t, at, pieces, s)) || exists n: nat :: RawAt(t, at, n, s)
  {
    hide QuotedBody, RawBody, RawAt, QuotedAt, HashEnd;
    if Literal(t, at) == Some(s) {
      if t[at] == 'r' {
        var n := RawIsPrinted(t, at);
      } else {
        QuoteIsPrinted(t, at);
      }
    }
    if pieces :| QuotedAt(t, at, pieces, s) {
      PrintedQuoteIsRead(t, at, pieces, s);
    }
    if n: nat :| RawAt(t, at, n, s) {
      PrintedRawIsRead(t, at, n, s);
    }
  }

  lemma QuoteIsPrinted(t: string, at: nat)
    requires at < |t| && t[at] != 'r' && Literal(t, at).Some?
    ensures exists pieces :: QuotedAt(t, at, pieces, Literal(t, at).value)
  {
    hide QuotedBody, MatchesAt, Closed;
    var pieces, s := ReadIsPieces(t, at + 1, "");
    assert "" + s == s;
    SliceFits(t, at, at + 1);
    assert t[at..at + 1] == "\"";
    MatchJoin(t, at, "\"", Closed(pieces));
    assert QuotedAt(t, at, pieces, s);
  }

  lemma PrintedQuoteIsRead(t: string, at: nat, pieces: seq<string>, s: string)
    requires QuotedAt(t, at, pieces, s)
    ensures Literal(t, at) == Some(s)
  {
    hide QuotedBody, Closed;
    MatchSplit(t, at, "\"", Closed(pieces));
    assert t[at] == t[at..at + 1][0] == '"';
    PiecesAreRead(t, at + 1, "", pieces, s);
    assert "" + s == s;
  }

  lemma PrintedRawIsRead(t: string, at: nat, n: nat, s: string)
    requires RawAt(t, at, n, s)
    ensures Literal(t, at) == Some(s)
  {
    DecodesRaw(t, at, n, s);
  }

  // ---- the call ----

  const NEEDLE := "Filter::Sql"

  /** `Filter::Sql`, whitespace, and an opening parenthesis, at `i`. */
  predicate CallAt(t: string, i: nat) {
    && MatchesAt(t, i, NEEDLE)
    && SkipSpace(t, i + |NEEDLE|) < |t| && t[SkipSpace(t, i + |NEEDLE|)] == '('
  }

  /** Where the argument of the call at `i` begins. */
  function ArgumentOf(t: string, i: nat): nat {
    SkipSpace(t, SkipSpace(t, i + |NEEDLE|) + 1)
  }

  method SkipSpaces(t: string, i: nat) returns (j: nat)
    ensures j == SkipSpace(t, i)
  {
    j := i;
    while j < |t| && IsAsciiSpace(t[j])
      invariant SkipSpace(t, j) == SkipSpace(t, i)
    {
      j := j + 1;
    }
  }

  /** The argument of the first call; the search does not stop at a mention that is not a call. */
  method FilterSqlCall(region: string) returns (r: Option<nat>)
    ensures r.None? ==> forall i: nat :: !CallAt(region, i)
    ensures r.Some? ==>
      exists i: nat ::
        CallAt(region, i) && r.value == ArgumentOf(region, i) && forall k: nat :: k < i ==> !CallAt(region, k)
  {
    var i := 0;
    while i + |NEEDLE| <= |region|
      invariant forall k: nat :: k < i ==> !CallAt(region, k)
    {
      if MatchesAt(region, i, NEEDLE) {
        var j := SkipSpaces(region, i + |NEEDLE|);
        if j < |region| && region[j] == '(' {
          var argument := SkipSpaces(region, j + 1);
          assert CallAt(region, i) && argument == ArgumentOf(region, i);
          return Some(argument);
        }
      }
      i := i + 1;
    }
    return None;
  }

  /** The text mentions the constructor behind `pre` and opens its parenthesis; `rest` begins with the argument. */
  ghost predicate Calls(t: string, pre: string, gap: string, blanks: string, rest: string) {
    && t == pre + ("Filter::Sql" + (gap + ("(" + (blanks + rest))))
    && Blanks(gap) && Blanks(blanks) && (rest == "" || !IsAsciiSpace(rest[0]))
  }

  lemma SkipsBlanks(t: string, i: nat, blanks: string, rest: string)
    requires i <= |t| && t[i..] == blanks + rest && Blanks(blanks) && (rest == "" || !IsAsciiSpace(rest[0]))
    ensures SkipSpace(t, i) == i + |blanks| && t[i + |blanks|..] == rest
  {
    assert forall k :: 0 <= k < |t| - i ==> t[i + k] == t[i..][k];
    var j := i + |blanks|;
    assert t[j..] == t[i..][|blanks|..] == rest;
    forall k | i <= k < j ensures IsAsciiSpace(t[k]) {
      assert t[i + (k - i)] == blanks[k - i];
    }
    SkipSpaceIs(t, i, j);
  }

  lemma CallIsRead(t: string, pre: string, gap: string, blanks: string, rest: string)
    requires Calls(t, pre, gap, blanks, rest)
    ensures CallAt(t, |pre|) && ArgumentOf(t, |pre|) == |t| - |rest|
  {
    hide SkipSpace, MatchesAt;
    var inner := "(" + (blanks + rest);
    CutMatches(t, pre, NEEDLE, gap + inner);
    SkipsBlanks(t, |pre| + |NEEDLE|, gap, inner);
    var open := |pre| + |NEEDLE| + |gap|;
    assert t[open..][0] == '(' && t[open + 1..] == t[open..][1..] == blanks + rest;
    SkipsBlanks(t, open + 1, blanks, rest);
  }

  lemma BlanksCut(t: string, i: nat) returns (gap: string, rest: string)
    requires i <= |t|
    ensures t[i..] == gap + rest && rest == t[SkipSpace(t, i)..] && |rest| == |t| - SkipSpace(t, i)
    ensures Blanks(gap) && (rest == "" || !IsAsciiSpace(rest[0]))
  {
    hide SkipSpace, Blanks;
    SkipSpaceStops(t, i);
    var j := SkipSpace(t, i);
    gap, rest := t[i..j], t[j..];
  }

  lemma ReadIsCall(t: string, i: nat) returns (pre: string, gap: string, blanks: string, rest: string)
    requires CallAt(t, i)
    ensures Calls(t, pre, gap, blanks, rest) && |pre| == i && |t| - |rest| == ArgumentOf(t, i)
  {
    hide SkipSpace, MatchesAt, Cuts, Calls, Blanks;
    MatchFits(t, i, NEEDLE);
    MatchCuts(t, i, NEEDLE);
    pre := t[..i];
    var inner: string, open := "", SkipSpace(t, i + |NEEDLE|);
    gap, inner := BlanksCut(t, i + |NEEDLE|);
    Opens(t, open);
    blanks, rest := BlanksCut(t, open + 1);
    Assemble(t, pre, t[i + |NEEDLE|..], gap, inner, t[open + 1..], blanks, rest);
  }

  lemma Opens(t: string, open: nat)
    requires open < |t| && t[open] == '('
    ensures t[open..] == "(" + t[open + 1..]
  {
  }

  lemma Assemble(
      t: string, pre: string, behind: string, gap: string, inner: string, open: string, blanks: string, rest: string)
    requires Cuts(t, pre, NEEDLE, behind) && behind == gap + inner && inner == "(" + open && open == blanks + rest
    requires Blanks(gap) && Blanks(blanks) && (rest == "" || !IsAsciiSpace(rest[0]))
    ensures Calls(t, pre, gap, blanks, rest)
  {
  }

  /** What a call is, and where its argument begins: behind the parenthesis and the blanks after it. */
  lemma CallMeans(t: string, i: nat, a: nat)
    ensures CallAt(t, i) && ArgumentOf(t, i) == a <==>
      exists pre, gap, blanks, rest :: Calls(t, pre, gap, blanks, rest) && |pre| == i && |t| - |rest| == a
  {
    hide CallAt, ArgumentOf, Calls, SkipSpace;
    if CallAt(t, i) {
      var _, _, _, _ := ReadIsCall(t, i);
    }
    if pre, gap, blanks, rest :| Calls(t, pre, gap, blanks, rest) && |pre| == i && |t| - |rest| == a {
      CallIsRead(t, pre, gap, blanks, rest);
    }
  }
}
