/** Which quoted literals the decoder of src/rls.rs reads as Rust does. Rust's own reading follows the
    "Character escapes" and "String literals" sections of the Rust Reference, on the UTF-8 bytes of the
    source; a carriage return before a line feed is dropped, as Rust drops it from the whole source. */
module RustEscapes {
  import opened Text
  import opened RustLiteral

  // ---- Rust's reading ----

  predicate IsHex(c: char) { IsDigit(c) || 'a' <= c <= 'f' || 'A' <= c <= 'F' }

  function HexValue(c: char): (v: nat)
    requires IsHex(c)
    ensures v < 16
  {
    if IsDigit(c) then c as int - 48 else if c >= 'a' then c as int - 87 else c as int - 55
  }

  /** The number between the braces of a `\u{..}` escape; underscores only separate digits. */
  function HexNumber(body: string): nat {
    if body == [] then 0
    else
      var high, last := HexNumber(body[..|body| - 1]), body[|body| - 1];
      if IsHex(last) then high * 16 + HexValue(last) else high
  }

  function HexDigits(body: string): nat {
    if body == [] then 0 else HexDigits(body[..|body| - 1]) + if IsHex(body[|body| - 1]) then 1 else 0
  }

  predicate IsScalar(v: nat) { v < 0xD800 || 0xE000 <= v < 0x110000 }

  predicate UnicodeBody(body: string) {
    && body != [] && IsHex(body[0]) && (forall k :: 0 <= k < |body| ==> IsHex(body[k]) || body[k] == '_')
    && HexDigits(body) <= 6 && IsScalar(HexNumber(body))
  }

  /** The UTF-8 encoding of a scalar value, one element per byte. */
  function Utf8(v: nat): (bytes: string)
    requires IsScalar(v)
    ensures 1 <= |bytes| <= 4 && (v < 0x80 ==> |bytes| == 1)
  {
    if v < 0x80 then [v as char]
    else if v < 0x800 then [(0xC0 + v / 0x40) as char, (0x80 + v % 0x40) as char]
    else if v < 0x10000 then
      [(0xE0 + v / 0x1000) as char, (0x80 + v / 0x40 % 0x40) as char, (0x80 + v % 0x40) as char]
    else
      [(0xF0 + v / 0x40000) as char, (0x80 + v / 0x1000 % 0x40) as char,
       (0x80 + v / 0x40 % 0x40) as char, (0x80 + v % 0x40) as char]
  }

  function BraceEnd(t: string, i: nat): (e: nat)
    requires i <= |t|
    ensures i <= e <= |t| && (e < |t| ==> t[e] == '}')
    decreases |t| - i
  {
    if i == |t| || t[i] == '}' then i else BraceEnd(t, i + 1)
  }

  predicate IsContinuationSpace(c: char) { c == ' ' || c == '\t' || c == '\n' || c == '\r' }

  function SkipContinuation(t: string, i: nat): (e: nat)
    requires i <= |t|
    ensures i <= e <= |t|
    ensures forall k :: i <= k < e ==> IsContinuationSpace(t[k])
    decreases |t| - i
  {
    if i < |t| && IsContinuationSpace(t[i]) then SkipContinuation(t, i + 1) else i
  }

  predicate IsPlainEscape(c: char) {
    c == 'n' || c == 'r' || c == 't' || c == '0' || c == '\\' || c == '"' || c == '\''
  }

  /** The value of the escape whose backslash stands before `j`, and where the text goes on. */
  function RustEscape(t: string, j: nat): (r: Option<(string, nat)>)
    requires j <= |t|
    ensures r.Some? ==> j < r.value.1 <= |t|
  {
    if j == |t| then None
    else if IsPlainEscape(t[j]) then Some(([Unescape(t[j])], j + 1))
    else if t[j] == 'x' then
      if j + 2 < |t| && IsHex(t[j + 1]) && IsHex(t[j + 2]) && HexValue(t[j + 1]) < 8
      then Some(([(HexValue(t[j + 1]) * 16 + HexValue(t[j + 2])) as char], j + 3)) else None
    else if t[j] == 'u' then
      if j + 1 < |t| && t[j + 1] == '{' && BraceEnd(t, j + 2) < |t| && UnicodeBody(t[j + 2..BraceEnd(t, j + 2)])
      then Some((Utf8(HexNumber(t[j + 2..BraceEnd(t, j + 2)])), BraceEnd(t, j + 2) + 1)) else None
    else if t[j] == '\n' || (t[j] == '\r' && j + 1 < |t| && t[j + 1] == '\n') then
      Some(("", SkipContinuation(t, j + 1)))
    else None
  }

  function Then(head: string, rest: Option<string>): Option<string> {
    if rest.Some? then Some(head + rest.value) else None
  }

  /** The value of a quoted literal from `i` on, or None where Rust rejects it. */
  function RustBody(t: string, i: nat): Option<string>
    requires i <= |t|
    decreases |t| - i
  {
    if i == |t| then None
    else if t[i] == '"' then Some("")
    else if t[i] == '\\' then
      match RustEscape(t, i + 1)
      case None => None
      case Some(e) => Then(e.0, RustBody(t, e.1))
    else if t[i] == '\r' then if i + 1 < |t| && t[i + 1] == '\n' then RustBody(t, i + 1) else None
    else Then([t[i]], RustBody(t, i + 1))
  }

  function RustValue(t: string, at: nat): Option<string> {
    if at < |t| && t[at] == '"' then RustBody(t, at + 1) else None
  }

  // ---- the decoder against it ----

  /** From `i` to the closing quote: no carriage return, and only escapes of one character. */
  predicate Simple(t: string, i: nat)
    requires i <= |t|
    decreases |t| - i
  {
    if i == |t| || t[i] == '"' then true
    else if t[i] == '\\' then i + 1 < |t| && IsPlainEscape(t[i + 1]) && Simple(t, i + 2)
    else t[i] != '\r' && Simple(t, i + 1)
  }

  /** The four things that the decoder does not know: `\x`, `\u`, a continued line, a carriage return. */
  predicate HoldsUnknown(t: string, i: nat)
    requires i <= |t|
    decreases |t| - i
  {
    if i == |t| || t[i] == '"' then false
    else if t[i] == '\\' then
      i + 1 < |t| &&
      (t[i + 1] == 'x' || t[i + 1] == 'u' || t[i + 1] == '\n' || t[i + 1] == '\r' || HoldsUnknown(t, i + 2))
    else t[i] == '\r' || HoldsUnknown(t, i + 1)
  }

  /** What the decoder has collected so far stands before what is still to come. */
  lemma {:induction false} CollectedFirst(t: string, i: nat, out: string)
    requires i <= |t|
    ensures QuotedBody(t, i, out) == Then(out, QuotedBody(t, i, ""))
    decreases |t| - i
  {
    if i == |t| || t[i] == '"' {
      assert out + "" == out;
    } else if t[i] == '\\' {
      if i + 1 < |t| {
        var c := Unescape(t[i + 1]);
        CollectedFirst(t, i + 2, out + [c]);
        CollectedFirst(t, i + 2, [c]);
        Reassociate(out, [c], QuotedBody(t, i + 2, ""));
        assert "" + [c] == [c];
      }
    } else {
      CollectedFirst(t, i + 1, out + [t[i]]);
      CollectedFirst(t, i + 1, [t[i]]);
      Reassociate(out, [t[i]], QuotedBody(t, i + 1, ""));
      assert "" + [t[i]] == [t[i]];
    }
  }

  lemma Reassociate(a: string, b: string, r: Option<string>)
    ensures Then(a + b, r) == Then(a, Then(b, r))
  {
    if r.Some? {
      assert (a + b) + r.value == a + (b + r.value);
    }
  }

  /** One character outside escapes, or one escape, as the decoder reads it. */
  lemma DecoderStep(t: string, i: nat)
    requires i < |t| && t[i] != '"'
    ensures t[i] != '\\' ==> QuotedBody(t, i, "") == Then([t[i]], QuotedBody(t, i + 1, ""))
    ensures t[i] == '\\' && i + 1 < |t| ==> QuotedBody(t, i, "") == Then([Unescape(t[i + 1])], QuotedBody(t, i + 2, ""))
  {
    if t[i] != '\\' {
      CollectedFirst(t, i + 1, [t[i]]);
      assert "" + [t[i]] == [t[i]];
    } else if i + 1 < |t| {
      CollectedFirst(t, i + 2, [Unescape(t[i + 1])]);
      assert "" + [Unescape(t[i + 1])] == [Unescape(t[i + 1])];
    }
  }

  /** Characters that are neither quotes nor backslashes are copied. */
  lemma {:induction false} CopiedRun(t: string, j: nat, e: nat)
    requires j <= e <= |t| && forall k :: j <= k < e ==> t[k] != '"' && t[k] != '\\'
    ensures QuotedBody(t, j, "") == Then(t[j..e], QuotedBody(t, e, ""))
    decreases e - j
  {
    hide QuotedBody;
    if j == e {
      ThenNothing(QuotedBody(t, e, ""));
    } else {
      DecoderStep(t, j);
      CopiedRun(t, j + 1, e);
      Reassociate([t[j]], t[j + 1..e], QuotedBody(t, e, ""));
      assert [t[j]] + t[j + 1..e] == t[j..e];
    }
  }

  lemma ThenNothing(r: Option<string>)
    ensures Then("", r) == r
  {
    if r.Some? {
      assert "" + r.value == r.value;
    }
  }

  /** An escape that the decoder does not know comes out longer than Rust has it. */
  lemma UnknownIsLonger(t: string, i: nat)
    requires i < |t| && t[i] == '\\' && RustEscape(t, i + 1).Some? && !IsPlainEscape(t[i + 1])
    ensures var (value, next) := RustEscape(t, i + 1).value;
      QuotedBody(t, next, "").Some? ==>
        QuotedBody(t, i, "").Some? && |QuotedBody(t, i, "").value| > |value| + |QuotedBody(t, next, "").value|
  {
    hide QuotedBody, Utf8, HexNumber, HexDigits, HexValue, BraceEnd, SkipContinuation, IsScalar;
    var (value, next) := RustEscape(t, i + 1).value;
    DecoderStep(t, i);
    if t[i + 1] == 'u' {
      UnicodeIsShort(t[i + 3..next - 1]);
      assert forall k :: i + 3 <= k < next - 1 ==> t[k] == t[i + 3..next - 1][k - (i + 3)];
    }
    CopiedRun(t, i + 2, next);
  }

  lemma {:induction false} SmallNumber(body: string)
    requires |body| == 1 && IsHex(body[0])
    ensures HexNumber(body) < 16
  {
    assert body[..0] == [];
  }

  /** The encoding of a scalar value is shorter than its number in braces. */
  lemma UnicodeIsShort(body: string)
    requires UnicodeBody(body)
    ensures |Utf8(HexNumber(body))| < |body| + 3
  {
    if |body| == 1 {
      SmallNumber(body);
    }
  }

  lemma {:induction false} DecoderAgainstRust(t: string, i: nat)
    requires i <= |t| && RustBody(t, i).Some?
    ensures QuotedBody(t, i, "").Some? && |QuotedBody(t, i, "").value| >= |RustBody(t, i).value|
    ensures !Simple(t, i) ==> |QuotedBody(t, i, "").value| > |RustBody(t, i).value|
    ensures Simple(t, i) <==> !HoldsUnknown(t, i)
    decreases |t| - i
  {
    if t[i] != '"' {
      DecoderStep(t, i);
      if t[i] == '\\' {
        var (value, next) := RustEscape(t, i + 1).value;
        DecoderAgainstRust(t, next);
        if !IsPlainEscape(t[i + 1]) {
          UnknownIsLonger(t, i);
        }
      } else {
        DecoderAgainstRust(t, i + 1);
      }
    }
  }

  lemma {:induction false} SimpleIsRust(t: string, i: nat)
    requires i <= |t| && Simple(t, i)
    ensures RustBody(t, i) == QuotedBody(t, i, "")
    decreases |t| - i
  {
    if i < |t| && t[i] != '"' {
      DecoderStep(t, i);
      SimpleIsRust(t, if t[i] == '\\' then i + 2 else i + 1);
    }
  }

  /** The decoder reads a quoted literal as Rust does exactly when it never ends, or holds no carriage
      return and only escapes of one character. Of the literals that Rust accepts these are the ones that
      hold neither `\x` nor `\u` nor a continued line nor a carriage return. */
  lemma ReadsAsRust(t: string, at: nat)
    requires at < |t| && t[at] == '"'
    ensures Literal(t, at) == RustValue(t, at) <==> Literal(t, at).None? || Simple(t, at + 1)
    ensures RustValue(t, at).Some? ==> (Literal(t, at) == RustValue(t, at) <==> !HoldsUnknown(t, at + 1))
  {
    hide QuotedBody, RustBody, Simple, HoldsUnknown;
    if RustBody(t, at + 1).Some? {
      DecoderAgainstRust(t, at + 1);
    }
    if Simple(t, at + 1) {
      SimpleIsRust(t, at + 1);
    }
  }

  /** The decoder does not know `\x41`. */
  lemma HexEscapeIsCopied()
    ensures RustValue("\"\\x41\"", 0) == Some("A") && Literal("\"\\x41\"", 0) == Some("x41")
  {
    var t := "\"\\x41\"";
    assert t[2..5] == "x41" && t[5] == '"';
    assert RustBody(t, 5) == Some("") && RustEscape(t, 2) == Some(("A", 5));
    assert "A" + "" == "A";
    DecoderStep(t, 1);
    CopiedRun(t, 3, 5);
    assert QuotedBody(t, 5, "") == Some("");
    assert "41" + "" == "41" && t[3..5] == "41" && ['x'] + "41" == "x41";
  }
}
