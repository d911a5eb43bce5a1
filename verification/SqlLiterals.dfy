/** What blanking the SQL string literals means (src/rls.rs, `blank_sql_strings`), stated by quote
    parity instead of by scanning. */
module SqlLiterals {
  import opened Text
  import opened SqlText

  /** How many quotes precede position `i`. */
  ghost function Quotes(s: string, i: nat): nat
    requires i <= |s|
  {
    if i == 0 then 0 else Quotes(s, i - 1) + if s[i - 1] == '\'' then 1 else 0
  }

  /** An odd number of quotes precedes position `i`. */
  ghost predicate Odd(s: string, i: nat)
    requires i <= |s|
    ensures Odd(s, i) <==> Quotes(s, i) % 2 == 1
  {
    i > 0 && Odd(s, i - 1) != (s[i - 1] == '\'')
  }

  /** Where the literal that never closes begins, or the end of the text. */
  ghost function Cut(s: string, i: nat): (c: nat)
    requires i <= |s|
    ensures i <= c <= |s|
    decreases |s| - i
  {
    if i == |s| then i
    else if s[i] != '\'' then Cut(s, i + 1)
    else match CloseAt(s, i + 1)
      case None => i
      case Some(e) => Cut(s, e)
  }

  /** A quote that ends a literal: an odd number of quotes precedes it, and none stands directly behind. */
  ghost predicate Closes(s: string, k: nat)
    requires k < |s|
  {
    s[k] == '\'' && Odd(s, k) && (k + 1 == |s| || s[k + 1] != '\'')
  }

  ghost predicate ClosedBehind(s: string, q: nat) { exists k :: q <= k < |s| && Closes(s, k) }

  /** A byte of a closed literal: a quote itself or preceded by an odd number of quotes, with a quote that
      ends a literal at it or behind it. */
  ghost predicate InClosedLiteral(s: string, k: nat)
    requires k < |s|
  {
    (s[k] == '\'' || Odd(s, k)) && ClosedBehind(s, k)
  }

  lemma {:induction false} InsideLiteral(s: string, i: nat)
    requires i <= |s| && Odd(s, i)
    ensures CloseAt(s, i).Some? ==>
      !Odd(s, CloseAt(s, i).value) && forall k :: i <= k < CloseAt(s, i).value ==> s[k] == '\'' || Odd(s, k)
    ensures CloseAt(s, i).None? ==> Odd(s, |s|)
    decreases |s| - i
  {
    if i == |s| {
    } else if s[i] == '\'' {
      if i + 1 < |s| && s[i + 1] == '\'' {
        assert Quotes(s, i + 2) == Quotes(s, i + 1) + 1 == Quotes(s, i) + 2;
        InsideLiteral(s, i + 2);
      } else {
        assert Quotes(s, i + 1) == Quotes(s, i) + 1;
      }
    } else {
      InsideLiteral(s, i + 1);
    }
  }

  lemma {:induction false} CutByParity(s: string, i: nat)
    requires i <= |s| && !Odd(s, i)
    ensures Cut(s, i) == |s| <==> !Odd(s, |s|)
    ensures Cut(s, i) < |s| ==> s[Cut(s, i)] == '\'' && CloseAt(s, Cut(s, i) + 1).None?
    decreases |s| - i
  {
    if i < |s| {
      if s[i] != '\'' {
        CutByParity(s, i + 1);
      } else {
        InsideLiteral(s, i + 1);
        match CloseAt(s, i + 1)
        case None =>
        case Some(e) => CutByParity(s, e);
      }
    }
  }

  /** The scanner's closing quote is the next quote that closes. */
  lemma {:induction false} CloseIsNext(s: string, i: nat)
    requires i <= |s| && Odd(s, i)
    ensures CloseAt(s, i).None? ==> forall k :: i <= k < |s| ==> !Closes(s, k)
    ensures CloseAt(s, i).Some? ==> var e := CloseAt(s, i).value;
      Closes(s, e - 1) && forall k :: i <= k < e - 1 ==> !Closes(s, k)
    decreases |s| - i
  {
    if i < |s| {
      if s[i] != '\'' {
        CloseIsNext(s, i + 1);
      } else if i + 1 < |s| && s[i + 1] == '\'' {
        assert !Odd(s, i + 1) && Odd(s, i + 2);
        CloseIsNext(s, i + 2);
        assert !Closes(s, i) && !Closes(s, i + 1);
      } else {
        assert Closes(s, i);
      }
    }
  }

  /** The unterminated literal starts at the first quote that nothing at or behind it closes. */
  lemma {:induction false} CutIsFirstUnclosed(s: string, i: nat, q: nat)
    requires i <= q < |s| && !Odd(s, i) && (s[q] == '\'' || Odd(s, q))
    ensures q < Cut(s, i) <==> ClosedBehind(s, q)
    decreases |s| - i
  {
    hide Closes;
    if s[i] != '\'' {
      CutIsFirstUnclosed(s, i + 1, q);
    } else {
      InsideLiteral(s, i + 1);
      CloseIsNext(s, i + 1);
      if CloseAt(s, i + 1).None? {
        OpeningCloses(s, i);
      } else {
        var e := CloseAt(s, i + 1).value;
        if q < e {
          assert Closes(s, e - 1);
        } else {
          CutIsFirstUnclosed(s, e, q);
        }
      }
    }
  }

  lemma OpeningCloses(s: string, i: nat)
    requires i < |s| && !Odd(s, i)
    ensures !Closes(s, i)
  {
  }

  lemma EvenStart(s: string)
    ensures !Odd(s, 0)
  {
    assert Quotes(s, 0) == 0;
  }

  /** Before the unterminated literal every literal is closed. */
  lemma ClosedIsBeforeCut(s: string, k: nat)
    requires k < |s|
    ensures InClosedLiteral(s, k) <==> k < Cut(s, 0) && (s[k] == '\'' || Odd(s, k))
    ensures s[k] == '\'' ==> (k < Cut(s, 0) <==> ClosedBehind(s, k))
  {
    hide Cut, ClosedBehind, Odd;
    EvenStart(s);
    if s[k] == '\'' || Odd(s, k) {
      CutIsFirstUnclosed(s, 0, k);
    }
  }

  /** What blanking does to byte `k`, given where its literal-free scan stands. */
  ghost function Blanked(s: string, i: nat, k: nat): char
    requires i <= k < |s|
  {
    if k < Cut(s, i) && (s[k] == '\'' || Odd(s, k)) then ' ' else s[k]
  }

  lemma BlankByte(s: string, i: nat, k: nat)
    requires i <= k < |s|
    ensures s[i] != '\'' ==> BlankFrom(s, i)[k - i] == if k == i then s[i] else BlankFrom(s, i + 1)[k - (i + 1)]
    ensures s[i] == '\'' && CloseAt(s, i + 1).None? ==> BlankFrom(s, i)[k - i] == s[k]
    ensures s[i] == '\'' && CloseAt(s, i + 1).Some? ==>
      var e := CloseAt(s, i + 1).value; BlankFrom(s, i)[k - i] == if k < e then ' ' else BlankFrom(s, e)[k - e]
  {
    if s[i] != '\'' {
      assert BlankFrom(s, i) == [s[i]] + BlankFrom(s, i + 1);
      IndexAppend([s[i]], BlankFrom(s, i + 1), k - i);
    } else if CloseAt(s, i + 1).Some? {
      var e := CloseAt(s, i + 1).value;
      assert BlankFrom(s, i) == Spaces(e - i) + BlankFrom(s, e);
      IndexAppend(Spaces(e - i), BlankFrom(s, e), k - i);
    }
  }

  lemma BlankedStep(s: string, i: nat, k: nat)
    requires i <= k < |s| && !Odd(s, i)
    ensures s[i] != '\'' ==> Blanked(s, i, k) == if k == i then s[i] else Blanked(s, i + 1, k)
    ensures s[i] == '\'' && CloseAt(s, i + 1).None? ==> Blanked(s, i, k) == s[k]
    ensures s[i] == '\'' && CloseAt(s, i + 1).Some? ==>
      var e := CloseAt(s, i + 1).value; Blanked(s, i, k) == if k < e then ' ' else Blanked(s, e, k)
  {
    if s[i] == '\'' {
      InsideLiteral(s, i + 1);
    }
  }

  lemma {:induction false} ByteByParity(s: string, i: nat, k: nat)
    requires i <= k < |s| && !Odd(s, i)
    ensures BlankFrom(s, i)[k - i] == Blanked(s, i, k)
    decreases |s| - i
  {
    hide BlankFrom, Blanked, Cut, CloseAt;
    BlankByte(s, i, k);
    BlankedStep(s, i, k);
    if s[i] != '\'' {
      if k > i {
        ByteByParity(s, i + 1, k);
      }
    } else {
      InsideLiteral(s, i + 1);
      match CloseAt(s, i + 1)
      case None =>
      case Some(e) => if k >= e { ByteByParity(s, e, k); }
    }
  }

  /** Blanking changes exactly the bytes of closed literals, each to a space. A literal stays
      unterminated exactly when the text has an odd number of quotes; so no quote is left before
      its opening quote, and from there on nothing changes. */
  lemma BlankedExactly(s: string)
    ensures forall k :: 0 <= k < |s| ==> BlankStrings(s)[k] == if InClosedLiteral(s, k) then ' ' else s[k]
    ensures Cut(s, 0) == |s| <==> Quotes(s, |s|) % 2 == 0
    ensures Cut(s, 0) < |s| ==> s[Cut(s, 0)] == '\'' && CloseAt(s, Cut(s, 0) + 1).None?
    ensures forall q :: 0 <= q < |s| && s[q] == '\'' ==> (q < Cut(s, 0) <==> ClosedBehind(s, q))
  {
    hide ClosedBehind, InClosedLiteral, Cut, Odd, CloseAt, BlankFrom;
    EvenStart(s);
    CutByParity(s, 0);
    forall k | 0 <= k < |s|
      ensures BlankStrings(s)[k] == if InClosedLiteral(s, k) then ' ' else s[k]
      ensures s[k] == '\'' ==> (k < Cut(s, 0) <==> ClosedBehind(s, k))
    {
      ByteByParity(s, 0, k);
      ClosedIsBeforeCut(s, k);
      assert BlankStrings(s)[k] == Blanked(s, 0, k);
    }
  }

  lemma {:induction false} NothingCloses(r: string, i: nat, c: nat)
    requires i <= c <= |r|
    requires forall k :: i <= k < c ==> r[k] != '\''
    requires c < |r| ==> r[c] == '\'' && CloseAt(r, c + 1).None?
    ensures BlankFrom(r, i) == r[i..]
    decreases c - i
  {
    if i < c {
      NothingCloses(r, i + 1, c);
    }
  }

  /** Blanking twice is blanking once. */
  lemma BlankStringsIdempotent(s: string)
    ensures BlankStrings(BlankStrings(s)) == BlankStrings(s)
  {
    hide InClosedLiteral, ClosedBehind, Cut, Odd;
    BlankedExactly(s);
    var r, c := BlankStrings(s), Cut(s, 0);
    forall k | 0 <= k < |s| ensures if k < c then r[k] != '\'' else r[k] == s[k] {
      ClosedIsBeforeCut(s, k);
    }
    if c < |s| {
      assert r[c + 1..] == s[c + 1..];
      CloseAtSuffix(s, r, c + 1);
    }
    NothingCloses(r, 0, c);
  }

  lemma {:induction false} SameShape(s: string, r: string, i: nat)
    requires |s| == |r| && i <= |s|
    requires forall k :: 0 <= k < |s| ==> (s[k] == '\'' <==> r[k] == '\'')
    ensures CloseAt(s, i) == CloseAt(r, i) && Cut(s, i) == Cut(r, i)
    decreases |s| - i
  {
    if i < |s| {
      SameShape(s, r, i + 1);
      if i + 1 < |s| {
        SameShape(s, r, i + 2);
      }
      match CloseAt(s, i + 1)
      case None =>
      case Some(e) => SameShape(s, r, e);
    }
  }

  lemma {:induction false} SameQuotes(s: string, r: string, i: nat)
    requires |s| == |r| && i <= |s|
    requires forall k :: 0 <= k < |s| ==> (s[k] == '\'' <==> r[k] == '\'')
    ensures Quotes(s, i) == Quotes(r, i)
  {
    if i > 0 {
      SameQuotes(s, r, i - 1);
    }
  }

  /** Literal contents never reach the validator: two texts with quotes in the same places that
      agree outside the closed literals blank to the same text. */
  lemma LiteralContentsUnread(s: string, r: string)
    requires |s| == |r|
    requires forall k :: 0 <= k < |s| ==> (s[k] == '\'' <==> r[k] == '\'')
    requires forall k :: 0 <= k < |s| && !InClosedLiteral(s, k) ==> s[k] == r[k]
    ensures BlankStrings(s) == BlankStrings(r)
  {
    hide InClosedLiteral, ClosedBehind, Cut, CloseAt, BlankStrings;
    SameShape(s, r, 0);
    BlankedExactly(s);
    BlankedExactly(r);
    forall k | 0 <= k < |s| ensures BlankStrings(s)[k] == BlankStrings(r)[k] {
      SameQuotes(s, r, k);
      ClosedIsBeforeCut(s, k);
      ClosedIsBeforeCut(r, k);
    }
  }
}
