/** The FROM/JOIN matcher of the SQL filter validator (src/rls.rs, `table_refs`). Each match takes up to
    three tokens after its keyword, and the scan goes on behind them. */
module SqlRefs {
  import opened Text
  import opened SqlText

  datatype TableRef = TableRef(start: nat, tableStart: nat, tableEnd: nat, alias: Option<Word>)

  predicate TokensOf(t: string, toks: seq<Word>) {
    forall k :: 0 <= k < |toks| ==> toks[k].start < toks[k].end <= |t|
  }

  predicate IsIdentifier(t: string, w: Word) {
    w.start < |t| && IsIdentStart(t[w.start])
  }

  /** At least one byte, and nothing but whitespace, from `from` to `to`. */
  predicate SeparatedBySpace(t: string, from: nat, to: nat) {
    from < to <= |t| && forall k :: from <= k < to ==> IsAsciiSpace(t[k])
  }

  /** Token `k` follows token `k - 1` after whitespace only, and could be an identifier. */
  predicate FollowsSpaced(t: string, toks: seq<Word>, k: nat) {
    0 < k < |toks| && SeparatedBySpace(t, toks[k - 1].end, toks[k].start) && IsIdentifier(t, toks[k])
  }

  predicate Says(t: string, w: Word, word: string)
    requires w.start <= w.end <= |t|
  {
    Lower(WordText(t, w)) == word
  }

  /** Token `h` is a FROM or JOIN with a table name after it. */
  predicate Heads(t: string, toks: seq<Word>, h: nat): (b: bool)
    requires TokensOf(t, toks)
    ensures b ==> h + 1 < |toks|
  {
    h < |toks| && (Says(t, toks[h], "from") || Says(t, toks[h], "join")) && FollowsSpaced(t, toks, h + 1)
  }

  /** The alias after a table at token `k`, and the last token the match consumes. */
  function AliasSlot(t: string, toks: seq<Word>, k: nat): (r: (Option<Word>, nat))
    requires TokensOf(t, toks) && k < |toks|
    ensures k <= r.1 < |toks| && r.1 <= k + 2
    ensures r.0 == if r.1 == k then None else Some(toks[r.1])
  {
    if !FollowsSpaced(t, toks, k + 1) then (None, k)
    else if !Says(t, toks[k + 1], "as") then (Some(toks[k + 1]), k + 1)
    else if FollowsSpaced(t, toks, k + 2) then (Some(toks[k + 2]), k + 2)
    else (None, k)
  }

  function RefAt(t: string, toks: seq<Word>, h: nat): TableRef
    requires TokensOf(t, toks) && Heads(t, toks, h)
  {
    TableRef(toks[h].start, toks[h + 1].start, toks[h + 1].end, AliasSlot(t, toks, h + 1).0)
  }

  function RefsFrom(t: string, toks: seq<Word>, i: nat): (refs: seq<TableRef>)
    requires TokensOf(t, toks)
    decreases |toks| - i
  {
    if i >= |toks| then []
    else if Heads(t, toks, i) then
      [RefAt(t, toks, i)] + RefsFrom(t, toks, AliasSlot(t, toks, i + 1).1 + 1)
    else RefsFrom(t, toks, i + 1)
  }

  function Refs(t: string): seq<TableRef> { RefsFrom(t, Words(t), 0) }

  /** The optional alias slot of the match whose table is token `k`. */
  method ReadAlias(t: string, toks: seq<Word>, k: nat) returns (alias: Option<Word>, consumed: nat)
    requires TokensOf(t, toks) && k < |toks|
    ensures (alias, consumed) == AliasSlot(t, toks, k)
  {
    alias, consumed := None, k;
    if k + 1 < |toks| && FollowsSpaced(t, toks, k + 1) {
      if Says(t, toks[k + 1], "as") {
        if k + 2 < |toks| && FollowsSpaced(t, toks, k + 2) {
          alias, consumed := Some(toks[k + 2]), k + 2;
        }
      } else {
        alias, consumed := Some(toks[k + 1]), k + 1;
      }
    }
  }

  lemma RefsHead(t: string, toks: seq<Word>, i: nat)
    requires TokensOf(t, toks) && Heads(t, toks, i)
    ensures RefsFrom(t, toks, i) == [RefAt(t, toks, i)] + RefsFrom(t, toks, AliasSlot(t, toks, i + 1).1 + 1)
  {
  }

  /** The match headed by token `k`, if it heads one, and the last token it consumes. */
  method ReadRef(t: string, toks: seq<Word>, k: nat) returns (r: Option<TableRef>, consumed: nat)
    requires TokensOf(t, toks) && k < |toks|
    ensures r.Some? <==> Heads(t, toks, k)
    ensures r.Some? ==> r.value == RefAt(t, toks, k) && consumed == AliasSlot(t, toks, k + 1).1
  {
    r, consumed := None, k;
    var keyword := Says(t, toks[k], "from") || Says(t, toks[k], "join");
    if keyword && k + 1 < |toks| && FollowsSpaced(t, toks, k + 1) {
      var alias;
      alias, consumed := ReadAlias(t, toks, k + 1);
      r := Some(TableRef(toks[k].start, toks[k + 1].start, toks[k + 1].end, alias));
    }
  }

  method TableRefs(t: string, toks: seq<Word>) returns (refs: seq<TableRef>)
    requires TokensOf(t, toks)
    ensures refs == RefsFrom(t, toks, 0)
  {
    hide Heads, AliasSlot, RefAt;
    refs := [];
    var index := 0;
    while index < |toks|
      invariant refs + RefsFrom(t, toks, index) == RefsFrom(t, toks, 0)
      decreases |toks| - index
    {
      var found, consumed := ReadRef(t, toks, index);
      if found.None? {
        index := index + 1;
      } else {
        RefsHead(t, toks, index);
        MoveOne(refs, found.value, RefsFrom(t, toks, consumed + 1), RefsFrom(t, toks, 0));
        refs := refs + [found.value];
        index := consumed + 1;
      }
    }
    assert RefsFrom(t, toks, index) == [];
  }

  // ---- what the matches are ----

  /** `r` is the match whose head is token `h` and whose last consumed token is `last`. */
  ghost predicate MatchAt(t: string, toks: seq<Word>, h: nat, last: nat, r: TableRef)
    requires TokensOf(t, toks)
  {
    Heads(t, toks, h) && r == RefAt(t, toks, h) && last == AliasSlot(t, toks, h + 1).1
  }

  /** Every match has a FROM/JOIN head with a table after it. */
  lemma {:induction false} RefsAreMatches(t: string, toks: seq<Word>, i: nat)
    requires TokensOf(t, toks)
    ensures forall r :: r in RefsFrom(t, toks, i) ==> exists h: nat, last: nat :: MatchAt(t, toks, h, last, r)
    decreases |toks| - i
  {
    if i < |toks| {
      if Heads(t, toks, i) {
        var last := AliasSlot(t, toks, i + 1).1;
        RefsAreMatches(t, toks, last + 1);
        assert MatchAt(t, toks, i, last, RefAt(t, toks, i));
      } else {
        RefsAreMatches(t, toks, i + 1);
      }
    }
  }

  /** Every FROM/JOIN that heads a table is matched, unless an earlier match swallowed it as its table
      or alias: token `g` lies in the match `r` that spans tokens `h` to `last`. */
  lemma {:induction false} RefsComplete(t: string, toks: seq<Word>, i: nat, g: nat)
      returns (h: nat, last: nat, r: TableRef)
    requires TokensOf(t, toks)
    requires i <= g && Heads(t, toks, g)
    ensures r in RefsFrom(t, toks, i) && MatchAt(t, toks, h, last, r) && h <= g <= last
    decreases |toks| - i
  {
    hide Heads, AliasSlot, RefAt;
    if Heads(t, toks, i) {
      RefsHead(t, toks, i);
      h, last, r := i, AliasSlot(t, toks, i + 1).1, RefAt(t, toks, i);
      if g > last {
        h, last, r := RefsComplete(t, toks, last + 1, g);
      }
    } else {
      assert i != g;
      h, last, r := RefsComplete(t, toks, i + 1, g);
    }
  }

  /** The scan from token `i` stops at token `h` and finds a match there. */
  predicate Reports(t: string, toks: seq<Word>, i: nat, h: nat)
    requires TokensOf(t, toks)
    decreases |toks| - i
  {
    i < |toks| &&
    if Heads(t, toks, i) then h == i || Reports(t, toks, AliasSlot(t, toks, i + 1).1 + 1, h)
    else Reports(t, toks, i + 1, h)
  }

  lemma {:induction false} ReportsAhead(t: string, toks: seq<Word>, i: nat, h: nat)
    requires TokensOf(t, toks) && Reports(t, toks, i, h)
    ensures i <= h && Heads(t, toks, h)
    decreases |toks| - i
  {
    hide Heads, AliasSlot;
    if !Heads(t, toks, i) {
      ReportsAhead(t, toks, i + 1, h);
    } else if h != i {
      ReportsAhead(t, toks, AliasSlot(t, toks, i + 1).1 + 1, h);
    }
  }

  /** Tokens that a match has consumed are not looked at again. */
  lemma {:induction false} ConsumedIsSkipped(t: string, toks: seq<Word>, i: nat, h: nat, g: nat)
    requires TokensOf(t, toks) && Reports(t, toks, i, h) && Heads(t, toks, h)
    requires h < g <= AliasSlot(t, toks, h + 1).1
    ensures !Reports(t, toks, i, g)
    decreases |toks| - i
  {
    hide Heads, AliasSlot;
    if !Heads(t, toks, i) {
      ConsumedIsSkipped(t, toks, i + 1, h, g);
    } else {
      var next := AliasSlot(t, toks, i + 1).1 + 1;
      if h != i {
        ReportsAhead(t, toks, next, h);
        ConsumedIsSkipped(t, toks, next, h, g);
      } else if Reports(t, toks, next, g) {
        ReportsAhead(t, toks, next, g);
      }
    }
  }

  /** Tokens that start in order are told apart by where they start. */
  predicate InOrder(toks: seq<Word>) { forall j, k :: 0 <= j < k < |toks| ==> toks[j].start < toks[k].start }

  lemma SameHead(t: string, toks: seq<Word>, g: nat, h: nat)
    requires TokensOf(t, toks) && InOrder(toks) && Heads(t, toks, g) && Heads(t, toks, h)
    requires RefAt(t, toks, g) == RefAt(t, toks, h)
    ensures g == h
  {
    hide Heads, AliasSlot;
    assert toks[g].start == toks[h].start;
  }

  /** A match is in the result exactly when the scan stops at its head. */
  lemma {:induction false} ReportedRefs(t: string, toks: seq<Word>, i: nat, g: nat)
    requires TokensOf(t, toks) && InOrder(toks) && Heads(t, toks, g)
    ensures RefAt(t, toks, g) in RefsFrom(t, toks, i) <==> Reports(t, toks, i, g)
    decreases |toks| - i
  {
    hide Heads, AliasSlot, RefAt, InOrder;
    if i < |toks| {
      if Heads(t, toks, i) {
        var next := AliasSlot(t, toks, i + 1).1 + 1;
        RefsHead(t, toks, i);
        ReportedRefs(t, toks, next, g);
        if RefAt(t, toks, g) == RefAt(t, toks, i) {
          SameHead(t, toks, g, i);
        }
      } else {
        ReportedRefs(t, toks, i + 1, g);
      }
    }
  }

  lemma WordsInOrder(t: string)
    ensures InOrder(Words(t))
  {
    WordsExact(t, 0);
  }

  /** No FROM or JOIN with a table after it is itself the table or in the alias slot of another. */
  ghost predicate NoneSwallowed(t: string) {
    forall h: nat, g: nat :: Heads(t, Words(t), h) && h < g <= AliasSlot(t, Words(t), h + 1).1 ==>
      !Heads(t, Words(t), g)
  }

  /** Every FROM or JOIN that has a table after it. */
  ghost predicate AllSeen(t: string) {
    forall g: nat :: Heads(t, Words(t), g) ==> RefAt(t, Words(t), g) in Refs(t)
  }

  /** A head that is seen swallows none, if all are seen. */
  lemma SeenSwallowsNone(t: string, h: nat, g: nat)
    requires AllSeen(t) && Heads(t, Words(t), h) && h < g <= AliasSlot(t, Words(t), h + 1).1
    ensures !Heads(t, Words(t), g)
  {
    hide Heads, AliasSlot, RefAt, RefsFrom, Reports;
    WordsInOrder(t);
    if Heads(t, Words(t), g) {
      ReportedRefs(t, Words(t), 0, h);
      ReportedRefs(t, Words(t), 0, g);
      ConsumedIsSkipped(t, Words(t), 0, h, g);
    }
  }

  lemma UnswallowedIsSeen(t: string, g: nat)
    requires NoneSwallowed(t) && Heads(t, Words(t), g)
    ensures RefAt(t, Words(t), g) in Refs(t)
  {
    hide Heads, AliasSlot, RefAt, RefsFrom;
    var h, last, r := RefsComplete(t, Words(t), 0, g);
  }

  /** The matcher sees every table after a FROM or JOIN exactly when no such FROM or JOIN stands as the
      table or in the alias slot of another. */
  lemma AllTablesSeen(t: string)
    ensures AllSeen(t) <==> NoneSwallowed(t)
  {
    hide Heads, AliasSlot, RefAt, RefsFrom;
    if AllSeen(t) {
      forall h: nat, g: nat | Heads(t, Words(t), h) && h < g <= AliasSlot(t, Words(t), h + 1).1
        ensures !Heads(t, Words(t), g)
      {
        SeenSwallowsNone(t, h, g);
      }
    }
    if NoneSwallowed(t) {
      forall g: nat | Heads(t, Words(t), g) ensures RefAt(t, Words(t), g) in Refs(t) {
        UnswallowedIsSeen(t, g);
      }
    }
  }

  const SWALLOWING := "FROM a JOIN b"

  lemma WordsOfSwallowing()
    ensures Words(SWALLOWING) == [Word(0, 4), Word(5, 6), Word(7, 11), Word(12, 13)]
  {
    var t := SWALLOWING;
    RunEndIs(t, 0, 4);
    RunEndIs(t, 5, 6);
    RunEndIs(t, 7, 11);
    RunEndIs(t, 12, 13);
    assert WordsFrom(t, 13) == [];
    assert WordsFrom(t, 11) == WordsFrom(t, 12) == [Word(12, 13)];
    assert WordsFrom(t, 6) == WordsFrom(t, 7) == [Word(7, 11)] + WordsFrom(t, 11);
    assert WordsFrom(t, 4) == WordsFrom(t, 5) == [Word(5, 6)] + WordsFrom(t, 6);
    assert WordsFrom(t, 0) == [Word(0, 4)] + WordsFrom(t, 4);
  }

  /** Where a table goes unseen: the JOIN is taken for the alias of `a`. */
  lemma JoinIsSwallowed()
    ensures var t := SWALLOWING;
      && Heads(t, Words(t), 0) && Heads(t, Words(t), 2)
      && Refs(t) == [RefAt(t, Words(t), 0)] && RefAt(t, Words(t), 2) !in Refs(t)
    ensures !AllSeen(SWALLOWING) && !NoneSwallowed(SWALLOWING)
  {
    hide Words, Says, FollowsSpaced, NoneSwallowed, RefAt;
    var t, toks := SWALLOWING, Words(SWALLOWING);
    WordsOfSwallowing();
    SwallowingSays();
    SwallowingSpaces(toks);
    SwallowingScan(t, toks);
    WordsInOrder(t);
    if RefAt(t, toks, 0) == RefAt(t, toks, 2) {
      SameHead(t, toks, 0, 2);
    }
    assert !AllSeen(t);
    AllTablesSeen(t);
  }

  lemma SwallowingSays()
    ensures var t := SWALLOWING;
      && Says(t, Word(0, 4), "from") && Says(t, Word(7, 11), "join")
      && !Says(t, Word(7, 11), "as") && !Says(t, Word(12, 13), "from") && !Says(t, Word(12, 13), "join")
  {
    var t := SWALLOWING;
    assert t[0..4] == "FROM" && t[7..11] == "JOIN";
    assert Lower("FROM") == "from" && Lower("JOIN") == "join";
    assert |Lower(t[12..13])| == 1 && |Lower(t[7..11])| == 4;
  }

  lemma SwallowingSpaces(toks: seq<Word>)
    requires toks == [Word(0, 4), Word(5, 6), Word(7, 11), Word(12, 13)]
    ensures forall k :: 1 <= k <= 3 ==> FollowsSpaced(SWALLOWING, toks, k)
  {
  }

  lemma SwallowingScan(t: string, toks: seq<Word>)
    requires TokensOf(t, toks) && |toks| == 4
    requires Says(t, toks[0], "from") && Says(t, toks[2], "join") && !Says(t, toks[2], "as")
    requires !Says(t, toks[3], "from") && !Says(t, toks[3], "join")
    requires FollowsSpaced(t, toks, 1) && FollowsSpaced(t, toks, 2) && FollowsSpaced(t, toks, 3)
    ensures Heads(t, toks, 0) && Heads(t, toks, 2) && AliasSlot(t, toks, 1).1 == 2
    ensures RefsFrom(t, toks, 0) == [RefAt(t, toks, 0)]
  {
    hide Says, FollowsSpaced, RefAt;
    assert RefsFrom(t, toks, 4) == [];
    assert RefsFrom(t, toks, 3) == [];
    RefsHead(t, toks, 0);
  }

  lemma TokenBoundaries(t: string, k: nat)
    requires k < |Words(t)|
    ensures Boundary(t, Words(t)[k].start) && Boundary(t, Words(t)[k].end)
  {
    WordsExact(t, 0);
    var w := Words(t)[k];
    assert Word(w.start, w.end) in Words(t);
    assert IsRun(t, w.start, w.end);
  }

  lemma TokenOrder(t: string, j: nat, k: nat)
    requires j < k < |Words(t)|
    ensures Words(t)[j].end < Words(t)[k].start
  {
    WordsExact(t, 0);
  }

  lemma MatchBoundaries(t: string, h: nat, last: nat, r: TableRef)
    requires MatchAt(t, Words(t), h, last, r)
    ensures r.start < r.tableStart < r.tableEnd <= |t|
    ensures r.alias.Some? ==> r.tableEnd < r.alias.value.start < r.alias.value.end <= |t|
    ensures Boundary(t, r.start) && Boundary(t, r.tableEnd)
    ensures r.alias.Some? ==> Boundary(t, r.alias.value.end)
  {
    hide Heads;
    TokenBoundaries(t, h);
    TokenBoundaries(t, h + 1);
    TokenBoundaries(t, last);
    TokenOrder(t, h, h + 1);
    if last > h + 1 {
      TokenOrder(t, h + 1, last);
    }
  }

  /** The span a match declares lies between token boundaries of the text. */
  lemma RefBoundaries(t: string, r: TableRef)
    requires r in Refs(t)
    ensures r.start < r.tableStart < r.tableEnd <= |t|
    ensures Boundary(t, r.start) && Boundary(t, r.tableEnd)
    ensures r.alias.Some? ==> r.tableEnd < r.alias.value.start < r.alias.value.end <= |t|
    ensures r.alias.Some? ==> Boundary(t, r.alias.value.end)
  {
    hide Heads, AliasSlot, RefAt;
    RefsAreMatches(t, Words(t), 0);
    var h: nat, last: nat :| MatchAt(t, Words(t), h, last, r);
    MatchBoundaries(t, h, last, r);
  }

  // ---- a match, on tokens and characters ----

  /** At least one character, all of them ASCII blanks. */
  predicate Gap(t: string, from: nat, to: nat) {
    from < to <= |t| && forall k :: from <= k < to ==> t[k] in " \t\n\r\U{0C}"
  }

  /** A token that starts with a letter or an underscore, with nothing but blanks before it. */
  predicate Name(t: string, toks: seq<Word>, k: nat) {
    && 0 < k < |toks| && Gap(t, toks[k - 1].end, toks[k].start) && toks[k].start < |t|
    && ('a' <= t[toks[k].start] <= 'z' || 'A' <= t[toks[k].start] <= 'Z' || t[toks[k].start] == '_')
  }

  /** The token is this word, each letter in either case. */
  predicate Reads(t: string, w: Word, word: string) {
    && w.start <= w.end <= |t| && w.end - w.start == |word|
    && forall i :: 0 <= i < |word| ==>
         t[w.start + i] == word[i] || (t[w.start + i] as int + 32 == word[i] as int && 'A' <= t[w.start + i] <= 'Z')
  }

  lemma NameIs(t: string, toks: seq<Word>, k: nat)
    ensures FollowsSpaced(t, toks, k) <==> Name(t, toks, k)
  {
  }

  lemma LettersRead(t: string, w: Word, word: string)
    requires w.start <= w.end <= |t| && forall i :: 0 <= i < |word| ==> 'a' <= word[i] <= 'z'
    ensures Says(t, w, word) <==> Reads(t, w, word)
  {
    var text := WordText(t, w);
    assert |Lower(text)| == w.end - w.start;
    assert forall i :: 0 <= i < |text| ==> text[i] == t[w.start + i] && Lower(text)[i] == LowerChar(t[w.start + i]);
    if Reads(t, w, word) {
      assert Lower(text) == word;
    }
  }

  lemma SaysReads(t: string, w: Word)
    requires w.start <= w.end <= |t|
    ensures Says(t, w, "from") <==> Reads(t, w, "from")
    ensures Says(t, w, "join") <==> Reads(t, w, "join")
    ensures Says(t, w, "as") <==> Reads(t, w, "as")
  {
    hide Says, Reads;
    LettersRead(t, w, "from");
    LettersRead(t, w, "join");
    LettersRead(t, w, "as");
  }

  /** Token `h` is FROM or JOIN, and a name stands behind it. */
  predicate OpensMatch(t: string, toks: seq<Word>, h: nat) {
    h < |toks| && (Reads(t, toks[h], "from") || Reads(t, toks[h], "join")) && Name(t, toks, h + 1)
  }

  lemma OpensIs(t: string, toks: seq<Word>, h: nat)
    requires TokensOf(t, toks)
    ensures Heads(t, toks, h) <==> OpensMatch(t, toks, h)
  {
    hide Says, Reads, FollowsSpaced, Name;
    NameIs(t, toks, h + 1);
    if h < |toks| {
      SaysReads(t, toks[h]);
    }
  }

  /** The alias behind a table at token `k`: a name that is not AS, or the name behind an AS. */
  function AliasAt(t: string, toks: seq<Word>, k: nat): (at: Option<nat>)
    ensures at.Some? ==> at.value < |toks|
  {
    if !Name(t, toks, k + 1) then None
    else if !Reads(t, toks[k + 1], "as") then Some(k + 1)
    else if Name(t, toks, k + 2) then Some(k + 2)
    else None
  }

  lemma AliasIs(t: string, toks: seq<Word>, k: nat)
    requires TokensOf(t, toks) && k < |toks|
    ensures var at := AliasAt(t, toks, k);
      AliasSlot(t, toks, k) == if at.Some? then (Some(toks[at.value]), at.value) else (None, k)
  {
    hide Says, Reads;
    NameIs(t, toks, k + 1);
    NameIs(t, toks, k + 2);
    if k + 1 < |toks| {
      SaysReads(t, toks[k + 1]);
    }
  }

  /** What the scan does at a token: it passes one that opens no match; at one that does, it takes the name behind
      it for the table, the alias if there is one, and goes on behind whatever it has taken. */
  lemma ScanReads(t: string, toks: seq<Word>, h: nat)
    requires TokensOf(t, toks) && h < |toks|
    ensures !OpensMatch(t, toks, h) ==> RefsFrom(t, toks, h) == RefsFrom(t, toks, h + 1)
    ensures OpensMatch(t, toks, h) ==>
      var at := AliasAt(t, toks, h + 1);
      var r := TableRef(toks[h].start, toks[h + 1].start, toks[h + 1].end,
                        if at.Some? then Some(toks[at.value]) else None);
      RefsFrom(t, toks, h) == [r] + RefsFrom(t, toks, if at.Some? then at.value + 1 else h + 2)
    ensures RefsFrom(t, toks, |toks|) == []
  {
    hide Heads, AliasSlot, OpensMatch, AliasAt;
    OpensIs(t, toks, h);
    if OpensMatch(t, toks, h) {
      AliasIs(t, toks, h + 1);
      RefsHead(t, toks, h);
      assert RefAt(t, toks, h) ==
        TableRef(toks[h].start, toks[h + 1].start, toks[h + 1].end, AliasSlot(t, toks, h + 1).0);
    }
  }

  /** A table with its alias behind AS: the alias is the name behind AS, and AS itself is not. */
  lemma AliasBehindAs(t: string, toks: seq<Word>, h: nat)
    requires TokensOf(t, toks) && OpensMatch(t, toks, h)
    requires Name(t, toks, h + 2) && Reads(t, toks[h + 2], "as") && Name(t, toks, h + 3)
    ensures RefsFrom(t, toks, h) ==
      [TableRef(toks[h].start, toks[h + 1].start, toks[h + 1].end, Some(toks[h + 3]))] + RefsFrom(t, toks, h + 4)
  {
    hide Name, Reads, RefsFrom;
    ScanReads(t, toks, h);
  }
}
