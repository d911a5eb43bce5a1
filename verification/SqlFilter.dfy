/** The verdict of the SQL filter validator (src/rls.rs, `validate_sql`): an imperative pass over a
    blanked buffer, and the declarative acceptance condition it decides. */
module SqlFilter {
  import opened RustEscapes
  import opened Text
  import opened SqlText
  import opened SqlLiterals
  import opened SqlRefs
  import opened SqlScope

  // ---- what is left after blanking ----

  predicate InSpans(spans: seq<Word>, k: nat) {
    exists j :: 0 <= j < |spans| && spans[j].start <= k < spans[j].end
  }

  /** Covered by a parameter, a table declaration or a qualified name. */
  ghost predicate Covered(t: string, spans: seq<Word>, k: nat)
    requires k < |t|
  {
    InParameter(t, k) || InSpans(spans, k)
  }

  ghost function Remaining(t: string, spans: seq<Word>): (r: string)
    ensures |r| == |t|
    ensures forall k :: 0 <= k < |t| ==> r[k] == if Covered(t, spans, k) then ' ' else t[k]
  {
    seq(|t|, k requires 0 <= k < |t| => if Covered(t, spans, k) then ' ' else t[k])
  }

  lemma OneMoreSpan(spans: seq<Word>, j: nat)
    requires j < |spans|
    ensures forall k: nat ::
      InSpans(spans[..j + 1], k) <==> InSpans(spans[..j], k) || spans[j].start <= k < spans[j].end
  {
    var more, less := spans[..j + 1], spans[..j];
    forall k: nat ensures InSpans(more, k) <==> InSpans(less, k) || spans[j].start <= k < spans[j].end {
      if InSpans(more, k) {
        var i :| 0 <= i < |more| && more[i].start <= k < more[i].end;
        assert i == j || less[i] == more[i];
      }
      if InSpans(less, k) {
        var i :| 0 <= i < |less| && less[i].start <= k < less[i].end;
        assert more[i] == less[i];
      }
      if spans[j].start <= k < spans[j].end {
        assert more[j] == spans[j];
      }
    }
  }

  method BlankCovered(t: string, spans: seq<Word>) returns (remaining: string)
    requires forall w :: w in spans ==> w.start <= w.end <= |t|
    ensures remaining == Remaining(t, spans)
  {
    var buffer := new char[|t|];
    forall k | 0 <= k < |t| { buffer[k] := t[k]; }
    assert buffer[..] == t;
    BlankParameters(buffer);
    for j := 0 to |spans|
      invariant forall k :: 0 <= k < |t| ==>
        buffer[k] == if InParameter(t, k) || InSpans(spans[..j], k) then ' ' else t[k]
    {
      OneMoreSpan(spans, j);
      Blank(buffer, spans[j].start, spans[j].end);
    }
    assert spans[..|spans|] == spans;
    remaining := buffer[..];
  }

  /** Spans that never cut a token in two. */
  ghost predicate WholeTokens(t: string, spans: seq<Word>) {
    forall j :: 0 <= j < |spans| ==> Boundary(t, spans[j].start) && Boundary(t, spans[j].end)
  }

  lemma {:induction false} ParameterCoversToken(t: string, a: nat, b: nat, k: nat)
    requires IsRun(t, a, b) && a <= k < b
    ensures InParameter(t, k) <==> a > 0 && ParamStart(t, a - 1)
  {
    if k > a {
      ParameterCoversToken(t, a, b, k - 1);
    }
  }

  lemma SpanCoversToken(t: string, w: Word, a: nat, b: nat, k: nat)
    requires IsRun(t, a, b) && a <= k < b
    requires Boundary(t, w.start) && Boundary(t, w.end)
    ensures w.start <= k < w.end <==> w.start <= a < w.end
  {
  }

  lemma CoverIsWhole(t: string, spans: seq<Word>, a: nat, b: nat, k: nat)
    requires WholeTokens(t, spans) && IsRun(t, a, b) && a <= k < b
    ensures Covered(t, spans, k) <==> Covered(t, spans, a)
  {
    ParameterCoversToken(t, a, b, k);
    ParameterCoversToken(t, a, b, a);
    forall j | 0 <= j < |spans|
      ensures spans[j].start <= k < spans[j].end <==> spans[j].start <= a < spans[j].end
    {
      SpanCoversToken(t, spans[j], a, b, k);
    }
  }

  lemma RemainingAligned(t: string, spans: seq<Word>)
    requires WholeTokens(t, spans)
    ensures Aligned(t, Remaining(t, spans))
  {
    var m := Remaining(t, spans);
    forall a: nat, b: nat | IsRun(t, a, b)
      ensures (forall k :: a <= k < b ==> m[k] == t[k]) || (forall k :: a <= k < b ==> !IsWordByte(m[k]))
    {
      forall k | a <= k < b ensures Covered(t, spans, k) <==> Covered(t, spans, a) {
        CoverIsWhole(t, spans, a, b, k);
      }
    }
  }

  /** The tokens of the remaining text are exactly the uncovered tokens of the whole text. */
  lemma RemainingWords(t: string, spans: seq<Word>)
    requires WholeTokens(t, spans)
    ensures forall w :: w in Words(Remaining(t, spans)) <==> w in Words(t) && !Covered(t, spans, w.start)
    ensures forall w :: w in Words(Remaining(t, spans)) ==>
      WordText(Remaining(t, spans), w) == WordText(t, w)
  {
    var m := Remaining(t, spans);
    RemainingAligned(t, spans);
    BlankedWords(t, m, 0);
    WordsExact(t, 0);
    forall w | w in Words(t)
      ensures IsWordByte(m[w.start]) <==> !Covered(t, spans, w.start)
      ensures !Covered(t, spans, w.start) ==> WordText(m, w) == WordText(t, w)
    {
      assert Word(w.start, w.end) in Words(t);
      RemainingRun(t, spans, w);
    }
  }

  lemma RemainingRun(t: string, spans: seq<Word>, w: Word)
    requires WholeTokens(t, spans) && IsRun(t, w.start, w.end)
    ensures IsWordByte(Remaining(t, spans)[w.start]) <==> !Covered(t, spans, w.start)
    ensures !Covered(t, spans, w.start) ==> WordText(Remaining(t, spans), w) == WordText(t, w)
  {
    var m := Remaining(t, spans);
    if !Covered(t, spans, w.start) {
      forall k | w.start <= k < w.end ensures m[k] == t[k] {
        CoverIsWhole(t, spans, w.start, w.end, k);
      }
      assert m[w.start..w.end] == t[w.start..w.end];
    }
  }

  // ---- names outside every span ----

  /** The length of the Unicode whitespace character encoded at `p`, or 0. */
  function SpaceLen(m: string, p: nat): nat
    requires p < |m|
  {
    if '\t' <= m[p] <= '\r' || m[p] == ' ' then 1
    else if p + 1 < |m| && m[p] == '\U{C2}' && (m[p + 1] == '\U{85}' || m[p + 1] == '\U{A0}') then 2
    else if p + 2 >= |m| then 0
    else if m[p] == '\U{E1}' && m[p + 1] == '\U{9A}' && m[p + 2] == '\U{80}' then 3
    else if m[p] == '\U{E2}' && m[p + 1] == '\U{80}' &&
      ('\U{80}' <= m[p + 2] <= '\U{8A}' || m[p + 2] == '\U{A8}' || m[p + 2] == '\U{A9}' || m[p + 2] == '\U{AF}') then 3
    else if m[p] == '\U{E2}' && m[p + 1] == '\U{81}' && m[p + 2] == '\U{9F}' then 3
    else if m[p] == '\U{E3}' && m[p + 1] == '\U{80}' && m[p + 2] == '\U{80}' then 3
    else 0
  }

  /** `tail.trim_start().starts_with('(')` over the UTF-8 bytes from `p`. */
  predicate ParenFollows(m: string, p: nat)
    decreases |m| - p
  {
    p < |m| && if SpaceLen(m, p) > 0 then ParenFollows(m, p + SpaceLen(m, p)) else m[p] == '('
  }

  /** A bare name the filter may use. */
  predicate Resolves(m: string, w: Word, scope: Scope, schema: Schema)
    requires w.start <= w.end <= |m| && Grounded(scope, schema)
  {
    var name := WordText(m, w);
    || IsKeyword(name) || name in scope.aliases || name in scope.referenced
    || ParenFollows(m, w.end)
    || exists table :: table in scope.referenced && name in schema[table]
  }

  /** The columns of all referenced tables. */
  function ColumnsOf(scope: Scope, schema: Schema): set<string>
    requires Grounded(scope, schema)
  {
    set table, column | table in scope.referenced && column in schema[table] :: column
  }

  function Leftovers(m: string, toks: seq<Word>, scope: Scope, schema: Schema): (errors: seq<FilterError>)
    requires TokensOf(m, toks) && Grounded(scope, schema)
    ensures errors == [] <==>
      forall w :: w in toks && IsIdentifier(m, w) ==> Resolves(m, w, scope, schema)
  {
    if toks == [] then []
    else
      var before, w := Leftovers(m, toks[..|toks| - 1], scope, schema), toks[|toks| - 1];
      assert toks == toks[..|toks| - 1] + [w];
      if IsIdentifier(m, w) && !Resolves(m, w, scope, schema) then before + [UnreferencedColumn(WordText(m, w))]
      else before
  }

  method CheckLeftovers(m: string, scope: Scope, schema: Schema) returns (errors: seq<FilterError>)
    requires Grounded(scope, schema)
    ensures errors == Leftovers(m, Words(m), scope, schema)
  {
    hide Leftovers, WordsFrom, Grounded, IsKeyword, ParenFollows, WordText;
    var columns := ColumnsOf(scope, schema);
    var toks := ScanWords(m);
    errors := [];
    NoLeftovers(m, scope, schema);
    for k := 0 to |toks|
      invariant errors == Leftovers(m, toks[..k], scope, schema)
    {
      LeftoversStep(m, toks, k, scope, schema);
      if !IsIdentifier(m, toks[k]) {
        continue;
      }
      var name := WordText(m, toks[k]);
      if IsKeyword(name) || name in scope.aliases || name in scope.referenced {
        continue;
      }
      if ParenFollows(m, toks[k].end) {
        continue;
      }
      if name !in columns {
        errors := errors + [UnreferencedColumn(name)];
      }
    }
    assert toks[..|toks|] == toks;
  }

  lemma NoLeftovers(m: string, scope: Scope, schema: Schema)
    requires Grounded(scope, schema)
    ensures Leftovers(m, [], scope, schema) == []
  {
  }

  /** One more token of the pass; what a name resolves to is looked up in the column set. */
  lemma LeftoversStep(m: string, toks: seq<Word>, k: nat, scope: Scope, schema: Schema)
    requires TokensOf(m, toks) && k < |toks| && Grounded(scope, schema)
    ensures var w, before := toks[k], Leftovers(m, toks[..k], scope, schema);
      var name := WordText(m, w);
      Leftovers(m, toks[..k + 1], scope, schema) ==
        if IsIdentifier(m, w) && !(IsKeyword(name) || name in scope.aliases || name in scope.referenced ||
                                   ParenFollows(m, w.end) || name in ColumnsOf(scope, schema))
        then before + [UnreferencedColumn(name)] else before
  {
    hide IsKeyword, ParenFollows, WordText, IsIdentifier;
    assert toks[..k + 1][..k] == toks[..k] && toks[..k + 1][k] == toks[k];
  }

  // ---- the verdict ----

  lemma RefsInText(t: string)
    ensures AllInText(t, Refs(t))
    ensures forall r :: r in Refs(t) ==> Boundary(t, SpanOf(t, r).start) && Boundary(t, SpanOf(t, r).end)
    ensures forall r :: r in Refs(t) ==> SpanOf(t, r).start < SpanOf(t, r).end <= |t|
  {
    forall r | r in Refs(t)
      ensures InText(t, r) && SpanOf(t, r).start < SpanOf(t, r).end <= |t|
      ensures Boundary(t, SpanOf(t, r).start) && Boundary(t, SpanOf(t, r).end)
    {
      RefBoundaries(t, r);
    }
  }

  function Pairs(t: string): seq<Pair> { PairsFrom(t, Words(t), 0) }

  /** Every declaration span, then every qualified span. */
  function CoverOf(t: string): seq<Word> {
    RefsInText(t);
    seq(|Refs(t)|, k requires 0 <= k < |Refs(t)| => SpanOf(t, Refs(t)[k])) + Spans(Pairs(t))
  }

  lemma CoverWhole(t: string)
    ensures WholeTokens(t, CoverOf(t))
    ensures forall w :: w in CoverOf(t) ==> w.start <= w.end <= |t|
  {
    hide RefsFrom, PairsFrom, WordsFrom, SpanOf, Boundary;
    RefsInText(t);
    forall j | 0 <= j < |CoverOf(t)|
      ensures Boundary(t, CoverOf(t)[j].start) && Boundary(t, CoverOf(t)[j].end)
      ensures CoverOf(t)[j].start <= CoverOf(t)[j].end <= |t|
    {
      if j < |Refs(t)| {
        assert Refs(t)[j] in Refs(t);
      } else {
        PairBoundaries(t, 0, Pairs(t)[j - |Refs(t)|]);
      }
    }
  }

  ghost function Errors(sql: string, schema: Schema): seq<FilterError> {
    var t := BlankStrings(sql);
    if Refs(t) == [] then [NoFromTable]
    else
      RefsInText(t);
      var scope := ScopeOf(t, Refs(t), schema);
      var remaining := Remaining(t, CoverOf(t));
      scope.errors + AllPairErrors(Pairs(t), scope, schema) + Leftovers(remaining, Words(remaining), scope, schema)
  }

  method ValidateSql(sql: string, schema: Schema) returns (errors: seq<FilterError>)
    ensures errors == Errors(sql, schema)
  {
    hide ScopeOf, Leftovers, AllPairErrors, WordsFrom, RefsFrom, PairsFrom, Remaining, BlankStrings;
    var buffer := new char[|sql|];
    forall k | 0 <= k < |sql| { buffer[k] := sql[k]; }
    assert buffer[..] == sql;
    BlankSqlStrings(buffer);
    var t := buffer[..];
    var toks := ScanWords(t);
    var refs := TableRefs(t, toks);
    if refs == [] {
      return [NoFromTable];
    }
    RefsInText(t);
    var scope := DeclareTables(t, refs, schema);
    var qualified, pairErrors, _ := QualifiedPairs(t, toks, scope, schema);
    ScopeSpans(t, refs, schema);
    CoverWhole(t);
    assert scope.spans + qualified == CoverOf(t);
    var remaining := BlankCovered(t, scope.spans + qualified);
    var rest := CheckLeftovers(remaining, scope, schema);
    errors := scope.errors + pairErrors + rest;
  }

  /** What a bare name may be, without the alias map. */
  ghost predicate Named(t: string, m: string, w: Word, schema: Schema)
    requires AllInText(t, Refs(t)) && AllKnown(t, Refs(t), schema) && w.start <= w.end <= |m|
  {
    var name := WordText(m, w);
    || IsKeyword(name) || Owner(t, Refs(t), name).Some?
    || ParenFollows(m, w.end)
    || exists r :: r in Refs(t) && name in schema[TableOf(t, r)]
  }

  /** A pair's owner is a declared table or alias, and its table has the column, if it names one. */
  ghost predicate PairResolves(t: string, p: Pair, schema: Schema)
    requires AllInText(t, Refs(t))
  {
    var table := Owner(t, Refs(t), p.owner);
    table.Some? && (p.column == "*" || (table.value in schema && p.column in schema[table.value]))
  }

  /** Acceptance, stated without scanning order: some table is referenced and all of them exist; every
      qualified name's owner is a declared table or alias of which the column exists; every other
      identifier outside the covered spans is accounted for. */
  ghost predicate Accepts(sql: string, schema: Schema) {
    var t := BlankStrings(sql);
    RefsInText(t);
    && Refs(t) != []
    && AllKnown(t, Refs(t), schema)
    && (forall p :: p in Pairs(t) ==> PairResolves(t, p, schema))
    && (forall w :: w in Words(t) && IsIdentifier(t, w) && !Covered(t, CoverOf(t), w.start) ==>
          Named(t, Remaining(t, CoverOf(t)), w, schema))
  }

  /** A table a name resolves to is the table of some reference. */
  lemma {:induction false} OwnerIsReferenced(t: string, refs: seq<TableRef>, name: string)
    requires AllInText(t, refs)
    ensures Owner(t, refs, name).Some? ==> exists r :: r in refs && TableOf(t, r) == Owner(t, refs, name).value
    ensures (exists r :: r in refs && TableOf(t, r) == name) ==> Owner(t, refs, name).Some?
  {
    if refs != [] {
      OwnerIsReferenced(t, refs[..|refs| - 1], name);
      assert refs == refs[..|refs| - 1] + [refs[|refs| - 1]];
    }
  }

  lemma PairsAccepted(t: string, schema: Schema)
    requires AllInText(t, Refs(t)) && AllKnown(t, Refs(t), schema)
    ensures AllPairErrors(Pairs(t), ScopeOf(t, Refs(t), schema), schema) == [] <==>
      forall p :: p in Pairs(t) ==> PairResolves(t, p, schema)
  {
    ScopeMeans(t, Refs(t), schema);
    var scope := ScopeOf(t, Refs(t), schema);
    forall p | p in Pairs(t)
      ensures PairErrors(p, scope, schema) == [] <==> PairResolves(t, p, schema)
    {
      assert Owner(t, Refs(t), p.owner) == if p.owner in scope.aliases then Some(scope.aliases[p.owner]) else None;
    }
  }

  lemma NameAccepted(t: string, m: string, w: Word, schema: Schema)
    requires AllInText(t, Refs(t)) && AllKnown(t, Refs(t), schema) && w.start <= w.end <= |m|
    ensures Resolves(m, w, ScopeOf(t, Refs(t), schema), schema) <==> Named(t, m, w, schema)
  {
    ScopeMeans(t, Refs(t), schema);
    OwnerIsReferenced(t, Refs(t), WordText(m, w));
    var scope, name := ScopeOf(t, Refs(t), schema), WordText(m, w);
    assert Owner(t, Refs(t), name) == if name in scope.aliases then Some(scope.aliases[name]) else None;
  }

  lemma LeftoversAccepted(t: string, schema: Schema)
    requires AllInText(t, Refs(t)) && AllKnown(t, Refs(t), schema)
    ensures
      var m := Remaining(t, CoverOf(t));
      Leftovers(m, Words(m), ScopeOf(t, Refs(t), schema), schema) == [] <==>
        forall w :: w in Words(t) && IsIdentifier(t, w) && !Covered(t, CoverOf(t), w.start) ==> Named(t, m, w, schema)
  {
    CoverWhole(t);
    RemainingWords(t, CoverOf(t));
    var m, scope := Remaining(t, CoverOf(t)), ScopeOf(t, Refs(t), schema);
    forall w | w in Words(m)
      ensures Resolves(m, w, scope, schema) <==> Named(t, m, w, schema)
      ensures IsIdentifier(m, w) <==> IsIdentifier(t, w)
    {
      NameAccepted(t, m, w, schema);
      assert WordText(m, w)[0] == WordText(t, w)[0];
    }
  }

  /** The validator reports nothing exactly when the filter is acceptable. */
  lemma ValidatorDecides(sql: string, schema: Schema)
    ensures Errors(sql, schema) == [] <==> Accepts(sql, schema)
  {
    var t := BlankStrings(sql);
    if Refs(t) != [] {
      RefsInText(t);
      ScopeMeans(t, Refs(t), schema);
      if AllKnown(t, Refs(t), schema) {
        PairsAccepted(t, schema);
        LeftoversAccepted(t, schema);
      }
    }
  }

  /** Adding tables or columns never turns an accepted filter into a rejected one. */
  lemma AcceptanceSurvivesGrowth(sql: string, schema: Schema, larger: Schema)
    requires Accepts(sql, schema)
    requires forall table :: table in schema ==> table in larger && schema[table] <= larger[table]
    ensures Accepts(sql, larger)
  {
    RefsInText(BlankStrings(sql));
  }

  /** Rewriting the contents of closed string literals, with the quotes left in place, never changes
      the verdict. */
  lemma LiteralContentsIrrelevant(sql: string, other: string, schema: Schema)
    requires |sql| == |other|
    requires forall k :: 0 <= k < |sql| ==> (sql[k] == '\'' <==> other[k] == '\'')
    requires forall k :: 0 <= k < |sql| && !InClosedLiteral(sql, k) ==> sql[k] == other[k]
    ensures Errors(sql, schema) == Errors(other, schema)
  {
    LiteralContentsUnread(sql, other);
  }

  // ---- a table that nobody checks ----

  lemma {:induction false} NoDotsNoPairs(t: string, toks: seq<Word>, k: nat)
    requires TokensOf(t, toks) && '.' !in t
    ensures PairsFrom(t, toks, k) == []
    decreases |toks| - k
  {
    hide SkipSpace;
    if k < |toks| {
      NoDotsNoPairs(t, toks, k + 1);
    }
  }

  lemma NamesIfUncovered(t: string, w: Word, schema: Schema)
    requires AllInText(t, Refs(t)) && AllKnown(t, Refs(t), schema)
    requires w in Words(t) && !Covered(t, CoverOf(t), w.start)
    requires IsKeyword(WordText(t, w)) || exists r :: r in Refs(t) && WordText(t, w) in schema[TableOf(t, r)]
    ensures Named(t, Remaining(t, CoverOf(t)), w, schema)
  {
    hide CoverOf, Remaining, Covered, Words, Refs, IsKeyword, ParenFollows;
    CoverWhole(t);
    RemainingWords(t, CoverOf(t));
  }

  /** The only table of the text is `a`; the slot behind it holds a keyword. */
  lemma SwallowingRefs()
    ensures var t := SWALLOWING;
      && |Refs(t)| == 1 && AllInText(t, Refs(t)) && TableOf(t, Refs(t)[0]) == "a"
      && SpanOf(t, Refs(t)[0]) == Word(0, 6) && CoverOf(t) == [Word(0, 6)]
  {
    hide RefsFrom, PairsFrom, WordsFrom, Heads, NoneSwallowed, AllSeen;
    var t := SWALLOWING;
    WordsOfSwallowing();
    SwallowingSays();
    SwallowingSpaces(Words(t));
    JoinIsSwallowed();
    RefsInText(t);
    assert RefAt(t, Words(t), 0) == TableRef(0, 5, 6, Some(Word(7, 11)));
    assert IsKeyword(t[7..11]) by { assert t[7..11] == "JOIN" && Lower("JOIN") == "join"; }
    assert t[5..6] == "a";
    NoDotsNoPairs(t, Words(t), 0);
  }

  /** A table behind a swallowed JOIN is never looked up: this filter passes although there is no `b`. */
  lemma UnknownTablePasses()
    ensures var schema: Schema := map["a" := {"b"}]; "b" !in schema && Errors(SWALLOWING, schema) == []
  {
    hide RefsFrom, PairsFrom, WordsFrom, BlankFrom, CoverOf, Remaining, Named, Errors, IsKeyword;
    var t, schema: Schema := SWALLOWING, map["a" := {"b"}];
    assert forall k :: 0 <= k < |t| ==> t[k] != '\'';
    NothingCloses(t, 0, |t|);
    assert BlankStrings(t) == t;
    SwallowingRefs();
    WordsOfSwallowing();
    NoDotsNoPairs(t, Words(t), 0);
    forall w | w in Words(t) && IsIdentifier(t, w) && !Covered(t, CoverOf(t), w.start)
      ensures Named(t, Remaining(t, CoverOf(t)), w, schema)
    {
      SwallowingWord(t, w, schema);
      NamesIfUncovered(t, w, schema);
    }
    ValidatorDecides(t, schema);
  }

  lemma SwallowingWord(t: string, w: Word, schema: Schema)
    requires t == SWALLOWING && schema == map["a" := {"b"}] && AllInText(t, Refs(t)) && AllKnown(t, Refs(t), schema)
    requires w in Words(t) && !Covered(t, CoverOf(t), w.start)
    ensures IsKeyword(WordText(t, w)) || exists r :: r in Refs(t) && WordText(t, w) in schema[TableOf(t, r)]
  {
    hide RefsFrom, WordsFrom, PairsFrom, CoverOf;
    WordsOfSwallowing();
    SwallowingRefs();
    assert t[7..11] == "JOIN" && Lower("JOIN") == "join" && t[12..13] == "b";
    assert InSpans([Word(0, 6)], 0) && InSpans([Word(0, 6)], 5) by { assert [Word(0, 6)][0] == Word(0, 6); }
    assert Refs(t)[0] in Refs(t);
  }

  // ---- every error, and nothing else ----

  /** The bytes of a `:parameter`, of a declaration, or of a pair. */
  ghost predicate Inside(t: string, k: nat)
    requires k < |t| && AllInText(t, Refs(t))
  {
    || (exists p: nat :: Parameter(t, p, k))
    || (exists r :: r in Refs(t) && SpanOf(t, r).start <= k < SpanOf(t, r).end)
    || (exists p :: p in Pairs(t) && p.span.start <= k < p.span.end)
  }

  lemma InSpansConcat(a: seq<Word>, b: seq<Word>, k: nat)
    ensures InSpans(a + b, k) <==> InSpans(a, k) || InSpans(b, k)
  {
    if j :| 0 <= j < |a| && a[j].start <= k < a[j].end {
      assert (a + b)[j] == a[j];
    }
    if j :| 0 <= j < |b| && b[j].start <= k < b[j].end {
      assert (a + b)[|a| + j] == b[j];
    }
  }

  /** What the blanking before the last loop covers. */
  lemma CoverMeans(t: string, k: nat)
    requires k < |t| && AllInText(t, Refs(t))
    ensures Covered(t, CoverOf(t), k) <==> Inside(t, k)
  {
    hide RefsFrom, PairsFrom, SpanOf, Parameter, InParameter;
    ParameterBytes(t, k);
    var declared := seq(|Refs(t)|, i requires 0 <= i < |Refs(t)| => SpanOf(t, Refs(t)[i]));
    InSpansConcat(declared, Spans(Pairs(t)), k);
    if r :| r in Refs(t) && SpanOf(t, r).start <= k < SpanOf(t, r).end {
      var i :| 0 <= i < |Refs(t)| && Refs(t)[i] == r;
      assert declared[i] == SpanOf(t, r);
    }
    if p :| p in Pairs(t) && p.span.start <= k < p.span.end {
      var i :| 0 <= i < |Pairs(t)| && Pairs(t)[i] == p;
      assert Spans(Pairs(t))[i] == p.span;
    }
  }

  /** A word that nothing accounts for: no keyword, no known table or alias, no column of a known table, and no
      parenthesis behind it once everything covered is blank. */
  ghost predicate Unaccounted(t: string, w: Word, schema: Schema)
    requires AllInText(t, Refs(t)) && w.start <= w.end <= |t|
  {
    var name := WordText(t, w);
    && w in Words(t) && w.start < |t| && IsIdentStart(t[w.start]) && !Inside(t, w.start)
    && !IsKeyword(name) && KnownOwner(t, Refs(t), schema, name).None?
    && !ParenFollows(Remaining(t, CoverOf(t)), w.end)
    && forall r :: r in Refs(t) && TableOf(t, r) in schema ==> name !in schema[TableOf(t, r)]
  }

  /** What each error stands for. */
  ghost predicate Reported(t: string, schema: Schema, e: FilterError)
    requires AllInText(t, Refs(t))
  {
    match e
    case NoFromTable => false
    case UnknownTable(table) => table !in schema && IsTable(t, Refs(t), table)
    case UnknownOwner(owner) =>
      exists p :: p in Pairs(t) && p.owner == owner && KnownOwner(t, Refs(t), schema, owner).None?
    case NoSuchColumn(table, column) =>
      && table in schema && column != "*" && column !in schema[table]
      && exists p :: p in Pairs(t) && p.column == column && KnownOwner(t, Refs(t), schema, p.owner) == Some(table)
    case UnreferencedColumn(name) =>
      exists w :: w in Words(t) && w.start <= w.end <= |t| && Unaccounted(t, w, schema) && WordText(t, w) == name
  }

  lemma {:induction false} PairErrorsMember(pairs: seq<Pair>, scope: Scope, schema: Schema, e: FilterError)
    requires Grounded(scope, schema)
    ensures e in AllPairErrors(pairs, scope, schema) <==> exists p :: p in pairs && e in PairErrors(p, scope, schema)
  {
    hide PairErrors, Grounded;
    if pairs != [] {
      PairErrorsMember(pairs[1..], scope, schema, e);
      assert pairs == [pairs[0]] + pairs[1..];
    }
  }

  /** The error is about this pair. */
  ghost predicate PairReports(t: string, schema: Schema, p: Pair, e: FilterError)
    requires AllInText(t, Refs(t))
  {
    var table := KnownOwner(t, Refs(t), schema, p.owner);
    if table.None? then e == UnknownOwner(p.owner)
    else
      table.value in schema && p.column != "*" && p.column !in schema[table.value] &&
      e == NoSuchColumn(table.value, p.column)
  }

  lemma PairReportsExactly(t: string, schema: Schema, p: Pair, e: FilterError)
    requires AllInText(t, Refs(t)) && Grounded(ScopeOf(t, Refs(t), schema), schema)
    ensures e in PairErrors(p, ScopeOf(t, Refs(t), schema), schema) <==> PairReports(t, schema, p, e)
  {
    hide RefsFrom, PairsFrom, ScopeOf, KnownOwner, IsTable, PairErrors;
    ScopeResolves(t, Refs(t), schema);
    PairErrorsAre(p, ScopeOf(t, Refs(t), schema), schema);
  }

  lemma ReportedByPair(t: string, schema: Schema, e: FilterError)
    requires AllInText(t, Refs(t))
    ensures (e.UnknownOwner? || e.NoSuchColumn?) && Reported(t, schema, e) <==>
      exists p :: p in Pairs(t) && PairReports(t, schema, p, e)
  {
    hide RefsFrom, PairsFrom, KnownOwner, IsTable, Unaccounted;
    if p :| p in Pairs(t) && PairReports(t, schema, p, e) {
      assert Reported(t, schema, e);
    }
  }

  lemma PairsReport(t: string, schema: Schema, e: FilterError)
    requires AllInText(t, Refs(t))
    ensures e in AllPairErrors(Pairs(t), ScopeOf(t, Refs(t), schema), schema) <==>
      (e.UnknownOwner? || e.NoSuchColumn?) && Reported(t, schema, e)
  {
    hide RefsFrom, PairsFrom, ScopeOf, Reported, PairReports, PairErrors;
    var scope := ScopeOf(t, Refs(t), schema);
    PairErrorsMember(Pairs(t), scope, schema, e);
    forall p | p in Pairs(t) ensures e in PairErrors(p, scope, schema) <==> PairReports(t, schema, p, e) {
      PairReportsExactly(t, schema, p, e);
    }
    ReportedByPair(t, schema, e);
  }

  lemma {:induction false} LeftoversMember(
      m: string, toks: seq<Word>, scope: Scope, schema: Schema, e: FilterError)
    requires TokensOf(m, toks) && Grounded(scope, schema)
    ensures e in Leftovers(m, toks, scope, schema) <==>
      e.UnreferencedColumn? &&
      exists w :: w in toks && IsIdentifier(m, w) && !Resolves(m, w, scope, schema) && WordText(m, w) == e.name
  {
    hide Resolves, IsIdentifier, WordText, Grounded;
    if toks != [] {
      var before := toks[..|toks| - 1];
      LeftoversMember(m, before, scope, schema, e);
      assert toks == before + [toks[|toks| - 1]];
    }
  }

  lemma WordReported(t: string, w: Word, schema: Schema)
    requires AllInText(t, Refs(t)) && w in Words(Remaining(t, CoverOf(t)))
    ensures w in Words(t) && w.start <= w.end <= |t|
    ensures var m, scope := Remaining(t, CoverOf(t)), ScopeOf(t, Refs(t), schema);
      && WordText(m, w) == WordText(t, w)
      && (IsIdentifier(m, w) && !Resolves(m, w, scope, schema) <==> Unaccounted(t, w, schema))
  {
    hide RefsFrom, PairsFrom, WordsFrom, ScopeOf, KnownOwner, IsTable, Inside, CoverOf, Covered, IsKeyword,
      ParenFollows, TableOf, Remaining;
    var m, scope := Remaining(t, CoverOf(t)), ScopeOf(t, Refs(t), schema);
    CoverWhole(t);
    RemainingWords(t, CoverOf(t));
    CoverMeans(t, w.start);
    ScopeResolves(t, Refs(t), schema);
    assert WordText(m, w)[0] == WordText(t, w)[0];
    ColumnKnown(t, schema, WordText(t, w));
    OwnerOfTable(t, Refs(t), schema, WordText(t, w));
  }

  lemma ColumnKnown(t: string, schema: Schema, name: string)
    requires AllInText(t, Refs(t))
    ensures (exists table :: table in schema && IsTable(t, Refs(t), table) && name in schema[table]) <==>
      exists r :: r in Refs(t) && TableOf(t, r) in schema && name in schema[TableOf(t, r)]
  {
    hide RefsFrom, TableOf;
    if table :| table in schema && IsTable(t, Refs(t), table) && name in schema[table] {
      var r :| r in Refs(t) && TableOf(t, r) == table;
    }
    if r :| r in Refs(t) && TableOf(t, r) in schema && name in schema[TableOf(t, r)] {
      assert IsTable(t, Refs(t), TableOf(t, r));
    }
  }

  lemma {:induction false} OwnerOfTable(t: string, refs: seq<TableRef>, schema: Schema, name: string)
    requires AllInText(t, refs)
    ensures name in schema && IsTable(t, refs, name) ==> KnownOwner(t, refs, schema, name).Some?
  {
    hide TableOf, AliasOf, IsTable;
    if refs == [] {
      NoTables(t);
    } else {
      IsTableMore(t, refs, name);
      OwnerOfTable(t, refs[..|refs| - 1], schema, name);
    }
  }

  lemma WordsReport(t: string, schema: Schema, e: FilterError)
    requires AllInText(t, Refs(t))
    ensures var m := Remaining(t, CoverOf(t));
      e in Leftovers(m, Words(m), ScopeOf(t, Refs(t), schema), schema) <==>
        e.UnreferencedColumn? && Reported(t, schema, e)
  {
    hide RefsFrom, PairsFrom, WordsFrom, ScopeOf, KnownOwner, CoverOf, Remaining, Resolves, IsIdentifier, WordText;
    var m, scope := Remaining(t, CoverOf(t)), ScopeOf(t, Refs(t), schema);
    LeftoversMember(m, Words(m), scope, schema, e);
    forall w | w in Words(m)
      ensures w in Words(t) && w.start <= w.end <= |t| && WordText(m, w) == WordText(t, w)
      ensures IsIdentifier(m, w) && !Resolves(m, w, scope, schema) <==> Unaccounted(t, w, schema)
    {
      WordReported(t, w, schema);
    }
    forall w | w in Words(t) && w.start <= w.end <= |t| && Unaccounted(t, w, schema) ensures w in Words(m) {
      CoverWhole(t);
      RemainingWords(t, CoverOf(t));
      CoverMeans(t, w.start);
    }
  }

  /** The errors of a filter, one by one: without a FROM or JOIN there is the one error that says so; and otherwise
      exactly the unknown tables, the pairs whose owner is not known or has no such column, and the words
      that nothing accounts for. */
  lemma ErrorsExactly(sql: string, schema: Schema, e: FilterError)
    ensures var t := BlankStrings(sql);
      && (Refs(t) == [] ==> Errors(sql, schema) == [NoFromTable])
      && AllInText(t, Refs(t))
      && (Refs(t) != [] ==> (e in Errors(sql, schema) <==> Reported(t, schema, e)))
  {
    hide RefsFrom, PairsFrom, WordsFrom, ScopeOf, Remaining, CoverOf, KnownOwner, Leftovers, AllPairErrors, Unaccounted,
      BlankStrings;
    var t := BlankStrings(sql);
    RefsInText(t);
    ScopeResolves(t, Refs(t), schema);
    PairsReport(t, schema, e);
    WordsReport(t, schema, e);
  }

  // ---- blanks before a parenthesis ----

  /** The UTF-8 encoding of a character with the White_Space property. */
  ghost predicate EncodesSpace(s: string) { exists c: char :: IsSpace(c) && IsScalar(c as int) && s == Utf8(c as int) }

  /** The blank that is encoded at `p`. */
  function SpaceChar(m: string, p: nat): char
    requires p < |m| && SpaceLen(m, p) > 0
  {
    if '\t' <= m[p] <= '\r' || m[p] == ' ' then m[p]
    else if m[p] == '\U{C2}' then m[p + 1]
    else if m[p] == '\U{E1}' then '\U{1680}'
    else if m[p] == '\U{E3}' then '\U{3000}'
    else if m[p + 1] == '\U{81}' then '\U{205F}'
    else (0x2000 + (m[p + 2] as int - 0x80)) as char
  }

  lemma SpaceEncodings(m: string, p: nat)
    requires p < |m| && SpaceLen(m, p) > 0
    ensures p + SpaceLen(m, p) <= |m| && EncodesSpace(m[p..p + SpaceLen(m, p)])
  {
    var c, n := SpaceChar(m, p), SpaceLen(m, p);
    assert IsSpace(c) && IsScalar(c as int);
    var u := Utf8(c as int);
    assert |u| == n && forall k :: 0 <= k < n ==> u[k] == m[p + k];
    assert m[p..p + n] == u;
  }

  lemma EncodedSpaces(m: string, p: nat, c: char)
    requires IsSpace(c) && IsScalar(c as int) && MatchesAt(m, p, Utf8(c as int))
    ensures p < |m| && SpaceLen(m, p) == |Utf8(c as int)|
  {
    MatchesChars(m, p, Utf8(c as int));
  }

  ghost predicate EncodedAt(m: string, p: nat, e: nat) { p < e <= |m| && EncodesSpace(m[p..e]) }

  /** From `p` to `q` there is one encoded blank after the other. */
  ghost predicate SpaceRun(m: string, p: nat, q: nat)
    requires p <= q <= |m|
    decreases q - p
  {
    p == q || exists e: nat :: EncodedAt(m, p, e) && e <= q && SpaceRun(m, e, q)
  }

  lemma {:induction false} ParenIsBehind(m: string, p: nat) returns (q: nat)
    requires ParenFollows(m, p)
    ensures p <= q < |m| && m[q] == '(' && SpaceRun(m, p, q)
    decreases |m| - p
  {
    hide EncodesSpace, SpaceLen;
    if SpaceLen(m, p) > 0 {
      SpaceEncodings(m, p);
      assert EncodedAt(m, p, p + SpaceLen(m, p));
      q := ParenIsBehind(m, p + SpaceLen(m, p));
    } else {
      q := p;
    }
  }

  lemma BlankHasLength(m: string, p: nat, n: nat)
    requires p + n <= |m| && EncodesSpace(m[p..p + n])
    ensures n > 0 && SpaceLen(m, p) == n
  {
    var c: char :| IsSpace(c) && IsScalar(c as int) && m[p..p + n] == Utf8(c as int);
    hide IsSpace, SpaceLen, Utf8;
    EncodedSpaces(m, p, c);
  }

  lemma {:induction false} BehindIsParen(m: string, p: nat, q: nat)
    requires p <= q < |m| && m[q] == '(' && SpaceRun(m, p, q)
    ensures ParenFollows(m, p)
    decreases q - p
  {
    hide EncodesSpace;
    if p < q {
      var e: nat :| EncodedAt(m, p, e) && e <= q && SpaceRun(m, e, q);
      assert m[p..p + (e - p)] == m[p..e];
      BlankHasLength(m, p, e - p);
      BehindIsParen(m, e, q);
    }
  }

  /** A parenthesis follows exactly when one stands behind nothing but blanks, whatever Unicode blanks they are. */
  lemma ParenFollowsMeans(m: string, p: nat)
    ensures ParenFollows(m, p) <==> exists q: nat :: p <= q < |m| && m[q] == '(' && SpaceRun(m, p, q)
  {
    hide SpaceRun, ParenFollows;
    if ParenFollows(m, p) {
      var q := ParenIsBehind(m, p);
    }
    if q: nat :| p <= q < |m| && m[q] == '(' && SpaceRun(m, p, q) {
      BehindIsParen(m, p, q);
    }
  }

  // ---- an alias behind AS ----

  predicate Declares(t: string, r: TableRef, name: string)
    requires InText(t, r)
  {
    TableOf(t, r) == name || AliasOf(t, r) == Some(name)
  }

  /** In `FROM table AS alias` the alias stands for the table: unless a later reference declares the same name, no pair
      with that owner is reported as unknown, and one is reported for its column exactly when the table does not
      have it. */
  lemma AliasBehindAsResolves(sql: string, schema: Schema, h: nat, k: nat, p: Pair)
    requires var t := BlankStrings(sql);
      && OpensMatch(t, Words(t), h) && Name(t, Words(t), h + 2) && Reads(t, Words(t)[h + 2], "as")
      && Name(t, Words(t), h + 3) && k < |Refs(t)| && Refs(t)[k..] == RefsFrom(t, Words(t), h)
    requires var t := BlankStrings(sql); var toks := Words(t);
      && WordText(t, toks[h + 1]) in schema && !IsKeyword(WordText(t, toks[h + 3])) && AllInText(t, Refs(t))
      && (forall j :: k < j < |Refs(t)| ==> !Declares(t, Refs(t)[j], WordText(t, toks[h + 3])))
      && p in Pairs(t) && p.owner == WordText(t, toks[h + 3])
    ensures var t := BlankStrings(sql); var table := WordText(t, Words(t)[h + 1]);
      && UnknownOwner(p.owner) !in Errors(sql, schema)
      && (p.column != "*" ==> (NoSuchColumn(table, p.column) in Errors(sql, schema) <==> p.column !in schema[table]))
  {
    hide RefsFrom, PairsFrom, WordsFrom, Errors, Name, Reads, OpensMatch, BlankStrings;
    var t := BlankStrings(sql);
    var toks := Words(t);
    AliasFits(t, toks, h);
    var table, alias := WordText(t, toks[h + 1]), WordText(t, toks[h + 3]);
    AliasBehindAs(t, toks, h);
    var r := TableRef(toks[h].start, toks[h + 1].start, toks[h + 1].end, Some(toks[h + 3]));
    assert Refs(t)[k] == Refs(t)[k..][0] == r;
    DeclaredIsOwned(t, Refs(t), schema, k, alias);
    ErrorsExactly(sql, schema, UnknownOwner(p.owner));
    ErrorsExactly(sql, schema, NoSuchColumn(table, p.column));
  }

  lemma AliasFits(t: string, toks: seq<Word>, h: nat)
    requires Name(t, toks, h + 3)
    ensures h + 3 < |toks|
  {
  }
}
