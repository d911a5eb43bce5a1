/** Name resolution inside one filter (src/rls.rs, `validate_sql`): the alias map the table references
    build, and the `owner.column` pairs that are looked up through it. */
module SqlScope {
  import opened Text
  import opened SqlText
  import opened SqlRefs

  type Schema = map<string, set<string>>

  datatype FilterError =
    | NoFromTable
    | UnknownTable(table: string)
    | UnknownOwner(owner: string)
    | NoSuchColumn(table: string, column: string)
    | UnreferencedColumn(name: string)

  const KEYWORDS: set<string> := {
    "all", "and", "as", "asc", "between", "by", "desc", "distinct", "false", "from", "full",
    "group", "having", "in", "inner", "is", "join", "left", "like", "limit", "not", "null",
    "offset", "on", "or", "order", "outer", "right", "select", "true", "union", "where"
  }

  predicate IsKeyword(word: string) { Lower(word) in KEYWORDS }

  // ---- table references ----

  /** The spans of a match are readable in the text. */
  predicate InText(t: string, r: TableRef) {
    r.start < r.tableStart < r.tableEnd <= |t| && (r.alias.Some? ==> r.alias.value.start < r.alias.value.end <= |t|)
  }

  predicate AllInText(t: string, refs: seq<TableRef>) { forall r :: r in refs ==> InText(t, r) }

  function TableOf(t: string, r: TableRef): string
    requires InText(t, r)
  {
    t[r.tableStart..r.tableEnd]
  }

  /** The alias, unless the slot held a keyword. */
  function AliasOf(t: string, r: TableRef): Option<string>
    requires InText(t, r)
  {
    if r.alias.None? || IsKeyword(WordText(t, r.alias.value)) then None else Some(WordText(t, r.alias.value))
  }

  function SpanOf(t: string, r: TableRef): Word
    requires InText(t, r)
  {
    Word(r.start, if AliasOf(t, r).Some? then r.alias.value.end else r.tableEnd)
  }

  datatype Scope = Scope(
    aliases: map<string, string>, referenced: seq<string>, spans: seq<Word>, errors: seq<FilterError>)

  /** Every table a name can resolve to is a table of the schema, so `schema[table]` cannot fail. */
  ghost predicate Grounded(scope: Scope, schema: Schema) {
    && (forall name :: name in scope.aliases ==> scope.aliases[name] in schema)
    && (forall table :: table in scope.referenced ==> table in schema)
  }

  function Declare(t: string, r: TableRef, scope: Scope, schema: Schema): (out: Scope)
    requires InText(t, r) && Grounded(scope, schema)
    ensures Grounded(out, schema)
  {
    var table := TableOf(t, r);
    var spans := scope.spans + [SpanOf(t, r)];
    if table !in schema then scope.(spans := spans, errors := scope.errors + [UnknownTable(table)])
    else
      var known := scope.aliases[table := table];
      Scope(match AliasOf(t, r) case None => known case Some(alias) => known[alias := table],
            scope.referenced + [table], spans, scope.errors)
  }

  function ScopeOf(t: string, refs: seq<TableRef>, schema: Schema): (scope: Scope)
    requires AllInText(t, refs)
    ensures Grounded(scope, schema)
  {
    if refs == [] then Scope(map[], [], [], [])
    else Declare(t, refs[|refs| - 1], ScopeOf(t, refs[..|refs| - 1], schema), schema)
  }

  method DeclareTables(t: string, refs: seq<TableRef>, schema: Schema) returns (scope: Scope)
    requires AllInText(t, refs)
    ensures scope == ScopeOf(t, refs, schema)
  {
    var aliases: map<string, string>, referenced: seq<string> := map[], [];
    var spans: seq<Word>, errors: seq<FilterError> := [], [];
    for k := 0 to |refs|
      invariant Scope(aliases, referenced, spans, errors) == ScopeOf(t, refs[..k], schema)
    {
      var r := refs[k];
      assert refs[..k + 1][..k] == refs[..k];
      var table, alias := TableOf(t, r), AliasOf(t, r);
      spans := spans + [SpanOf(t, r)];
      if table !in schema {
        errors := errors + [UnknownTable(table)];
        continue;
      }
      referenced := referenced + [table];
      aliases := aliases[table := table];
      if alias.Some? {
        aliases := aliases[alias.value := table];
      }
    }
    assert refs[..|refs|] == refs;
    scope := Scope(aliases, referenced, spans, errors);
  }

  /** The table a name stands for: that of the last reference declaring the name. */
  function Owner(t: string, refs: seq<TableRef>, name: string): Option<string>
    requires AllInText(t, refs)
  {
    if refs == [] then None
    else
      var last := refs[|refs| - 1];
      if TableOf(t, last) == name || AliasOf(t, last) == Some(name) then Some(TableOf(t, last))
      else Owner(t, refs[..|refs| - 1], name)
  }

  predicate AllKnown(t: string, refs: seq<TableRef>, schema: Schema)
    requires AllInText(t, refs)
  {
    forall r :: r in refs ==> TableOf(t, r) in schema
  }

  /** The first pass reports nothing exactly when every table is in the schema, and then the alias map
      resolves names as `Owner` does. */
  lemma {:induction false} ScopeMeans(t: string, refs: seq<TableRef>, schema: Schema)
    requires AllInText(t, refs)
    ensures ScopeOf(t, refs, schema).errors == [] <==> AllKnown(t, refs, schema)
    ensures AllKnown(t, refs, schema) ==>
      forall name :: Owner(t, refs, name) ==
        if name in ScopeOf(t, refs, schema).aliases then Some(ScopeOf(t, refs, schema).aliases[name]) else None
    ensures AllKnown(t, refs, schema) ==>
      forall table :: table in ScopeOf(t, refs, schema).referenced <==> exists r :: r in refs && TableOf(t, r) == table
  {
    if refs != [] {
      var before, last := refs[..|refs| - 1], refs[|refs| - 1];
      ScopeMeans(t, before, schema);
      assert refs == before + [last];
      if AllKnown(t, before, schema) && TableOf(t, last) in schema {
        assert AllKnown(t, refs, schema);
      }
    }
  }

  /** The spans of the first pass are those of the references, one each. */
  lemma {:induction false} ScopeSpans(t: string, refs: seq<TableRef>, schema: Schema)
    requires AllInText(t, refs)
    ensures ScopeOf(t, refs, schema).spans == seq(|refs|, k requires 0 <= k < |refs| => SpanOf(t, refs[k]))
  {
    hide TableOf, AliasOf, SpanOf;
    if refs != [] {
      ScopeSpans(t, refs[..|refs| - 1], schema);
    }
  }

  // ---- owner.column pairs ----

  datatype Pair = Pair(span: Word, owner: string, column: string)

  predicate CharAt(t: string, i: nat, c: char) { i < |t| && t[i] == c }

  /** The pair whose owner is token `k`, if any. */
  function PairAt(t: string, toks: seq<Word>, k: nat): Option<Pair>
    requires TokensOf(t, toks) && k < |toks|
  {
    var dot := SkipSpace(t, toks[k].end);
    var column := SkipSpace(t, dot + 1);
    if !IsIdentifier(t, toks[k]) || !CharAt(t, dot, '.') then None
    else if CharAt(t, column, '*') then
      Some(Pair(Word(toks[k].start, column + 1), WordText(t, toks[k]), "*"))
    else if k + 1 < |toks| && toks[k + 1].start == column then
      Some(Pair(Word(toks[k].start, toks[k + 1].end), WordText(t, toks[k]), WordText(t, toks[k + 1])))
    else None
  }

  function PairsFrom(t: string, toks: seq<Word>, k: nat): seq<Pair>
    requires TokensOf(t, toks)
    decreases |toks| - k
  {
    if k >= |toks| then []
    else match PairAt(t, toks, k)
      case None => PairsFrom(t, toks, k + 1)
      case Some(p) => [p] + PairsFrom(t, toks, if p.column == "*" then k + 1 else k + 2)
  }

  method ReadPair(t: string, toks: seq<Word>, k: nat) returns (pair: Option<Pair>)
    requires TokensOf(t, toks) && k < |toks|
    ensures pair == PairAt(t, toks, k)
  {
    if !IsIdentifier(t, toks[k]) {
      return None;
    }
    var i := toks[k].end;
    while i < |t| && IsAsciiSpace(t[i])
      invariant SkipSpace(t, i) == SkipSpace(t, toks[k].end)
    {
      i := i + 1;
    }
    if !CharAt(t, i, '.') {
      return None;
    }
    ghost var dot := i;
    i := i + 1;
    while i < |t| && IsAsciiSpace(t[i])
      invariant SkipSpace(t, i) == SkipSpace(t, dot + 1)
    {
      i := i + 1;
    }
    if CharAt(t, i, '*') {
      return Some(Pair(Word(toks[k].start, i + 1), WordText(t, toks[k]), "*"));
    }
    if k + 1 < |toks| && toks[k + 1].start == i {
      return Some(Pair(Word(toks[k].start, toks[k + 1].end), WordText(t, toks[k]), WordText(t, toks[k + 1])));
    }
    return None;
  }

  function PairErrors(p: Pair, scope: Scope, schema: Schema): seq<FilterError>
    requires Grounded(scope, schema)
  {
    if p.owner !in scope.aliases then [UnknownOwner(p.owner)]
    else if p.column != "*" && p.column !in schema[scope.aliases[p.owner]] then
      [NoSuchColumn(scope.aliases[p.owner], p.column)]
    else []
  }

  function AllPairErrors(pairs: seq<Pair>, scope: Scope, schema: Schema): (errors: seq<FilterError>)
    requires Grounded(scope, schema)
    ensures errors == [] <==> forall p :: p in pairs ==> PairErrors(p, scope, schema) == []
  {
    if pairs == [] then []
    else PairErrors(pairs[0], scope, schema) + AllPairErrors(pairs[1..], scope, schema)
  }

  method QualifiedPairs(t: string, toks: seq<Word>, scope: Scope, schema: Schema)
      returns (spans: seq<Word>, errors: seq<FilterError>, ghost pairs: seq<Pair>)
    requires TokensOf(t, toks) && Grounded(scope, schema)
    ensures pairs == PairsFrom(t, toks, 0)
    ensures spans == Spans(PairsFrom(t, toks, 0))
    ensures errors == AllPairErrors(PairsFrom(t, toks, 0), scope, schema)
  {
    hide PairAt, PairErrors, AllPairErrors, Grounded;
    spans, errors, pairs := [], [], [];
    NoPairErrors(scope, schema);
    var index := 0;
    while index < |toks|
      invariant pairs + PairsFrom(t, toks, index) == PairsFrom(t, toks, 0)
      invariant spans == Spans(pairs)
      invariant errors == AllPairErrors(pairs, scope, schema)
      decreases |toks| - index
    {
      var pair := ReadPair(t, toks, index);
      match pair
      case None =>
        index := index + 1;
      case Some(p) =>
        MoveOne(pairs, p, PairsFrom(t, toks, if p.column == "*" then index + 1 else index + 2), PairsFrom(t, toks, 0));
        PairErrorsAppend(pairs, p, scope, schema);
        PairErrorsAre(p, scope, schema);
        spans := spans + [p.span];
        if p.owner !in scope.aliases {
          errors := errors + [UnknownOwner(p.owner)];
        } else {
          var table := scope.aliases[p.owner];
          if p.column != "*" && p.column !in schema[table] {
            errors := errors + [NoSuchColumn(table, p.column)];
          }
        }
        pairs := pairs + [p];
        index := if p.column == "*" then index + 1 else index + 2;
    }
    assert PairsFrom(t, toks, index) == [];
  }

  lemma NoPairErrors(scope: Scope, schema: Schema)
    requires Grounded(scope, schema)
    ensures AllPairErrors([], scope, schema) == []
  {
  }

  lemma PairErrorsAre(p: Pair, scope: Scope, schema: Schema)
    requires Grounded(scope, schema)
    ensures p.owner !in scope.aliases ==> PairErrors(p, scope, schema) == [UnknownOwner(p.owner)]
    ensures p.owner in scope.aliases ==>
      var table := scope.aliases[p.owner];
      table in schema && PairErrors(p, scope, schema) ==
        if p.column != "*" && p.column !in schema[table] then [NoSuchColumn(table, p.column)] else []
  {
  }

  function Spans(pairs: seq<Pair>): seq<Word> {
    seq(|pairs|, k requires 0 <= k < |pairs| => pairs[k].span)
  }

  lemma {:induction false} PairErrorsAppend(pairs: seq<Pair>, p: Pair, scope: Scope, schema: Schema)
    requires Grounded(scope, schema)
    ensures AllPairErrors(pairs + [p], scope, schema) ==
      AllPairErrors(pairs, scope, schema) + PairErrors(p, scope, schema)
  {
    if pairs == [] {
      assert [p][1..] == [];
      assert PairErrors(p, scope, schema) + [] == PairErrors(p, scope, schema);
      assert pairs + [p] == [p];
    } else {
      var first, rest := PairErrors(pairs[0], scope, schema), AllPairErrors(pairs[1..], scope, schema);
      PairErrorsAppend(pairs[1..], p, scope, schema);
      assert (pairs + [p])[1..] == pairs[1..] + [p];
      Regroup(first, rest, PairErrors(p, scope, schema), AllPairErrors(pairs + [p], scope, schema));
    }
  }

  lemma PairAtBoundaries(t: string, k: nat)
    requires k < |Words(t)| && PairAt(t, Words(t), k).Some?
    ensures var w := PairAt(t, Words(t), k).value.span;
      w.start < w.end <= |t| && Boundary(t, w.start) && Boundary(t, w.end)
  {
    var toks := Words(t);
    TokenBoundaries(t, k);
    var column := SkipSpace(t, SkipSpace(t, toks[k].end) + 1);
    if !CharAt(t, column, '*') {
      TokenBoundaries(t, k + 1);
      TokenOrder(t, k, k + 1);
    }
  }

  /** A pair lies between token boundaries. */
  lemma {:induction false} PairBoundaries(t: string, k: nat, p: Pair)
    requires p in PairsFrom(t, Words(t), k)
    ensures p.span.start < p.span.end <= |t|
    ensures Boundary(t, p.span.start) && Boundary(t, p.span.end)
    decreases |Words(t)| - k
  {
    var here := PairAt(t, Words(t), k);
    if here.None? {
      PairBoundaries(t, k + 1, p);
    } else if p == here.value {
      PairAtBoundaries(t, k);
    } else {
      PairBoundaries(t, if here.value.column == "*" then k + 1 else k + 2, p);
    }
  }

  /** The span of a pair ends with its column or star. */
  lemma PairEnds(t: string, toks: seq<Word>, k: nat, p: Pair, column: nat)
    requires TokensOf(t, toks) && k < |toks| && PairAt(t, toks, k) == Some(p)
    requires column == SkipSpace(t, SkipSpace(t, toks[k].end) + 1)
    ensures column < p.span.end <= |t|
    ensures t[column..p.span.end] == p.column
  {
    hide SkipSpace, IsIdentifier;
    if CharAt(t, column, '*') {
      assert p.span.end == column + 1 && p.column == "*";
      assert t[column..column + 1] == [t[column]];
    } else {
      assert p.span.end == toks[k + 1].end && p.column == WordText(t, toks[k + 1]);
    }
  }

  /** What a pair is in the text: the owner, a dot with blanks around it, and the column or a star. */
  lemma PairReads(t: string, toks: seq<Word>, k: nat) returns (before: string, after: string)
    requires TokensOf(t, toks) && k < |toks| && PairAt(t, toks, k).Some?
    ensures Blanks(before) && Blanks(after)
    ensures var p := PairAt(t, toks, k).value;
      && p.span.start <= p.span.end <= |t| && p.owner == WordText(t, toks[k])
      && WordText(t, p.span) == p.owner + (before + ("." + (after + p.column)))
  {
    var p := PairAt(t, toks, k).value;
    var dot := SkipSpace(t, toks[k].end);
    var column := SkipSpace(t, dot + 1);
    before, after := t[toks[k].end..dot], t[dot + 1..column];
    SkipSpaceStops(t, toks[k].end);
    SkipSpaceStops(t, dot + 1);
    PairEnds(t, toks, k, p, column);
    Pieces(t, toks[k].start, toks[k].end, dot, column, p.span.end);
  }

  lemma Pieces(t: string, a: nat, b: nat, dot: nat, c: nat, d: nat)
    requires a <= b <= dot < c <= d <= |t| && t[dot] == '.'
    ensures t[a..d] == t[a..b] + (t[b..dot] + ("." + (t[dot + 1..c] + t[c..d])))
  {
  }

  /** Every token that owns a pair is reported, unless it is the column of the pair before it. */
  lemma {:induction false} PairsComplete(t: string, toks: seq<Word>, i: nat, g: nat) returns (h: nat)
    requires TokensOf(t, toks) && i <= g < |toks| && PairAt(t, toks, g).Some?
    ensures h <= g && PairAt(t, toks, h).Some? && PairAt(t, toks, h).value in PairsFrom(t, toks, i)
    ensures h == g || (h + 1 == g && PairAt(t, toks, h).value.column != "*")
    decreases |toks| - i
  {
    hide PairAt;
    var p := PairAt(t, toks, i);
    if p.None? {
      h := PairsComplete(t, toks, i + 1, g);
    } else {
      var next := if p.value.column == "*" then i + 1 else i + 2;
      assert PairsFrom(t, toks, i) == [p.value] + PairsFrom(t, toks, next);
      if g < next {
        h := i;
      } else {
        h := PairsComplete(t, toks, next, g);
      }
    }
  }

  // ---- what names and pairs are, character by character ----

  /** The words that name nothing, in any case. */
  lemma KeywordMeans(word: string)
    ensures IsKeyword(word) <==> Lower(word) in {
      "all", "and", "as", "asc", "between", "by", "desc", "distinct", "false", "from", "full", "group",
      "having", "in", "inner", "is", "join", "left", "like", "limit", "not", "null", "offset", "on", "or",
      "order", "outer", "right", "select", "true", "union", "where"}
  {
  }

  /** What a match declares: its table; the alias, if the slot holds one and that is no keyword; and its text,
      from the FROM or JOIN to the alias, or to the table without one. */
  lemma DeclarationMeans(t: string, r: TableRef)
    requires InText(t, r)
    ensures TableOf(t, r) == t[r.tableStart..r.tableEnd]
    ensures r.alias.Some? && !IsKeyword(t[r.alias.value.start..r.alias.value.end]) ==>
      && AliasOf(t, r) == Some(t[r.alias.value.start..r.alias.value.end])
      && SpanOf(t, r) == Word(r.start, r.alias.value.end)
    ensures r.alias.None? || IsKeyword(t[r.alias.value.start..r.alias.value.end]) ==>
      AliasOf(t, r).None? && SpanOf(t, r) == Word(r.start, r.tableEnd)
  {
  }

  predicate OnlyBlanks(t: string, a: nat, b: nat) {
    a <= b <= |t| && forall k :: a <= k < b ==> t[k] in " \t\n\r\U{0C}"
  }

  /** A dot at `dot` and a column or star at `column`, with only blanks between them and the name before. */
  predicate DotAt(t: string, toks: seq<Word>, k: nat, dot: nat, column: nat) {
    && k < |toks| && toks[k].start < |t|
    && ('a' <= t[toks[k].start] <= 'z' || 'A' <= t[toks[k].start] <= 'Z' || t[toks[k].start] == '_')
    && dot < column < |t| && OnlyBlanks(t, toks[k].end, dot) && t[dot] == '.' && OnlyBlanks(t, dot + 1, column)
    && (t[column] == '*' || (k + 1 < |toks| && toks[k + 1].start == column))
  }

  lemma {:induction false} SkipSpaceMeans(t: string, i: nat)
    requires i <= |t|
    ensures OnlyBlanks(t, i, SkipSpace(t, i))
    ensures SkipSpace(t, i) < |t| ==> !IsAsciiSpace(t[SkipSpace(t, i)])
    decreases |t| - i
  {
    if i < |t| && IsAsciiSpace(t[i]) {
      SkipSpaceMeans(t, i + 1);
    }
  }

  lemma DottedIsPair(t: string, toks: seq<Word>, k: nat, dot: nat, column: nat)
    requires TokensOf(t, toks) && DotAt(t, toks, k, dot, column)
    requires k + 1 < |toks| && toks[k + 1].start == column ==> IsWordByte(t[column])
    ensures PairAt(t, toks, k) ==
      if t[column] == '*' then Some(Pair(Word(toks[k].start, column + 1), WordText(t, toks[k]), "*"))
      else Some(Pair(Word(toks[k].start, toks[k + 1].end), WordText(t, toks[k]), WordText(t, toks[k + 1])))
  {
    hide SkipSpace;
    SkipSpaceIs(t, toks[k].end, dot);
    SkipSpaceIs(t, dot + 1, column);
  }

  lemma PairIsDotted(t: string, toks: seq<Word>, k: nat) returns (dot: nat, column: nat)
    requires TokensOf(t, toks) && k < |toks| && PairAt(t, toks, k).Some?
    ensures DotAt(t, toks, k, dot, column)
  {
    hide SkipSpace;
    dot := SkipSpace(t, toks[k].end);
    column := SkipSpace(t, dot + 1);
    SkipSpaceMeans(t, toks[k].end);
    SkipSpaceMeans(t, dot + 1);
  }

  /** A token owns a pair exactly when a dot with a column or star stands behind it. */
  lemma PairAtMeans(t: string, k: nat)
    requires k < |Words(t)|
    ensures PairAt(t, Words(t), k).Some? <==> exists dot: nat, column: nat :: DotAt(t, Words(t), k, dot, column)
    ensures forall dot: nat, column: nat :: DotAt(t, Words(t), k, dot, column) ==>
      PairAt(t, Words(t), k) ==
        if t[column] == '*' then Some(Pair(Word(Words(t)[k].start, column + 1), WordText(t, Words(t)[k]), "*"))
        else Some(Pair(Word(Words(t)[k].start, Words(t)[k + 1].end), WordText(t, Words(t)[k]),
                       WordText(t, Words(t)[k + 1])))
  {
    hide PairAt, WordsFrom, OnlyBlanks;
    var toks := Words(t);
    if PairAt(t, toks, k).Some? {
      var dot, column := PairIsDotted(t, toks, k);
    }
    forall dot: nat, column: nat | DotAt(t, toks, k, dot, column)
      ensures PairAt(t, toks, k) ==
        if t[column] == '*' then Some(Pair(Word(toks[k].start, column + 1), WordText(t, toks[k]), "*"))
        else Some(Pair(Word(toks[k].start, toks[k + 1].end), WordText(t, toks[k]), WordText(t, toks[k + 1])))
    {
      if k + 1 < |toks| {
        WordsExact(t, 0);
        assert Word(toks[k + 1].start, toks[k + 1].end) in toks;
        assert IsRun(t, toks[k + 1].start, toks[k + 1].end);
      }
      DottedIsPair(t, toks, k, dot, column);
    }
  }

  /** How the scan goes on: behind the column of a pair, or with the next token. */
  lemma PairScan(t: string, toks: seq<Word>, k: nat)
    requires TokensOf(t, toks) && k < |toks|
    ensures PairAt(t, toks, k).None? ==> PairsFrom(t, toks, k) == PairsFrom(t, toks, k + 1)
    ensures PairAt(t, toks, k).Some? ==>
      var p := PairAt(t, toks, k).value;
      PairsFrom(t, toks, k) == [p] + PairsFrom(t, toks, if p.column == "*" then k + 1 else k + 2)
    ensures PairsFrom(t, toks, |toks|) == []
  {
    hide PairAt;
  }

  // ---- what a name stands for when some tables are unknown ----

  /** The table of the last known reference that declares the name as its table or alias. */
  function KnownOwner(t: string, refs: seq<TableRef>, schema: Schema, name: string): Option<string>
    requires AllInText(t, refs)
  {
    if refs == [] then None
    else
      var last := refs[|refs| - 1];
      if TableOf(t, last) in schema && (TableOf(t, last) == name || AliasOf(t, last) == Some(name))
      then Some(TableOf(t, last)) else KnownOwner(t, refs[..|refs| - 1], schema, name)
  }

  predicate IsTable(t: string, refs: seq<TableRef>, table: string)
    requires AllInText(t, refs)
  {
    exists r :: r in refs && TableOf(t, r) == table
  }

  lemma IsTableMore(t: string, refs: seq<TableRef>, table: string)
    requires AllInText(t, refs) && refs != []
    ensures IsTable(t, refs, table) <==>
      IsTable(t, refs[..|refs| - 1], table) || TableOf(t, refs[|refs| - 1]) == table
  {
    hide TableOf;
    assert refs == refs[..|refs| - 1] + [refs[|refs| - 1]];
  }

  /** What the first pass has when it is over: names stand for known tables, and unknown tables are reported. */
  lemma {:induction false} ScopeResolves(t: string, refs: seq<TableRef>, schema: Schema)
    requires AllInText(t, refs)
    ensures var scope := ScopeOf(t, refs, schema);
      && (forall name :: KnownOwner(t, refs, schema, name) ==
            if name in scope.aliases then Some(scope.aliases[name]) else None)
      && (forall table :: table in scope.referenced <==> table in schema && IsTable(t, refs, table))
      && (forall e :: e in scope.errors <==> e.UnknownTable? && e.table !in schema && IsTable(t, refs, e.table))
  {
    hide IsTable, TableOf, AliasOf, SpanOf;
    if refs == [] {
      NoTables(t);
    } else {
      ScopeResolves(t, refs[..|refs| - 1], schema);
      forall table ensures IsTable(t, refs, table) <==>
        IsTable(t, refs[..|refs| - 1], table) || TableOf(t, refs[|refs| - 1]) == table
      {
        IsTableMore(t, refs, table);
      }
    }
  }

  lemma NoTables(t: string)
    ensures forall table :: !IsTable(t, [], table)
  {
  }

  /** A name that a reference declares stands for its table, unless a later one declares it too. */
  lemma {:induction false} DeclaredIsOwned(t: string, refs: seq<TableRef>, schema: Schema, k: nat, name: string)
    requires AllInText(t, refs) && k < |refs| && TableOf(t, refs[k]) in schema
    requires TableOf(t, refs[k]) == name || AliasOf(t, refs[k]) == Some(name)
    requires forall j :: k < j < |refs| ==> TableOf(t, refs[j]) != name && AliasOf(t, refs[j]) != Some(name)
    ensures KnownOwner(t, refs, schema, name) == Some(TableOf(t, refs[k]))
  {
    hide TableOf, AliasOf;
    if k < |refs| - 1 {
      DeclaredIsOwned(t, refs[..|refs| - 1], schema, k, name);
    }
  }
}
