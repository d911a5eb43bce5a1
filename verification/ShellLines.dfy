/** The shell-line scanners of preflight check 4 (src/cmd/preflight.rs): comment stripping, continuation
    joining, and the search for tool invocations that do not thread a script's `$DB` through. */
module ShellLines {
  import opened Text

  // ---- comments ----

  /** What a reader of the line knows before a character. */
  datatype Scan = Scan(single: bool, double: bool, wordStart: bool, escaped: bool)

  predicate IsBlank(c: char) { c == ' ' || c == '\t' }

  function Next(s: Scan, c: char): Scan {
    if s.escaped then s.(escaped := false)
    else if c == '\\' && !s.single then s.(wordStart := false, escaped := true)
    else Scan(if c == '\'' && !s.double then !s.single else s.single,
              if c == '"' && !s.single then !s.double else s.double,
              IsBlank(c), false)
  }

  function StateAt(line: string, i: nat): Scan
    requires i <= |line|
  {
    if i == 0 then Scan(false, false, true, false) else Next(StateAt(line, i - 1), line[i - 1])
  }

  /** An unquoted, unescaped `#` that starts a word. */
  predicate CommentAt(line: string, i: nat)
    requires i < |line|
  {
    line[i] == '#' && StateAt(line, i) == Scan(false, false, true, false)
  }

  /** Where the first comment at or after `i` starts, or the end of the line. */
  function CommentFrom(line: string, i: nat): (c: nat)
    requires i <= |line|
    ensures i <= c <= |line|
    ensures c < |line| ==> CommentAt(line, c)
    ensures forall k :: i <= k < c ==> !CommentAt(line, k)
    decreases |line| - i
  {
    if i == |line| || CommentAt(line, i) then i else CommentFrom(line, i + 1)
  }

  /** The shell-visible part of a line. */
  function Strip(line: string): string {
    var c := CommentFrom(line, 0);
    if c < |line| then TrimEnd(line[..c]) else line
  }

  lemma CommentIs(line: string, c: nat)
    requires c <= |line| && (c < |line| ==> CommentAt(line, c))
    requires forall k :: 0 <= k < c ==> !CommentAt(line, k)
    ensures CommentFrom(line, 0) == c
  {
  }

  /** The scan steps over an escaped character without looking at it. */
  method StripInlineComment(line: string) returns (r: string)
    ensures r == Strip(line)
  {
    var single, double, wordStart := false, false, true;
    var at := 0;
    while at < |line|
      invariant at <= |line| + 1
      invariant at <= |line| ==> StateAt(line, at) == Scan(single, double, wordStart, false)
      invariant forall k :: 0 <= k < at && k < |line| ==> !CommentAt(line, k)
      decreases |line| + 1 - at
    {
      if line[at] == '\\' && !single {
        wordStart := false;
        if at + 1 < |line| {
          assert StateAt(line, at + 1).escaped;
          assert StateAt(line, at + 2) == Next(StateAt(line, at + 1), line[at + 1]);
        }
        at := at + 2;
        continue;
      }
      if line[at] == '\'' && !double {
        single := !single;
      } else if line[at] == '"' && !single {
        double := !double;
      } else if line[at] == '#' && !single && !double && wordStart {
        CommentIs(line, at);
        return TrimEnd(line[..at]);
      }
      wordStart := IsBlank(line[at]);
      at := at + 1;
    }
    CommentIs(line, |line|);
    return line;
  }

  lemma {:induction false} StateOfPrefix(line: string, n: nat, i: nat)
    requires i <= n <= |line|
    ensures StateAt(line[..n], i) == StateAt(line, i)
  {
    if i > 0 {
      StateOfPrefix(line, n, i - 1);
    }
  }

  lemma PrefixStaysClear(line: string, n: nat)
    requires n <= |line| && forall k :: 0 <= k < n ==> !CommentAt(line, k)
    ensures forall k :: 0 <= k < n ==> !CommentAt(line[..n], k)
  {
    forall k | 0 <= k < n ensures !CommentAt(line[..n], k) {
      StateOfPrefix(line, n, k);
      assert !CommentAt(line, k);
    }
  }

  /** Stripping keeps a prefix of the line, and stripping again keeps all of it. */
  lemma StripIsIdempotentPrefix(line: string)
    ensures Strip(line) <= line
    ensures Strip(Strip(line)) == Strip(line)
  {
    var r := Strip(line);
    var c := CommentFrom(line, 0);
    if c < |line| {
      assert r == line[..c][..|r|] == line[..|r|];
    } else {
      assert r == line[..|line|];
    }
    assert r == line[..|r|] && |r| <= c;
    assert forall k :: 0 <= k < |r| ==> !CommentAt(line, k);
    PrefixStaysClear(line, |r|);
    CommentIs(r, |r|);
  }

  // ---- comments as the shell reads them ----

  /** A character that ends a word by itself: section 2.3 of the POSIX.1-2017 Shell Command Language
      starts a comment wherever a new token could start, so also right behind an operator. */
  predicate IsOperator(c: char) { c == ';' || c == '&' || c == '|' || c == '<' || c == '>' || c == '(' || c == ')' }

  function PosixNext(s: Scan, c: char): Scan {
    if s.escaped then Next(s, c) else Next(s, c).(wordStart := Next(s, c).wordStart || IsOperator(c))
  }

  function PosixStateAt(line: string, i: nat): Scan
    requires i <= |line|
  {
    if i == 0 then Scan(false, false, true, false) else PosixNext(PosixStateAt(line, i - 1), line[i - 1])
  }

  predicate PosixCommentAt(line: string, i: nat)
    requires i < |line|
  {
    line[i] == '#' && PosixStateAt(line, i) == Scan(false, false, true, false)
  }

  function PosixCommentFrom(line: string, i: nat): (c: nat)
    requires i <= |line|
    ensures i <= c <= |line|
    ensures c < |line| ==> PosixCommentAt(line, c)
    ensures forall k :: i <= k < c ==> !PosixCommentAt(line, k)
    decreases |line| - i
  {
    if i == |line| || PosixCommentAt(line, i) then i else PosixCommentFrom(line, i + 1)
  }

  /** What the shell keeps of a line, trimmed as the program trims it. */
  function PosixStrip(line: string): string {
    var c := PosixCommentFrom(line, 0);
    if c < |line| then TrimEnd(line[..c]) else line
  }

  /** The two scanners differ in nothing but the word start, and there only right behind an operator. */
  lemma {:induction false} ScannersDiffer(line: string, i: nat)
    requires i <= |line|
    ensures var s, p := StateAt(line, i), PosixStateAt(line, i);
      p == s.(wordStart := p.wordStart) && (s.wordStart ==> p.wordStart)
    ensures StateAt(line, i).escaped ==> !PosixStateAt(line, i).wordStart
    ensures PosixStateAt(line, i).wordStart && !StateAt(line, i).wordStart ==> i > 0 && IsOperator(line[i - 1])
    ensures i > 0 && StateAt(line, i).wordStart ==> !IsOperator(line[i - 1])
  {
    if i > 0 {
      ScannersDiffer(line, i - 1);
    }
  }

  /** A shell comment is one of the program's unless it stands right behind an operator. */
  lemma CommentsDiffer(line: string, k: nat)
    requires k < |line|
    ensures CommentAt(line, k) <==> PosixCommentAt(line, k) && !(k > 0 && IsOperator(line[k - 1]))
  {
    ScannersDiffer(line, k);
  }

  /** No comment of the shell's stands behind an operator where the program has not yet seen a comment. */
  ghost predicate NoOperatorComment(line: string) {
    forall k :: 0 < k < |line| && PosixCommentAt(line, k) && IsOperator(line[k - 1]) ==>
      exists j :: 0 <= j < k && CommentAt(line, j)
  }

  /** The program strips a line as the shell does exactly when the first comment of the line is not one
      that stands right behind an operator. */
  lemma StripIsPosix(line: string)
    ensures Strip(line) == PosixStrip(line) <==> NoOperatorComment(line)
  {
    hide StateAt, PosixStateAt, CommentAt, CommentFrom, PosixCommentFrom;
    var c, p := CommentFrom(line, 0), PosixCommentFrom(line, 0);
    forall k | 0 <= k < |line|
      ensures CommentAt(line, k) <==> PosixCommentAt(line, k) && !(k > 0 && IsOperator(line[k - 1]))
    {
      CommentsDiffer(line, k);
    }
    if p < c {
      LongerStrip(line, p, c);
      assert p > 0 && PosixCommentAt(line, p) && IsOperator(line[p - 1]);
    } else {
      assert p == c;
    }
  }

  /** Cutting later keeps more: the comment sign itself is not trimmed away. */
  lemma LongerStrip(line: string, p: nat, c: nat)
    requires p < c <= |line| && line[p] == '#'
    ensures |TrimEnd(line[..p])| <= p < |TrimEnd(line[..c])|
    ensures p < |line|
  {
    assert line[..c][p] == '#';
  }

  /** Where they differ: the shell reads a comment behind `;`, the program does not. */
  lemma OperatorCommentIsKept()
    ensures Strip("a;# b") == "a;# b" && PosixStrip("a;# b") == "a;"
  {
    var line := "a;# b";
    var plain := Scan(false, false, false, false);
    assert StateAt(line, 1) == plain && StateAt(line, 2) == plain && StateAt(line, 3) == plain;
    assert PosixStateAt(line, 1) == plain && PosixStateAt(line, 2) == plain.(wordStart := true);
    assert forall k :: 0 <= k < 5 && k != 2 ==> line[k] != '#';
    CommentIs(line, 5);
    assert PosixCommentAt(line, 2) && !PosixCommentAt(line, 0) && !PosixCommentAt(line, 1);
    assert PosixCommentFrom(line, 2) == 2 && PosixCommentFrom(line, 1) == 2 && PosixCommentFrom(line, 0) == 2;
    assert line[..2] == "a;" && TrimEnd("a;") == "a;";
  }

  // ---- continuations ----

  predicate Continues(line: string) { line != [] && line[|line| - 1] == '\\' }

  function Piece(line: string): (p: string)
    ensures |p| == |line|
  {
    if Continues(line) then line[..|line| - 1] + " " else line
  }

  function Stripped(lines: seq<string>): (r: seq<string>)
    ensures |r| == |lines|
    ensures forall k :: 0 <= k < |lines| ==> r[k] == Strip(lines[k])
  {
    seq(|lines|, k requires 0 <= k < |lines| => Strip(lines[k]))
  }

  /** Joining stripped lines; `pending` is the logical line still open. */
  function Join(lines: seq<string>, pending: Option<string>): seq<string>
    decreases |lines|
  {
    var open := if pending.Some? then pending.value else "";
    if lines == [] then if pending.Some? then [open] else []
    else if Continues(lines[0]) then Join(lines[1..], Some(open + Piece(lines[0])))
    else [open + Piece(lines[0])] + Join(lines[1..], None)
  }

  method JoinContinuations(script: string) returns (joined: seq<string>)
    ensures joined == Join(Stripped(Lines(script)), None)
  {
    hide Strip;
    var lines := Lines(script);
    ghost var stripped := Stripped(lines);
    joined := [];
    var pending: Option<string> := None;
    for k := 0 to |lines|
      invariant joined + Join(stripped[k..], pending) == Join(stripped, None)
    {
      assert stripped[k..][0] == stripped[k] && stripped[k..][1..] == stripped[k + 1..];
      var line := StripInlineComment(lines[k]);
      var current := (if pending.Some? then pending.value else "") + Piece(line);
      if Continues(line) {
        pending := Some(current);
      } else {
        MoveOne(joined, current, Join(stripped[k + 1..], None), Join(stripped, None));
        joined := joined + [current];
        pending := None;
      }
    }
    if pending.Some? {
      joined := joined + [pending.value];
    } else {
      assert joined + [] == joined;
    }
  }

  function Pieces(lines: seq<string>): string {
    if lines == [] then "" else Piece(lines[0]) + Pieces(lines[1..])
  }

  function Total(lines: seq<string>): nat {
    if lines == [] then 0 else |lines[0]| + Total(lines[1..])
  }

  /** Joining loses, adds and reorders nothing: the logical lines read in order are the physical lines
      read in order, each continuation backslash having become one space. */
  lemma {:induction false} JoinKeepsText(lines: seq<string>, pending: Option<string>)
    ensures Concat(Join(lines, pending)) == (if pending.Some? then pending.value else "") + Pieces(lines)
    ensures |Pieces(lines)| == Total(lines)
    decreases |lines|
  {
    var open := if pending.Some? then pending.value else "";
    if lines == [] {
      if pending.Some? {
        assert Concat([open][1..]) == "";
      }
    } else {
      var p, rest := Piece(lines[0]), lines[1..];
      assert open + (p + Pieces(rest)) == (open + p) + Pieces(rest);
      if Continues(lines[0]) {
        JoinKeepsText(rest, Some(open + p));
      } else {
        JoinKeepsText(rest, None);
        assert ([open + p] + Join(rest, None))[1..] == Join(rest, None);
        assert "" + Pieces(rest) == Pieces(rest);
      }
    }
  }

  predicate EndsLine(lines: seq<string>) { lines == [] || !Continues(lines[|lines| - 1]) }

  /** Where no line is left open, joining is independent on both sides. */
  lemma {:induction false} JoinBreaks(a: seq<string>, b: seq<string>, pending: Option<string>)
    requires EndsLine(a) && (a == [] ==> pending.None?)
    ensures Join(a + b, pending) == Join(a, pending) + Join(b, None)
    decreases |a|
  {
    if a == [] {
      assert a + b == b;
    } else {
      assert (a + b)[1..] == a[1..] + b;
      var current := (if pending.Some? then pending.value else "") + Piece(a[0]);
      if Continues(a[0]) {
        JoinBreaks(a[1..], b, Some(current));
      } else {
        JoinBreaks(a[1..], b, None);
        Regroup([current], Join(a[1..], None), Join(b, None), Join(a + b, pending));
      }
    }
  }

  // ---- offenders ----

  function NameEnd(line: string, i: nat): (k: nat)
    requires i <= |line|
    ensures i <= k <= |line|
    decreases |line| - i
  {
    if i < |line| && IsIdentStart(line[i]) then NameEnd(line, i + 1) else i
  }

  /** `<NAME>DB=` at the start of the line. */
  predicate DefinesOverride(line: string) {
    var n := NameEnd(line, 0);
    n >= 2 && line[n - 2..n] == "DB" && n < |line| && line[n] == '='
  }

  function SkipBlanks(line: string, i: nat): (k: nat)
    requires i <= |line|
    ensures i <= k <= |line|
    decreases |line| - i
  {
    if i < |line| && IsBlank(line[i]) then SkipBlanks(line, i + 1) else i
  }

  predicate DrivesTool(line: string) {
    Contains(line, "target/debug/lyracore-importer") || Contains(line, "target/debug/bench") ||
    match Find(line, "spacetime", 0)
    case None => false
    case Some(at) =>
      var rest := SkipBlanks(line, at + 9);
      rest > at + 9 &&
      (MatchesAt(line, rest, "sql") || MatchesAt(line, rest, "call") ||
       MatchesAt(line, rest, "logs") || MatchesAt(line, rest, "describe"))
  }

  /** `$DB` or `${DB` at `i`, not followed by a word character. */
  predicate ThreadsAt(line: string, i: nat) {
    i < |line| && line[i] == '$' &&
    var name := if i + 1 < |line| && line[i + 1] == '{' then i + 2 else i + 1;
    MatchesAt(line, name, "DB") && (name + 2 == |line| || !IsWordByte(line[name + 2]))
  }

  predicate Threads(line: string) { exists i :: 0 <= i < |line| && ThreadsAt(line, i) }

  method ThreadsDb(line: string) returns (r: bool)
    ensures r <==> Threads(line)
  {
    for index := 0 to |line|
      invariant forall i :: 0 <= i < index ==> !ThreadsAt(line, i)
    {
      if line[index] != '$' {
        continue;
      }
      var at := index + 1;
      if at < |line| && line[at] == '{' {
        at := at + 1;
      }
      if !MatchesAt(line, at, "DB") {
        continue;
      }
      if at + 2 == |line| || !IsWordByte(line[at + 2]) {
        assert ThreadsAt(line, index);
        return true;
      }
    }
    return false;
  }

  predicate Offends(line: string) { DrivesTool(line) && !Threads(line) }

  function OffendersIn(lines: seq<string>): (r: seq<string>)
    ensures forall line :: line in r <==> line in lines && Offends(line)
  {
    if lines == [] then []
    else (if Offends(lines[0]) then [lines[0]] else []) + OffendersIn(lines[1..])
  }

  /** The offenders among the logical lines of these physical ones. */
  function Unthreaded(lines: seq<string>): seq<string> { OffendersIn(Join(Stripped(lines), None)) }

  function Offenders(script: string): seq<string> {
    if exists k :: 0 <= k < |Lines(script)| && DefinesOverride(Lines(script)[k])
    then Unthreaded(Lines(script)) else []
  }

  lemma OffendersStep(lines: seq<string>, k: nat)
    requires k < |lines|
    ensures Offends(lines[k]) ==> OffendersIn(lines[k..]) == [lines[k]] + OffendersIn(lines[k + 1..])
    ensures !Offends(lines[k]) ==> OffendersIn(lines[k..]) == OffendersIn(lines[k + 1..])
  {
    hide Offends;
    assert lines[k..][0] == lines[k] && lines[k..][1..] == lines[k + 1..];
  }

  method DbThreadingOffenders(script: string) returns (r: seq<string>)
    ensures r == Offenders(script)
  {
    hide Strip, DefinesOverride, DrivesTool, Lines, Join, Stripped;
    var lines := Lines(script);
    if !exists k :: 0 <= k < |lines| && DefinesOverride(lines[k]) {
      return [];
    }
    var joined := JoinContinuations(script);
    r := [];
    for k := 0 to |joined|
      invariant r + OffendersIn(joined[k..]) == OffendersIn(joined)
    {
      OffendersStep(joined, k);
      hide Threads, OffendersIn;
      var threads := ThreadsDb(joined[k]);
      if DrivesTool(joined[k]) && !threads {
        MoveOne(r, joined[k], OffendersIn(joined[k + 1..]), OffendersIn(joined));
        r := r + [joined[k]];
      }
    }
    assert r + [] == r;
  }

  /** A line whose first character after blanks is `#`. */
  predicate WholeLineComment(line: string) {
    var k := SkipBlanks(line, 0);
    k < |line| && line[k] == '#'
  }

  lemma {:induction false} BlanksThenComment(line: string, i: nat)
    requires i <= |line| && StateAt(line, i) == Scan(false, false, true, false)
    requires forall k :: 0 <= k < i ==> IsBlank(line[k])
    requires SkipBlanks(line, i) < |line| && line[SkipBlanks(line, i)] == '#'
    ensures CommentAt(line, SkipBlanks(line, i))
    ensures forall k :: 0 <= k < SkipBlanks(line, i) ==> IsBlank(line[k])
    decreases |line| - i
  {
    if IsBlank(line[i]) {
      BlanksThenComment(line, i + 1);
    }
  }

  /** A whole-line comment strips to nothing, continues nothing and defines nothing. */
  lemma CommentStripsAway(line: string)
    requires WholeLineComment(line)
    ensures Strip(line) == "" && !DefinesOverride(line)
  {
    BlanksThenComment(line, 0);
    var k := SkipBlanks(line, 0);
    CommentIs(line, k);
    AllSpaceTrims(line[..k]);
  }

  lemma {:induction false} AllSpaceTrims(s: string)
    requires forall k :: 0 <= k < |s| ==> IsSpace(s[k])
    ensures TrimEnd(s) == ""
  {
    if s != [] {
      AllSpaceTrims(s[..|s| - 1]);
    }
  }

  lemma {:induction false} OffendersConcat(a: seq<string>, b: seq<string>)
    ensures OffendersIn(a + b) == OffendersIn(a) + OffendersIn(b)
  {
    hide Offends;
    if a == [] {
      assert a + b == b;
    } else {
      OffendersConcat(a[1..], b);
      assert (a + b)[1..] == a[1..] + b;
      var first := if Offends(a[0]) then [a[0]] else [];
      Regroup(first, OffendersIn(a[1..]), OffendersIn(b), OffendersIn(a + b));
    }
  }

  predicate Defines(lines: seq<string>) { exists k :: 0 <= k < |lines| && DefinesOverride(lines[k]) }

  lemma DefinesConcat(a: seq<string>, b: seq<string>)
    ensures Defines(a + b) <==> Defines(a) || Defines(b)
  {
    hide DefinesOverride;
    if Defines(a) {
      var k :| 0 <= k < |a| && DefinesOverride(a[k]);
      assert (a + b)[k] == a[k];
    }
    if Defines(b) {
      var k :| 0 <= k < |b| && DefinesOverride(b[k]);
      assert (a + b)[|a| + k] == b[k];
    }
  }

  lemma StrippedConcat(a: seq<string>, b: seq<string>)
    ensures Stripped(a + b) == Stripped(a) + Stripped(b)
  {
    hide Strip;
  }

  lemma EmptyLineJoins()
    ensures Join([""], None) == [""] && OffendersIn([""]) == []
  {
    assert "" + Piece("") == "";
    assert [""][1..] == [];
    assert Join([""], None) == [""] + Join([], None) == [""];
    assert Find("", "spacetime", 0).None? && !DrivesTool("");
    assert OffendersIn([""]) == [] + OffendersIn([]) == [];
  }

  /** The offenders of a script cut in two where no line is left open. */
  lemma OffendersBreak(a: seq<string>, b: seq<string>)
    requires EndsLine(Stripped(a))
    ensures Unthreaded(a + b) == Unthreaded(a) + Unthreaded(b)
  {
    hide Strip, Offends;
    StrippedConcat(a, b);
    JoinBreaks(Stripped(a), Stripped(b), None);
    OffendersConcat(Join(Stripped(a), None), Join(Stripped(b), None));
  }

  lemma InsertedLine(a: seq<string>, line: string, b: seq<string>)
    requires EndsLine(Stripped(a)) && WholeLineComment(line)
    ensures Unthreaded(a + ([line] + b)) == Unthreaded(a + b)
    ensures Defines(a + ([line] + b)) <==> Defines(a + b)
  {
    hide Strip, DefinesOverride, Unthreaded, Defines, WholeLineComment, EndsLine;
    CommentStripsAway(line);
    OneEmptyLine(line);
    OffendersBreak(a, [line] + b);
    OffendersBreak(a, b);
    OffendersBreak([line], b);
    assert [] + Unthreaded(b) == Unthreaded(b);
    InsertedDefinition(a, line, b);
  }

  lemma OneEmptyLine(line: string)
    requires Strip(line) == ""
    ensures EndsLine(Stripped([line])) && Unthreaded([line]) == []
  {
    hide Strip;
    assert Stripped([line])[0] == "" && Stripped([line]) == [""];
    EmptyLineJoins();
  }

  lemma InsertedDefinition(a: seq<string>, line: string, b: seq<string>)
    requires !DefinesOverride(line)
    ensures Defines(a + ([line] + b)) <==> Defines(a + b)
  {
    hide DefinesOverride;
    DefinesConcat(a, [line] + b);
    DefinesConcat([line], b);
    DefinesConcat(a, b);
  }

  /** A line with a comment continues once stripped exactly when nothing but blanks stands between a backslash
      and the comment, whatever that backslash escapes. */
  lemma StrippedContinues(line: string)
    requires CommentFrom(line, 0) < |line|
    ensures var c := CommentFrom(line, 0);
      Continues(Strip(line)) <==>
        exists p :: 0 <= p < c && line[p] == '\\' && forall k :: p < k < c ==> IsSpace(line[k])
  {
    hide CommentFrom, TrimEnd, IsSpace, Continues;
    var c := CommentFrom(line, 0);
    var head := line[..c];
    assert forall k :: 0 <= k < c ==> head[k] == line[k];
    if p :| 0 <= p < c && line[p] == '\\' && forall k :: p < k < c ==> IsSpace(line[k]) {
      TrimmedEnds(head, p);
    }
    if Continues(TrimEnd(head)) {
      TrimmedContinues(head);
    }
  }

  lemma TrimmedEnds(s: string, p: nat)
    requires p < |s| && s[p] == '\\' && forall k :: p < k < |s| ==> IsSpace(s[k])
    ensures Continues(TrimEnd(s))
  {
    hide TrimEnd;
    assert |TrimEnd(s)| == p + 1;
  }

  lemma TrimmedContinues(s: string)
    requires Continues(TrimEnd(s))
    ensures exists p :: 0 <= p < |s| && s[p] == '\\' && forall k :: p < k < |s| ==> IsSpace(s[k])
  {
    hide TrimEnd;
    assert s[|TrimEnd(s)| - 1] == '\\';
  }

  /** The escaped blank before the comment is trimmed away, and its backslash continues the line. */
  lemma EscapedBlankContinues()
    ensures Strip("a\\  #") == "a\\" && Continues(Strip("a\\  #")) && !Continues("a\\  #")
  {
    var line := "a\\  #";
    var plain := Scan(false, false, false, false);
    assert StateAt(line, 1) == plain && StateAt(line, 2) == plain.(escaped := true);
    assert StateAt(line, 3) == plain && StateAt(line, 4) == plain.(wordStart := true);
    CommentIs(line, 4);
    var r := TrimEnd(line[..4]);
    assert line[..4][1] == '\\' && |r| == 2 && r == line[..4][..2] == "a\\";
  }

  /** Inserting a whole-line comment between two lines, where the line above does not end in a
      backslash once stripped, never changes the verdict on a script. */
  lemma CommentsDoNotMatter(above: string, comment: string, below: string)
    requires WholeLines(above) && EndsLine(Stripped(Lines(above)))
    requires WholeLineComment(comment) && forall k :: 0 <= k < |comment| ==> comment[k] != '\n'
    ensures Offenders(above + (comment + "\n" + below)) == Offenders(above + below)
  {
    var line := DropCr(comment);
    CommentLine(comment, below);
    LinesConcat(above, comment + "\n" + below);
    LinesConcat(above, below);
    InsertedLine(Lines(above), line, Lines(below));
  }

  lemma CommentLine(comment: string, below: string)
    requires WholeLineComment(comment) && forall k :: 0 <= k < |comment| ==> comment[k] != '\n'
    ensures Lines(comment + "\n" + below) == [DropCr(comment)] + Lines(below)
    ensures WholeLineComment(DropCr(comment))
  {
    hide Lines;
    FirstLineIs(comment, below);
    BlanksStay(comment, 0, |DropCr(comment)|);
  }

  lemma FirstLineIs(line: string, below: string)
    requires forall k :: 0 <= k < |line| ==> line[k] != '\n'
    ensures Lines(line + "\n" + below) == [DropCr(line)] + Lines(below)
  {
    hide LineEnd;
    var all := line + "\n" + below;
    LineEndIs(all, 0, |line|);
    assert all[..|line|] == line && all[|line| + 1..] == below;
  }

  lemma {:induction false} BlanksStay(line: string, i: nat, n: nat)
    requires i <= n <= |line| && SkipBlanks(line, i) < n
    ensures SkipBlanks(line[..n], i) == SkipBlanks(line, i)
    decreases |line| - i
  {
    if i < n && IsBlank(line[i]) {
      BlanksStay(line, i + 1, n);
    }
  }

  // ---- what an offender is ----

  predicate AllBlank(s: string) { forall k :: 0 <= k < |s| ==> s[k] == ' ' || s[k] == '\t' }

  predicate IsVerb(verb: string) { verb == "sql" || verb == "call" || verb == "logs" || verb == "describe" }

  /** The first `spacetime` of the line, then blanks, then one of four verbs. */
  ghost predicate Invokes(line: string, pre: string, blanks: string, verb: string, rest: string) {
    && line == pre + ("spacetime" + (blanks + (verb + rest)))
    && blanks != "" && AllBlank(blanks) && IsVerb(verb)
    && forall p, q :: Cuts(line, p, "spacetime", q) ==> |p| >= |pre|
  }

  /** The line runs a tool that works on a database. */
  ghost predicate RunsTool(line: string) {
    || (exists pre, post :: Cuts(line, pre, "target/debug/lyracore-importer", post))
    || (exists pre, post :: Cuts(line, pre, "target/debug/bench", post))
    || (exists pre, blanks, verb, rest :: Invokes(line, pre, blanks, verb, rest))
  }

  lemma {:induction false} SkipBlanksMeans(line: string, i: nat)
    requires i <= |line|
    ensures AllBlank(line[i..SkipBlanks(line, i)])
    ensures SkipBlanks(line, i) == |line| || !IsBlank(line[SkipBlanks(line, i)])
    decreases |line| - i
  {
    if i < |line| && IsBlank(line[i]) {
      SkipBlanksMeans(line, i + 1);
      assert line[i..SkipBlanks(line, i)] == [line[i]] + line[i + 1..SkipBlanks(line, i)];
    }
  }

  lemma {:induction false} SkipBlanksIs(line: string, i: nat, e: nat)
    requires i <= e <= |line| && (forall k :: i <= k < e ==> IsBlank(line[k])) && (e == |line| || !IsBlank(line[e]))
    ensures SkipBlanks(line, i) == e
    decreases e - i
  {
    if i < e {
      SkipBlanksIs(line, i + 1, e);
    }
  }

  lemma FirstCut(line: string, at: nat, needle: string)
    requires at <= |line| && Find(line, needle, 0) == Some(at)
    ensures forall p, q :: Cuts(line, p, needle, q) ==> |p| >= at
  {
    hide MatchesAt, Cuts;
    forall p, q | Cuts(line, p, needle, q) ensures |p| >= at {
      CutMatches(line, p, needle, q);
    }
  }

  /** The verb that stands at `k`. */
  lemma VerbAt(line: string, k: nat) returns (verb: string)
    requires MatchesAt(line, k, "sql") || MatchesAt(line, k, "call") || MatchesAt(line, k, "logs") ||
      MatchesAt(line, k, "describe")
    ensures IsVerb(verb) && MatchesAt(line, k, verb)
  {
    verb := if MatchesAt(line, k, "sql") then "sql" else if MatchesAt(line, k, "call") then "call"
    else if MatchesAt(line, k, "logs") then "logs" else "describe";
  }

  lemma DrivenIsInvoked(line: string)
    requires DrivesTool(line)
    ensures RunsTool(line)
  {
    hide Find, Cuts, SkipBlanks, AllBlank, IsVerb, Contains;
    ContainsMeans(line, "target/debug/lyracore-importer");
    ContainsMeans(line, "target/debug/bench");
    if !Contains(line, "target/debug/lyracore-importer") && !Contains(line, "target/debug/bench") {
      var at := Find(line, "spacetime", 0).value;
      var k := SkipBlanks(line, at + 9);
      SkipBlanksMeans(line, at + 9);
      var verb := VerbAt(line, k);
      FirstCut(line, at, "spacetime");
      InvocationReads(line, at, k, verb);
      assert Invokes(line, line[..at], line[at + 9..k], verb, line[k + |verb|..]);
    }
  }

  lemma InvocationReads(line: string, at: nat, k: nat, verb: string)
    requires MatchesAt(line, at, "spacetime") && at + 9 <= k && MatchesAt(line, k, verb)
    ensures line == line[..at] + ("spacetime" + (line[at + 9..k] + (verb + line[k + |verb|..])))
  {
    assert line[at..at + 9] == "spacetime" && line[k..k + |verb|] == verb;
    assert line[k..] == verb + line[k + |verb|..];
    assert line[at + 9..] == line[at + 9..k] + line[k..];
    assert line[at..] == "spacetime" + line[at + 9..];
  }

  lemma InvokedIsDriven(line: string, pre: string, blanks: string, verb: string, rest: string)
    requires Invokes(line, pre, blanks, verb, rest)
    ensures DrivesTool(line)
  {
    hide Find, SkipBlanks, Contains;
    var at, k := |pre|, |pre| + 9 + |blanks|;
    InvocationMatches(line, pre, blanks, verb, rest);
    FoundFirst(line, pre, "spacetime", blanks + (verb + rest));
    SkipBlanksIs(line, at + 9, k);
  }

  lemma FoundFirst(line: string, pre: string, needle: string, post: string)
    requires Cuts(line, pre, needle, post) && forall p, q :: Cuts(line, p, needle, q) ==> |p| >= |pre|
    ensures Find(line, needle, 0) == Some(|pre|)
  {
    hide MatchesAt, Cuts, Find;
    CutMatches(line, pre, needle, post);
    CutLength(line, pre, needle, post);
    var found := Find(line, needle, 0);
    assert found.Some? && found.value <= |pre|;
    MatchFits(line, found.value, needle);
    MatchCuts(line, found.value, needle);
    assert |line[..found.value]| >= |pre|;
  }

  lemma InvocationMatches(line: string, pre: string, blanks: string, verb: string, rest: string)
    requires line == pre + ("spacetime" + (blanks + (verb + rest))) && AllBlank(blanks) && IsVerb(verb)
    ensures var at, k := |pre|, |pre| + 9 + |blanks|;
      && MatchesAt(line, at, "spacetime") && MatchesAt(line, k, verb) && k < |line| && !IsBlank(line[k])
      && forall j :: at + 9 <= j < k ==> IsBlank(line[j])
  {
    hide MatchesAt;
    var tail := blanks + (verb + rest);
    CutMatches(line, pre, "spacetime", tail);
    CutLength(line, pre, "spacetime", tail);
    StandsAt(line, |pre| + 9, blanks, verb + rest);
    StandsAt(line, |pre| + 9 + |blanks|, verb, rest);
    VerbIsNotBlank(verb);
  }

  lemma VerbIsNotBlank(verb: string)
    requires IsVerb(verb)
    ensures verb != "" && !IsBlank(verb[0])
  {
  }

  lemma StandsAt(line: string, i: nat, piece: string, rest: string)
    requires i <= |line| && line[i..] == piece + rest
    ensures MatchesAt(line, i, piece) && i + |piece| <= |line| && line[i + |piece|..] == rest
    ensures forall j :: i <= j < i + |piece| ==> line[j] == piece[j - i]
  {
    MatchesChars(line, i, piece);
    assert forall j :: i <= j < |line| ==> line[j] == line[i..][j - i];
    assert line[i + |piece|..] == line[i..][|piece|..];
  }

  /** What it is to drive a tool, on cuts of the line. */
  lemma DrivesToolMeans(line: string)
    ensures DrivesTool(line) <==> RunsTool(line)
  {
    hide Invokes, Cuts, Find, Contains;
    if DrivesTool(line) {
      DrivenIsInvoked(line);
    }
    if RunsTool(line) {
      ContainsMeans(line, "target/debug/lyracore-importer");
      ContainsMeans(line, "target/debug/bench");
      if pre, blanks, verb, rest :| Invokes(line, pre, blanks, verb, rest) {
        InvokedIsDriven(line, pre, blanks, verb, rest);
      }
    }
  }

  predicate AllNameChars(s: string) {
    forall k :: 0 <= k < |s| ==> 'a' <= s[k] <= 'z' || 'A' <= s[k] <= 'Z' || s[k] == '_'
  }

  /** The line is `name` + `DB=` + `rest`, where the name is letters and underscores. */
  ghost predicate SetsDb(line: string, name: string, rest: string) {
    AllNameChars(name) && line == name + ("DB=" + rest)
  }

  lemma {:induction false} NameEndMeans(line: string, i: nat)
    requires i <= |line|
    ensures forall k :: i <= k < NameEnd(line, i) ==> IsIdentStart(line[k])
    ensures NameEnd(line, i) < |line| ==> !IsIdentStart(line[NameEnd(line, i)])
    decreases |line| - i
  {
    if i < |line| && IsIdentStart(line[i]) {
      NameEndMeans(line, i + 1);
    }
  }

  lemma {:induction false} NameEndIs(line: string, i: nat, e: nat)
    requires i <= e < |line| && (forall k :: i <= k < e ==> IsIdentStart(line[k])) && !IsIdentStart(line[e])
    ensures NameEnd(line, i) == e
    decreases e - i
  {
    if i < e {
      NameEndIs(line, i + 1, e);
    }
  }

  /** What it is to define an override. */
  lemma DefinesOverrideMeans(line: string)
    ensures DefinesOverride(line) <==> exists name, rest :: SetsDb(line, name, rest)
  {
    if DefinesOverride(line) {
      var n := NameEnd(line, 0);
      NameEndMeans(line, 0);
      assert line == line[..n - 2] + (line[n - 2..n] + ([line[n]] + line[n + 1..]));
      assert "DB" + (['='] + line[n + 1..]) == "DB=" + line[n + 1..];
      assert SetsDb(line, line[..n - 2], line[n + 1..]);
    }
    if name, rest :| SetsDb(line, name, rest) {
      var n := |name| + 2;
      assert line[|name|..] == "DB=" + rest;
      assert line[n - 2..n] == "DB" && line[n] == '=';
      forall k | 0 <= k < n ensures IsIdentStart(line[k]) {
        assert k < |name| ==> line[k] == name[k];
      }
      NameEndIs(line, 0, n);
    }
  }

  /** `$DB` or `${DB` between `pre` and `post`, where no letter, digit or underscore goes on. */
  ghost predicate UsesDb(line: string, pre: string, post: string) {
    && (Cuts(line, pre, "$DB", post) || Cuts(line, pre, "${DB", post))
    && (post == "" || !('a' <= post[0] <= 'z' || 'A' <= post[0] <= 'Z' || '0' <= post[0] <= '9' || post[0] == '_'))
  }

  lemma ThreadedUses(line: string, i: nat) returns (post: string)
    requires ThreadsAt(line, i)
    ensures i < |line| && UsesDb(line, line[..i], post)
  {
    hide MatchesAt;
    var needle := if i + 1 < |line| && line[i + 1] == '{' then "${DB" else "$DB";
    var name := i + |needle| - 2;
    assert MatchesAt(line, name, "DB");
    MatchesChars(line, name, "DB");
    assert "DB"[0] == 'D' && "DB"[1] == 'B';
    assert line[name] == 'D' && line[name + 1] == 'B';
    MatchesChars(line, i, needle);
    assert forall j :: 0 <= j < |needle| ==> needle[j] == line[i + j];
    MatchCuts(line, i, needle);
    post := line[i + |needle|..];
    assert post != "" ==> post[0] == line[name + 2];
  }

  lemma UseThreads(line: string, pre: string, post: string)
    requires UsesDb(line, pre, post)
    ensures |pre| < |line| && ThreadsAt(line, |pre|)
  {
    hide MatchesAt, Cuts;
    var needle, i := if Cuts(line, pre, "$DB", post) then "$DB" else "${DB", |pre|;
    CutMatches(line, pre, needle, post);
    CutLength(line, pre, needle, post);
    MatchesChars(line, i, needle);
    MatchesChars(line, i + |needle| - 2, "DB");
    assert needle[0] == '$' && needle[1] == (if needle == "$DB" then 'D' else '{');
    assert needle[|needle| - 2] == 'D' && needle[|needle| - 1] == 'B';
    assert post != "" ==> post[0] == line[i + |needle|];
  }

  /** What it is to thread the override through. */
  lemma ThreadsMeans(line: string)
    ensures Threads(line) <==> exists pre, post :: UsesDb(line, pre, post)
  {
    hide ThreadsAt, UsesDb;
    if i :| 0 <= i < |line| && ThreadsAt(line, i) {
      var post := ThreadedUses(line, i);
    }
    if pre, post :| UsesDb(line, pre, post) {
      UseThreads(line, pre, post);
    }
  }

  /** The result for a script: nothing, unless some line of it sets an override; and then exactly the logical
      lines that run a tool and do not use it. */
  lemma OffendersMeans(script: string, line: string)
    ensures line in Offenders(script) <==>
      && (exists k, name, rest :: 0 <= k < |Lines(script)| && SetsDb(Lines(script)[k], name, rest))
      && line in Join(Stripped(Lines(script)), None)
      && RunsTool(line) && !exists pre, post :: UsesDb(line, pre, post)
  {
    hide Join, Stripped, Lines, DefinesOverride, SetsDb, RunsTool, UsesDb, DrivesTool, Threads;
    DrivesToolMeans(line);
    ThreadsMeans(line);
    forall k | 0 <= k < |Lines(script)|
      ensures DefinesOverride(Lines(script)[k]) <==> exists name, rest :: SetsDb(Lines(script)[k], name, rest)
    {
      DefinesOverrideMeans(Lines(script)[k]);
    }
  }

  // ---- what is quoted, and what is joined ----

  /** Not between quotes, and not behind a backslash that counts. */
  predicate Plain(line: string, i: nat)
    requires i <= |line|
  {
    !StateAt(line, i).single && !StateAt(line, i).double && !StateAt(line, i).escaped
  }

  /** `j` opens single quotes that are still open at `i`: nothing escapes in them. */
  ghost predicate OpensSingle(line: string, j: nat, i: nat)
    requires j < i <= |line|
  {
    line[j] == '\'' && Plain(line, j) && forall k :: j < k < i ==> line[k] != '\''
  }

  /** `j` opens double quotes that are still open at `i`: only an escaped quote goes on in them. */
  ghost predicate OpensDouble(line: string, j: nat, i: nat)
    requires j < i <= |line|
  {
    line[j] == '"' && Plain(line, j) && forall k :: j < k < i && line[k] == '"' ==> StateAt(line, k).escaped
  }

  ghost predicate InSingle(line: string, i: nat)
    requires i <= |line|
  {
    exists j: nat :: j < i && OpensSingle(line, j, i)
  }

  ghost predicate InDouble(line: string, i: nat)
    requires i <= |line|
  {
    exists j: nat :: j < i && OpensDouble(line, j, i)
  }

  lemma {:induction false} NeverBoth(line: string, i: nat)
    requires i <= |line|
    ensures !(StateAt(line, i).single && StateAt(line, i).double)
    ensures StateAt(line, i).single ==> !StateAt(line, i).escaped
  {
    if i > 0 {
      NeverBoth(line, i - 1);
    }
  }

  /** What is quoted and what is escaped before position `i`: between single quotes everything is taken as it is;
      between double quotes and outside of quotes a backslash escapes the next character, whatever it is. */
  lemma {:induction false} QuotedMeans(line: string, i: nat)
    requires i <= |line|
    ensures StateAt(line, i).single <==> InSingle(line, i)
    ensures StateAt(line, i).double <==> InDouble(line, i)
    ensures StateAt(line, i).escaped <==>
      i > 0 && line[i - 1] == '\\' && !StateAt(line, i - 1).escaped && !StateAt(line, i - 1).single
    ensures StateAt(line, i).wordStart ==> i == 0 || line[i - 1] == ' ' || line[i - 1] == '\t'
  {
    if i > 0 {
      QuotedMeans(line, i - 1);
      NeverBoth(line, i - 1);
      SingleStep(line, i);
      DoubleStep(line, i);
      WordStartStep(line, i);
    }
  }

  lemma SingleStep(line: string, i: nat)
    requires 0 < i <= |line|
    requires StateAt(line, i - 1).single <==> InSingle(line, i - 1)
    requires !(StateAt(line, i - 1).single && StateAt(line, i - 1).double)
    requires StateAt(line, i - 1).single ==> !StateAt(line, i - 1).escaped
    ensures StateAt(line, i).single <==> InSingle(line, i)
  {
    if StateAt(line, i).single {
      if StateAt(line, i - 1).single {
        var j: nat :| j < i - 1 && OpensSingle(line, j, i - 1);
        assert OpensSingle(line, j, i);
      } else {
        assert OpensSingle(line, i - 1, i);
      }
    }
    if j: nat :| j < i && OpensSingle(line, j, i) {
      if j < i - 1 {
        assert OpensSingle(line, j, i - 1);
      }
    }
  }

  lemma DoubleStep(line: string, i: nat)
    requires 0 < i <= |line|
    requires StateAt(line, i - 1).double <==> InDouble(line, i - 1)
    requires !(StateAt(line, i - 1).single && StateAt(line, i - 1).double)
    ensures StateAt(line, i).double <==> InDouble(line, i)
  {
    if StateAt(line, i).double {
      if StateAt(line, i - 1).double {
        var j: nat :| j < i - 1 && OpensDouble(line, j, i - 1);
        assert OpensDouble(line, j, i);
      } else {
        assert OpensDouble(line, i - 1, i);
      }
    }
    if j: nat :| j < i && OpensDouble(line, j, i) {
      if j < i - 1 {
        assert OpensDouble(line, j, i - 1);
      }
    }
  }

  lemma {:induction false} WordStartStep(line: string, i: nat)
    requires 0 < i <= |line|
    ensures StateAt(line, i).wordStart ==> line[i - 1] == ' ' || line[i - 1] == '\t'
    ensures !StateAt(line, i - 1).escaped && (line[i - 1] == ' ' || line[i - 1] == '\t') ==> StateAt(line, i).wordStart
  {
    if StateAt(line, i - 1).escaped {
      EscapedStartsNothing(line, i - 1);
    }
  }

  lemma EscapedStartsNothing(line: string, i: nat)
    requires i <= |line| && StateAt(line, i).escaped
    ensures !StateAt(line, i).wordStart
  {
  }

  /** The program's comments: a `#` outside of quotes that is not escaped, at the start of the line or behind a blank
      that is not escaped. */
  lemma CommentMeans(line: string, i: nat)
    requires i < |line|
    ensures CommentAt(line, i) <==>
      && line[i] == '#' && Plain(line, i)
      && (i == 0 || ((line[i - 1] == ' ' || line[i - 1] == '\t') && !StateAt(line, i - 1).escaped))
  {
    if i > 0 {
      WordStartStep(line, i);
    }
  }

  /** What a line adds to its logical line: itself, or, if it ends in a backslash, what is before that and a space. */
  lemma PieceMeans(line: string)
    ensures line != "" && line[|line| - 1] == '\\' ==> Continues(line) && Piece(line) == line[..|line| - 1] + " "
    ensures line == "" || line[|line| - 1] != '\\' ==> !Continues(line) && Piece(line) == line
  {
  }
}
