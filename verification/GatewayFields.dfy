/** What each field of the gateway evidence says, on cuts of the log and its lines. */
module GatewayFields {
  import opened GatewayLog
  import opened Occupancy
  import opened Text

  // ---- pieces of a line ----

  /** What stands behind the first `marker` of the line. */
  ghost predicate FirstAt(line: string, marker: string, tail: string) {
    exists pre :: Cuts(line, pre, marker, tail) && forall p, q :: Cuts(line, p, marker, q) ==> |p| >= |pre|
  }

  lemma AfterMeans(line: string, marker: string)
    ensures forall tail :: After(line, marker) == Some(tail) <==> FirstAt(line, marker, tail)
    ensures After(line, marker).None? <==> !Contains(line, marker)
  {
    hide MatchesAt, Cuts;
    var at := Find(line, marker, 0);
    if at.Some? {
      MatchFits(line, at.value, marker);
      MatchCuts(line, at.value, marker);
      forall p, q | Cuts(line, p, marker, q) ensures |p| >= at.value {
        CutMatches(line, p, marker, q);
        CutLength(line, p, marker, q);
      }
      assert FirstAt(line, marker, line[at.value + |marker|..]);
    }
    forall tail | FirstAt(line, marker, tail) ensures After(line, marker) == Some(tail) {
      var pre :| Cuts(line, pre, marker, tail) && forall p, q :: Cuts(line, p, marker, q) ==> |p| >= |pre|;
      CutMatches(line, pre, marker, tail);
      CutLength(line, pre, marker, tail);
      assert MatchesAt(line, |pre|, marker) && at.Some? && at.value <= |pre|;
      assert |line[..at.value]| >= |pre|;
    }
  }

  /** `word` is the first word of `s`: `rest` goes on with a blank, if it goes on. */
  ghost predicate Begins(s: string, blanks: string, word: string, rest: string) {
    && s == blanks + (word + rest) && AllSpace(blanks) && word != "" && NoSpace(word)
    && (rest == "" || IsSpace(rest[0]))
  }

  ghost predicate Leads(s: string, word: string) { exists blanks, rest :: Begins(s, blanks, word, rest) }

  lemma {:induction false} TrimStartIs(s: string, n: nat)
    requires n <= |s| && (forall k :: 0 <= k < n ==> IsSpace(s[k])) && (n == |s| || !IsSpace(s[n]))
    ensures TrimStart(s) == s[n..]
  {
    if n > 0 {
      TrimStartIs(s[1..], n - 1);
      assert s[1..][n - 1..] == s[n..];
    }
  }

  lemma {:induction false} WordEndIs(s: string, i: nat, e: nat)
    requires i <= e <= |s| && (forall k :: i <= k < e ==> !IsSpace(s[k])) && (e == |s| || IsSpace(s[e]))
    ensures WordEnd(s, i) == e
    decreases e - i
  {
    if i < e {
      WordEndIs(s, i + 1, e);
    }
  }

  lemma BegunIsFirst(s: string, blanks: string, word: string, rest: string)
    requires Begins(s, blanks, word, rest)
    ensures FirstWord(s) == Some(word) && BehindWord(s) == rest
  {
    assert s[|blanks|] == word[0];
    TrimStartIs(s, |blanks|);
    var t := word + rest;
    assert s[|blanks|..] == t;
    WordEndIs(t, 0, |word|);
    assert t[..|word|] == word && t[|word|..] == rest;
  }

  lemma FirstIsBegun(s: string)
    requires FirstWord(s).Some?
    ensures var t := TrimStart(s); Begins(s, s[..|s| - |t|], FirstWord(s).value, BehindWord(s))
  {
    hide TrimStart, WordEnd;
    var t := TrimStart(s);
    var n, e := |s| - |t|, WordEnd(t, 0);
    Halves(s, n);
    Halves(t, e);
    if e < |t| {
      assert t[e..][0] == t[e];
    }
    assert t[..e] != "";
  }

  lemma Halves(s: string, n: nat)
    requires n <= |s|
    ensures s == s[..n] + s[n..]
  {
  }

  /** The first word of a text, where there is one. */
  lemma FirstWordMeans(s: string)
    ensures forall word :: FirstWord(s) == Some(word) <==> Leads(s, word)
  {
    hide FirstWord, BehindWord, Begins;
    if FirstWord(s).Some? {
      FirstIsBegun(s);
    }
    forall word | Leads(s, word) ensures FirstWord(s) == Some(word) {
      var blanks, rest :| Begins(s, blanks, word, rest);
      BegunIsFirst(s, blanks, word, rest);
    }
  }

  /** Letters, digits, hyphens and underscores. */
  predicate NamesDatabase(name: string) {
    name != "" && forall k :: 0 <= k < |name| ==>
      'a' <= name[k] <= 'z' || 'A' <= name[k] <= 'Z' || '0' <= name[k] <= '9' || name[k] == '-' || name[k] == '_'
  }

  lemma DatabaseNameMeans(name: string)
    ensures IsDatabaseName(name) <==> NamesDatabase(name)
  {
  }

  // ---- what a line says ----

  lemma ShardMeans(line: string, name: string)
    ensures Shard(line) == Some(name) <==>
      NamesDatabase(name) && exists tail :: FirstAt(line, "coordinator connected to shard", tail) && Leads(tail, name)
  {
    hide After, FirstWord, IsDatabaseName, NamesDatabase, FirstAt, Leads, Contains;
    AfterMeans(line, "coordinator connected to shard");
    DatabaseNameMeans(name);
    var tail := After(line, "coordinator connected to shard");
    if tail.Some? {
      FirstWordMeans(tail.value);
    }
  }

  /** A line about a listener names it by the first word behind the phrase, or says that there is none. */
  lemma ListenersMean(line: string)
    ensures LogonListener(line).Some? <==> Contains(line, "logon listening on ")
    ensures WorldListener(line).Some? <==> Contains(line, "world listening on ")
    ensures forall tail :: FirstAt(line, "logon listening on ", tail) ==>
      forall host :: LogonListener(line) == Some(Some(host)) <==> Leads(tail, host)
    ensures forall tail :: FirstAt(line, "world listening on ", tail) ==>
      forall host :: WorldListener(line) == Some(Some(host)) <==> Leads(tail, host)
  {
    hide After, FirstWord, FirstAt, Leads, Contains;
    AfterMeans(line, "logon listening on ");
    AfterMeans(line, "world listening on ");
    forall tail: string ensures forall host :: FirstWord(tail) == Some(host) <==> Leads(tail, host) {
      FirstWordMeans(tail);
    }
  }

  lemma RealmCoreMeans(line: string, name: string)
    ensures RealmCore(line).Some? <==> Contains(line, "realm-core active:")
    ensures RealmCore(line) == Some(Some(name)) <==>
      && NamesDatabase(name)
      && exists tail, place ::
           FirstAt(line, "realm-core active:", tail) && FirstAt(tail, "live on ", place) && Leads(place, name)
  {
    hide After, FirstWord, FirstAt, Leads, Contains, IsDatabaseName, NamesDatabase;
    AfterMeans(line, "realm-core active:");
    DatabaseNameMeans(name);
    var tail := After(line, "realm-core active:");
    if tail.Some? {
      AfterMeans(tail.value, "live on ");
      var place := After(tail.value, "live on ");
      if place.Some? {
        FirstWordMeans(place.value);
      }
    }
  }

  /** The text between `databases [` and the next bracket. */
  ghost predicate Brackets(tail: string, list: string, post: string) {
    FirstAt(tail, "databases [", list + ("]" + post)) && ']' !in list
  }

  lemma {:induction false} FindChar(s: string, c: char, from: nat, at: nat)
    requires from <= at < |s| && s[at] == c && forall k :: from <= k < at ==> s[k] != c
    ensures Find(s, [c], from) == Some(at)
    decreases at - from
  {
    assert s[from..from + 1] == [s[from]];
    if from < at {
      FindChar(s, c, from + 1, at);
    }
  }

  /** A line about the shard map configures what its bracketed list says, or takes the configuration away. */
  lemma MapMeans(line: string, list: string)
    ensures ConfiguredBy(line).Some? <==> Contains(line, "shard map active:")
    ensures forall tail :: FirstAt(line, "shard map active:", tail) ==> ConfiguredBy(line) == Some(Configured(tail))
    ensures forall tail :: ListText(tail) == Some(list) <==> exists post :: Brackets(tail, list, post)
    ensures forall tail :: ListText(tail).None? ==> Configured(tail).None?
  {
    hide FirstAt, Contains, ListText, Brackets;
    AfterMeans(line, "shard map active:");
    forall tail: string ensures ListText(tail) == Some(list) <==> exists post :: Brackets(tail, list, post) {
      ListTextMeans(tail, list);
    }
  }

  lemma ListTextMeans(tail: string, list: string)
    ensures ListText(tail) == Some(list) <==> exists post :: Brackets(tail, list, post)
  {
    hide After, FirstAt, Find, Contains;
    AfterMeans(tail, "databases [");
    var inner := After(tail, "databases [");
    if ListText(tail) == Some(list) {
      var at := Find(inner.value, "]", 0).value;
      BracketFound(inner.value, at);
      assert Brackets(tail, list, inner.value[at + 1..]);
    }
    if post :| Brackets(tail, list, post) {
      var s := list + ("]" + post);
      assert inner == Some(s) && s[|list|] == ']' && s[..|list|] == list;
      assert forall k :: 0 <= k < |list| ==> s[k] == list[k];
      FindChar(s, ']', 0, |list|);
    }
  }

  lemma BracketFound(s: string, at: nat)
    requires Find(s, "]", 0) == Some(at)
    ensures at < |s| && ']' !in s[..at] && s == s[..at] + ("]" + s[at + 1..])
  {
    hide Find, MatchesAt, Cuts;
    MatchFits(s, at, "]");
    MatchCuts(s, at, "]");
    CutIs(s, s[..at], "]", s[at + 1..]);
    forall k | 0 <= k < at ensures s[k] != ']' {
      NoBracket(s, k);
    }
  }

  lemma NoBracket(s: string, k: nat)
    requires k < |s| && !MatchesAt(s, k, "]")
    ensures s[k] != ']'
  {
    assert s[k..k + 1] == [s[k]];
  }

  /** The line starts with the word, blanks aside. */
  ghost predicate StartsAfter(line: string, blanks: string, word: string, rest: string) {
    AllSpace(blanks) && line == blanks + (word + rest)
  }

  lemma StartMeans(line: string, word: string)
    requires word != "" && !IsSpace(word[0])
    ensures StartsWith(TrimStart(line), word) <==> exists blanks, rest :: StartsAfter(line, blanks, word, rest)
  {
    hide StartsAfter, StartsWith, TrimStart;
    if StartsWith(TrimStart(line), word) {
      StartIsBehindBlanks(line, word);
    }
    if blanks, rest :| StartsAfter(line, blanks, word, rest) {
      BehindBlanksIsStart(line, blanks, word, rest);
    }
  }

  lemma StartIsBehindBlanks(line: string, word: string)
    requires StartsWith(TrimStart(line), word)
    ensures exists blanks, rest :: StartsAfter(line, blanks, word, rest)
  {
    hide StartsWith, TrimStart;
    var t := TrimStart(line);
    StartCuts(t, word);
    Halves(line, |line| - |t|);
    assert StartsAfter(line, line[..|line| - |t|], word, t[|word|..]);
  }

  lemma StartCuts(t: string, word: string)
    requires StartsWith(t, word)
    ensures |word| <= |t| && t == word + t[|word|..]
  {
  }

  lemma BehindBlanksIsStart(line: string, blanks: string, word: string, rest: string)
    requires word != "" && !IsSpace(word[0]) && StartsAfter(line, blanks, word, rest)
    ensures StartsWith(TrimStart(line), word)
  {
    hide MatchesAt, TrimStart;
    assert line[|blanks|] == word[0];
    TrimStartIs(line, |blanks|);
    var t := TrimStart(line);
    assert t == word + rest && Cuts(t, "", word, rest);
    CutMatches(t, "", word, rest);
  }

  /** A line that reports an error or a panic. */
  lemma StartupErrorMeans(line: string)
    ensures IsStartupError(line) <==>
      || Contains(line, " ERROR ") || Contains(line, "panicked at")
      || (exists blanks, rest :: StartsAfter(line, blanks, "ERROR ", rest))
      || (exists blanks, rest :: StartsAfter(line, blanks, "Error:", rest))
  {
    hide Contains, MatchesAt, TrimStart, StartsAfter;
    StartMeans(line, "ERROR ");
    StartMeans(line, "Error:");
  }

  /** The field that gives the figure. */
  ghost predicate GivesFigure(rest: string, figure: string) { Leads(rest, "occupancy=" + figure) }

  ghost predicate Samples(line: string, name: string, measured: bool, tail: string, rest: string, figure: string) {
    && FirstAt(line, "SHARDLOAD shard=", tail) && (exists blanks :: Begins(tail, blanks, name, rest))
    && GivesFigure(rest, figure) && Measured(figure) == measured
  }

  lemma FieldMeans(field: string)
    ensures StartsWith(field, "occupancy=") <==> |field| >= 10 && field == "occupancy=" + field[10..]
  {
    if |field| >= 10 {
      Halves(field, 10);
      assert field[0..10] == field[..10];
    }
  }

  lemma SampledIs(line: string)
    requires Sample(line).Some?
    ensures NamesDatabase(Sample(line).value.0)
    ensures exists tail, rest, figure :: Samples(line, Sample(line).value.0, Sample(line).value.1, tail, rest, figure)
  {
    hide After, FirstWord, BehindWord, FirstAt, Leads, Begins, Contains, IsDatabaseName, NamesDatabase, Measured,
      MatchesAt;
    AfterMeans(line, "SHARDLOAD shard=");
    var tail := After(line, "SHARDLOAD shard=").value;
    var name, rest := FirstWord(tail).value, BehindWord(tail);
    DatabaseNameMeans(name);
    FirstIsBegun(tail);
    var field := FirstWord(rest).value;
    FirstWordMeans(rest);
    FieldMeans(field);
    assert GivesFigure(rest, field[10..]);
    assert Samples(line, name, Sample(line).value.1, tail, rest, field[10..]);
  }

  lemma IsSampled(line: string, name: string, measured: bool, tail: string, rest: string, figure: string)
    requires NamesDatabase(name) && Samples(line, name, measured, tail, rest, figure)
    ensures Sample(line) == Some((name, measured))
  {
    hide After, FirstWord, BehindWord, FirstAt, Leads, Begins, Contains, IsDatabaseName, NamesDatabase, Measured,
      MatchesAt;
    AfterMeans(line, "SHARDLOAD shard=");
    DatabaseNameMeans(name);
    var blanks :| Begins(tail, blanks, name, rest);
    BegunIsFirst(tail, blanks, name, rest);
    FirstWordMeans(rest);
    var field := "occupancy=" + figure;
    assert field[10..] == figure;
    FieldMeans(field);
  }

  /** A line that samples the occupancy of a shard: its name is the first word behind the phrase, and the word after
      that gives the figure. */
  lemma SampleMeans(line: string, name: string, measured: bool)
    ensures Sample(line) == Some((name, measured)) <==>
      NamesDatabase(name) && exists tail, rest, figure :: Samples(line, name, measured, tail, rest, figure)
  {
    hide Sample, NamesDatabase, Samples;
    if Sample(line) == Some((name, measured)) {
      SampledIs(line);
    }
    if NamesDatabase(name) {
      if tail, rest, figure :| Samples(line, name, measured, tail, rest, figure) {
        IsSampled(line, name, measured, tail, rest, figure);
      }
    }
  }

  predicate AllQuotes(s: string) { forall k :: 0 <= k < |s| ==> s[k] == '"' }

  lemma QuoteBefore(s: string, before: string, inner: string, after: string)
    requires s != "" && s[0] == '"' && s[1..] == before + (inner + after)
    ensures s == ("\"" + before) + (inner + after)
  {
  }

  lemma QuoteAfter(s: string, before: string, inner: string, after: string)
    requires s != "" && s[|s| - 1] == '"' && s[..|s| - 1] == before + (inner + after)
    ensures s == before + (inner + (after + "\""))
  {
  }

  lemma {:induction false} TrimQuotesMeans(s: string) returns (before: string, after: string)
    ensures s == before + (TrimQuotes(s) + after) && AllQuotes(before) && AllQuotes(after)
    ensures TrimQuotes(s) != "" ==> TrimQuotes(s)[0] != '"' && TrimQuotes(s)[|TrimQuotes(s)| - 1] != '"'
    decreases |s|
  {
    before, after := "", "";
    if s != [] {
      if s[0] == '"' {
        before, after := TrimQuotesMeans(s[1..]);
        QuoteBefore(s, before, TrimQuotes(s), after);
        before := "\"" + before;
      } else if s[|s| - 1] == '"' {
        before, after := TrimQuotesMeans(s[..|s| - 1]);
        QuoteAfter(s, before, TrimQuotes(s), after);
        after := after + "\"";
      }
    }
  }

  lemma TrimMeans(s: string) returns (blanks: string, behind: string)
    ensures s == blanks + (Trim(s) + behind) && AllSpace(blanks) && AllSpace(behind)
    ensures Trim(s) != "" ==> !IsSpace(Trim(s)[0]) && !IsSpace(Trim(s)[|Trim(s)| - 1])
  {
    hide TrimEnd, TrimStart;
    var t := TrimEnd(s);
    var n := |t| - |Trim(s)|;
    blanks, behind := t[..n], s[|t|..];
    Halves(s, |t|);
    Halves(t, n);
    Associates(blanks, Trim(s), behind);
    if Trim(s) != "" {
      assert Trim(s)[|Trim(s)| - 1] == t[|t| - 1];
    }
  }

  lemma Associates(a: string, b: string, c: string)
    ensures (a + b) + c == a + (b + c)
  {
  }

  /** An entry of the configured list is what is left without the blanks and then the quotes around it. */
  lemma EntryMeans(raw: string) returns (blanks: string, quotes: string, more: string, behind: string)
    ensures AllSpace(blanks) && AllQuotes(quotes) && AllQuotes(more) && AllSpace(behind)
    ensures raw == blanks + ((quotes + (Entry(raw) + more)) + behind)
    ensures Entry(raw) != "" ==> Entry(raw)[0] != '"' && Entry(raw)[|Entry(raw)| - 1] != '"'
    ensures var inner := quotes + (Entry(raw) + more);
      inner != "" ==> !IsSpace(inner[0]) && !IsSpace(inner[|inner| - 1])
  {
    hide Trim, TrimQuotes, AllSpace, AllQuotes;
    blanks, behind := TrimMeans(raw);
    quotes, more := TrimQuotesMeans(Trim(raw));
  }

  /** What the listed text configures: nothing if any of its entries is no name; else exactly these names. */
  lemma ConfiguredExactly(tail: string, list: string)
    requires ListText(tail) == Some(list)
    ensures Configured(tail).Some? <==> forall raw :: raw in Split(list, ',') ==> NamesDatabase(Entry(raw))
    ensures Configured(tail).Some? ==>
      NoDup(Configured(tail).value) &&
      forall name :: name in Configured(tail).value <==> exists raw :: raw in Split(list, ',') && Entry(raw) == name
  {
    hide ListText, Split, Entry, IsDatabaseName, NamesDatabase;
    var raws := Split(list, ',');
    forall raw: string ensures IsDatabaseName(Entry(raw)) <==> NamesDatabase(Entry(raw)) {
      DatabaseNameMeans(Entry(raw));
    }
    ConfiguredMeans(tail);
  }

  // ---- what the whole segment says ----

  /** The latest segment starts with the last start marker, or is the whole log. */
  lemma LatestMeans(log: string)
    ensures Evidence(log).sawStart <==> Contains(log, "gateway starting:")
    ensures !Contains(log, "gateway starting:") ==> Latest(log) == log
    ensures Contains(log, "gateway starting:") ==>
      exists pre, post :: Cuts(log, pre, "gateway starting:", post) && Latest(log) == "gateway starting:" + post &&
                          forall p, q :: Cuts(log, p, "gateway starting:", q) ==> |p| <= |pre|
  {
    hide Lines, MetricsGap, MatchesAt, Cuts, LastOr, Connected, Count, AnyContains, Contains;
    var start := "gateway starting:";
    var at := FindLast(log, start, |log|);
    ContainedIsFound(log, start);
    if at.Some? {
      MatchFits(log, at.value, start);
      MatchCuts(log, at.value, start);
      var pre, post := log[..at.value], log[at.value + |start|..];
      CutIs(log, pre, start, post);
      forall p, q | Cuts(log, p, start, q) ensures |p| <= |pre| {
        CutMatches(log, p, start, q);
        CutLength(log, p, start, q);
      }
      assert log[at.value..] == start + post;
    }
  }

  lemma ContainedIsFound(s: string, needle: string)
    ensures FindLast(s, needle, |s|).Some? <==> Contains(s, needle)
  {
    hide MatchesAt;
    var first, last := Find(s, needle, 0), FindLast(s, needle, |s|);
    if first.Some? {
      MatchFits(s, first.value, needle);
    }
  }

  lemma CutIs(s: string, pre: string, needle: string, post: string)
    requires Cuts(s, pre, needle, post)
    ensures s == pre + (needle + post) && s[|pre|..] == needle + post
  {
  }

  lemma {:induction false} LastOrIs<T>(lines: seq<string>, says: string -> Option<Option<T>>, k: nat)
    requires k < |lines| && says(lines[k]).Some? && forall j :: k < j < |lines| ==> says(lines[j]).None?
    ensures LastOr(lines, says) == says(lines[k]).value
  {
    if k < |lines| - 1 {
      LastOrIs(lines[..|lines| - 1], says, k);
    }
  }

  lemma {:induction false} NobodySays<T>(lines: seq<string>, says: string -> Option<Option<T>>)
    requires forall j :: 0 <= j < |lines| ==> says(lines[j]).None?
    ensures LastOr(lines, says).None?
  {
    if lines != [] {
      NobodySays(lines[..|lines| - 1], says);
    }
  }

  /** Line `k` is the last that says anything. */
  predicate SaysLast<T>(lines: seq<string>, says: string -> Option<T>, k: nat) {
    k < |lines| && says(lines[k]).Some? && forall j :: k < j < |lines| ==> says(lines[j]).None?
  }

  /** A setting is what the last line that says anything about it says; without such a line there is none. */
  lemma LastOrMeans<T>(lines: seq<string>, says: string -> Option<Option<T>>)
    ensures forall k: nat :: SaysLast(lines, says, k) ==> LastOr(lines, says) == says(lines[k]).value
    ensures (forall k :: 0 <= k < |lines| ==> says(lines[k]).None?) ==> LastOr(lines, says).None?
  {
    hide LastOr;
    forall k: nat | SaysLast(lines, says, k) ensures LastOr(lines, says) == says(lines[k]).value {
      LastOrIs(lines, says, k);
    }
    if forall k :: 0 <= k < |lines| ==> says(lines[k]).None? {
      NobodySays(lines, says);
    }
  }

  /** The settings are read off the lines of the latest segment. */
  lemma SettingsAre(log: string)
    ensures var lines, e := Lines(Latest(log)), Evidence(log);
      && e.configured == LastOr(lines, ConfiguredBy) && e.realmCore == LastOr(lines, RealmCore)
      && e.logonListener == LastOr(lines, LogonListener) && e.worldListener == LastOr(lines, WorldListener)
      && e.connected == Connected(lines)
  {
    hide ConfiguredBy, RealmCore, LogonListener, WorldListener, LastOr, Lines, Latest, Connected, Count, AnyContains,
      MetricsGap;
  }

  ghost function Where(lines: seq<string>, holds: string -> bool): set<nat> {
    set k: nat | k < |lines| && holds(lines[k])
  }

  lemma {:induction false} CountIsSize(lines: seq<string>, holds: string -> bool)
    ensures Count(lines, holds) == |Where(lines, holds)|
  {
    if lines != [] {
      var n := |lines| - 1;
      CountIsSize(lines[..n], holds);
      var before, all := Where(lines[..n], holds), Where(lines, holds);
      if holds(lines[n]) {
        assert all == before + {n};
      } else {
        assert all == before;
      }
    }
  }

  /** The errors are counted line by line, and a warning is a line of the segment that contains its words. */
  lemma CountsAndWarnings(log: string)
    ensures var lines, e := Lines(Latest(log)), Evidence(log);
      && e.startupErrors == |Where(lines, IsStartupError)|
      && (e.coordinatorTokenWarning <==>
            exists k :: 0 <= k < |lines| && Contains(lines[k], "LYRACORE_COORDINATOR_TOKEN is unset"))
      && (e.realmAddressWarning <==> exists k :: 0 <= k < |lines| && Contains(lines[k], "realm advertises "))
      && (e.metricsWarning <==>
            || (exists k :: 0 <= k < |lines| && Contains(lines[k], "LYRACORE_METRICS_DB_IDS is unset"))
            || exists name :: SampledSomewhere(lines, name, false))
  {
    hide Lines, Latest, LastOr, Connected, IsStartupError, Contains, MetricsGap, SampledSomewhere;
    CountIsSize(Lines(Latest(log)), IsStartupError);
    MetricsWarningMeans(log);
  }
}
