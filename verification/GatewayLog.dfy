/** What the latest gateway start in an append-only log says (src/cmd/gateway_log.rs), and the topology
    comparison that production status makes with it (src/cmd/production.rs). */
module GatewayLog {
  import opened Occupancy
  import opened Text

  const START := "gateway starting:"
  const CONNECTED := "coordinator connected to shard"
  const TOKEN_UNSET := "LYRACORE_COORDINATOR_TOKEN is unset"
  const ADVERTISES := "realm advertises "
  const METRICS_UNSET := "LYRACORE_METRICS_DB_IDS is unset"

  datatype GatewayEvidence = GatewayEvidence(
    sawStart: bool,
    configured: Option<seq<string>>,
    connected: seq<string>,
    realmCore: Option<string>,
    logonListener: Option<string>,
    worldListener: Option<string>,
    startupErrors: nat,
    coordinatorTokenWarning: bool,
    realmAddressWarning: bool,
    metricsWarning: bool)

  // ---- one line ----

  /** `str::split_once`, keeping what follows. */
  function After(s: string, marker: string): Option<string> {
    match Find(s, marker, 0)
    case None => None
    case Some(at) => Some(s[at + |marker|..])
  }

  function WordEnd(s: string, i: nat): (k: nat)
    requires i <= |s|
    ensures i <= k <= |s|
    ensures forall j :: i <= j < k ==> !IsSpace(s[j])
    ensures k < |s| ==> IsSpace(s[k])
    decreases |s| - i
  {
    if i < |s| && !IsSpace(s[i]) then WordEnd(s, i + 1) else i
  }

  /** The first whitespace-separated word, and the text behind it. */
  function FirstWord(s: string): Option<string> {
    var t := TrimStart(s);
    if t == [] then None else Some(t[..WordEnd(t, 0)])
  }

  function BehindWord(s: string): string {
    var t := TrimStart(s);
    t[WordEnd(t, 0)..]
  }

  predicate IsDatabaseName(name: string) {
    name != [] && forall k :: 0 <= k < |name| ==>
      IsAlpha(name[k]) || IsDigit(name[k]) || name[k] == '-' || name[k] == '_'
  }

  function Plausible(candidate: Option<string>): Option<string> {
    if candidate.Some? && IsDatabaseName(candidate.value) then candidate else None
  }

  function Shard(line: string): Option<string> {
    var tail := After(line, CONNECTED);
    if tail.Some? then Plausible(FirstWord(tail.value)) else None
  }

  function RealmCore(line: string): Option<Option<string>> {
    var tail := After(line, "realm-core active:");
    if tail.None? then None
    else
      var name := After(tail.value, "live on ");
      Some(if name.Some? then Plausible(FirstWord(name.value)) else None)
  }

  function Listener(line: string, marker: string): Option<Option<string>> {
    var tail := After(line, marker);
    if tail.Some? then Some(FirstWord(tail.value)) else None
  }

  function LogonListener(line: string): Option<Option<string>> { Listener(line, "logon listening on ") }

  function WorldListener(line: string): Option<Option<string>> { Listener(line, "world listening on ") }

  predicate IsStartupError(line: string) {
    Contains(line, " ERROR ") || StartsWith(TrimStart(line), "ERROR ") ||
    StartsWith(TrimStart(line), "Error:") || Contains(line, "panicked at")
  }

  /** A shard's occupancy sample: its name, and whether it was measured. */
  function Sample(line: string): Option<(string, bool)> {
    var tail := After(line, "SHARDLOAD shard=");
    if tail.None? then None
    else
      var name, field := Plausible(FirstWord(tail.value)), FirstWord(BehindWord(tail.value));
      if name.Some? && field.Some? && StartsWith(field.value, "occupancy=")
      then Some((name.value, Measured(field.value[10..]))) else None
  }

  // ---- the configured list ----

  function TrimQuotes(s: string): string
    decreases |s|
  {
    if s == [] then s
    else if s[0] == '"' then TrimQuotes(s[1..])
    else if s[|s| - 1] == '"' then TrimQuotes(s[..|s| - 1])
    else s
  }

  function Entry(raw: string): string { TrimQuotes(Trim(raw)) }

  function PushUnique(names: seq<string>, name: string): (r: seq<string>)
    ensures NoDup(names) ==> NoDup(r)
  {
    if name in names then names else names + [name]
  }

  /** The distinct entries in first-seen order. */
  function Distinct(raws: seq<string>): (r: seq<string>)
    ensures NoDup(r)
  {
    if raws == [] then [] else PushUnique(Distinct(raws[..|raws| - 1]), Entry(raws[|raws| - 1]))
  }

  predicate EntryOf(raws: seq<string>, name: string) { exists k :: 0 <= k < |raws| && Entry(raws[k]) == name }

  lemma {:induction false} DistinctMembers(raws: seq<string>, name: string)
    ensures name in Distinct(raws) <==> EntryOf(raws, name)
  {
    hide Entry, EntryOf;
    if raws == [] {
      NoEntry(name);
    } else {
      EntryOfOneMore(raws, name);
      DistinctMembers(raws[..|raws| - 1], name);
    }
  }

  lemma NoEntry(name: string)
    ensures !EntryOf([], name)
  {
  }

  lemma EntryOfOneMore(raws: seq<string>, name: string)
    requires raws != []
    ensures EntryOf(raws, name) <==> EntryOf(raws[..|raws| - 1], name) || Entry(raws[|raws| - 1]) == name
  {
    hide Entry;
    var before := raws[..|raws| - 1];
    if k :| 0 <= k < |before| && Entry(before[k]) == name {
      assert Entry(raws[k]) == name;
    }
    if k :| 0 <= k < |raws| && Entry(raws[k]) == name {
      assert k < |before| ==> Entry(before[k]) == name;
    }
  }

  function ListText(tail: string): Option<string> {
    var list := After(tail, "databases [");
    if list.None? then None
    else match Find(list.value, "]", 0)
      case None => None
      case Some(at) => Some(list.value[..at])
  }

  function Configured(tail: string): Option<seq<string>> {
    var list := ListText(tail);
    if list.None? then None
    else
      var raws := Split(list.value, ',');
      if AllPlausible(raws) then Some(Distinct(raws)) else None
  }

  predicate AllPlausible(raws: seq<string>) { forall k :: 0 <= k < |raws| ==> IsDatabaseName(Entry(raws[k])) }

  method ParseConfigured(tail: string) returns (r: Option<seq<string>>)
    ensures r == Configured(tail)
  {
    hide After, Find, Entry, IsDatabaseName, Split;
    var list := ListText(tail);
    if list.None? {
      return None;
    }
    var raws := Split(list.value, ',');
    var databases: seq<string> := [];
    for k := 0 to |raws|
      invariant databases == Distinct(raws[..k])
      invariant forall j :: 0 <= j < k ==> IsDatabaseName(Entry(raws[j]))
    {
      if !IsDatabaseName(Entry(raws[k])) {
        return None;
      }
      assert raws[..k + 1][..k] == raws[..k];
      databases := PushUnique(databases, Entry(raws[k]));
    }
    assert raws[..|raws|] == raws;
    return Some(databases);
  }

  function MapText(line: string): Option<string> { After(line, "shard map active:") }

  function ConfiguredBy(line: string): Option<Option<seq<string>>> {
    var tail := MapText(line);
    if tail.Some? then Some(Configured(tail.value)) else None
  }

  // ---- all lines ----

  /** What the last line that says anything says. */
  function LastOf<T>(lines: seq<string>, says: string -> Option<T>): Option<T> {
    if lines == [] then None
    else if says(lines[|lines| - 1]).Some? then says(lines[|lines| - 1])
    else LastOf(lines[..|lines| - 1], says)
  }

  function LastOr<T>(lines: seq<string>, says: string -> Option<Option<T>>): Option<T> {
    var last := LastOf(lines, says);
    if last.Some? then last.value else None
  }

  function Count(lines: seq<string>, holds: string -> bool): nat {
    if lines == [] then 0
    else Count(lines[..|lines| - 1], holds) + if holds(lines[|lines| - 1]) then 1 else 0
  }

  function Connected(lines: seq<string>): seq<string> {
    if lines == [] then []
    else
      var before := Connected(lines[..|lines| - 1]);
      var shard := Shard(lines[|lines| - 1]);
      if shard.Some? then PushUnique(before, shard.value) else before
  }

  /** The last sample of one shard. */
  function LastSample(lines: seq<string>, name: string): Option<bool> {
    if lines == [] then None
    else
      var sample := Sample(lines[|lines| - 1]);
      if sample.Some? && sample.value.0 == name then Some(sample.value.1)
      else LastSample(lines[..|lines| - 1], name)
  }

  predicate AnyContains(lines: seq<string>, text: string) {
    exists k :: 0 <= k < |lines| && Contains(lines[k], text)
  }

  ghost predicate MetricsGap(lines: seq<string>) {
    AnyContains(lines, METRICS_UNSET) ||
    exists name :: LastSample(lines, name) == Some(false)
  }

  /** What the lines say, the occupancy samples aside. */
  function Told(saw: bool, lines: seq<string>): GatewayEvidence {
    GatewayEvidence(saw,
                    LastOr(lines, ConfiguredBy),
                    Connected(lines),
                    LastOr(lines, RealmCore),
                    LastOr(lines, LogonListener),
                    LastOr(lines, WorldListener),
                    Count(lines, IsStartupError),
                    AnyContains(lines, TOKEN_UNSET),
                    AnyContains(lines, ADVERTISES),
                    AnyContains(lines, METRICS_UNSET))
  }

  function Latest(log: string): string {
    match FindLast(log, START, |log|)
    case None => log
    case Some(at) => log[at..]
  }

  ghost function Evidence(log: string): GatewayEvidence {
    var lines := Lines(Latest(log));
    Told(FindLast(log, START, |log|).Some?, lines).(metricsWarning := MetricsGap(lines))
  }

  /** The map of last samples agrees with the lines read so far. */
  ghost predicate Sampled(lines: seq<string>, occupancy: map<string, bool>) {
    forall name :: (if name in occupancy then Some(occupancy[name]) else None) == LastSample(lines, name)
  }

  lemma SampledStep(lines: seq<string>, line: string, occupancy: map<string, bool>)
    requires Sampled(lines, occupancy)
    ensures Sampled(lines + [line], match Sample(line)
                                            case Some(s) => occupancy[s.0 := s.1]
                                            case None => occupancy)
  {
    hide Sample;
    assert (lines + [line])[..|lines|] == lines;
  }

  lemma GapMeans(lines: seq<string>, occupancy: map<string, bool>)
    requires Sampled(lines, occupancy)
    ensures MetricsGap(lines) <==>
      AnyContains(lines, METRICS_UNSET) || false in occupancy.Values
  {
    if false in occupancy.Values {
      var name :| name in occupancy && occupancy[name] == false;
      assert LastSample(lines, name) == Some(false);
    }
    if name :| LastSample(lines, name) == Some(false) {
      assert name in occupancy && !occupancy[name];
    }
  }

  predicate TokenUnset(line: string) { Contains(line, TOKEN_UNSET) }

  predicate Advertises(line: string) { Contains(line, ADVERTISES) }

  predicate MetricsUnset(line: string) { Contains(line, METRICS_UNSET) }

  method ReadMap(known: Option<seq<string>>, line: string) returns (configured: Option<seq<string>>)
    ensures configured == if ConfiguredBy(line).Some? then ConfiguredBy(line).value else known
  {
    hide Configured, MapText;
    configured := known;
    var shards := MapText(line);
    if shards.Some? {
      configured := ParseConfigured(shards.value);
    }
  }

  /** One line of the pass. */
  method ReadLine(known: GatewayEvidence, line: string, ghost lines: seq<string>) returns (evidence: GatewayEvidence)
    requires known == Told(known.sawStart, lines)
    ensures evidence == Told(known.sawStart, lines + [line])
  {
    hide Told, PushUnique, Shard, RealmCore, ConfiguredBy, LogonListener, WorldListener, IsStartupError, NoDup;
    hide TokenUnset, Advertises, MetricsUnset;
    var connected, errors := known.connected, known.startupErrors;
    var name := Shard(line);
    if name.Some? {
      connected := PushUnique(connected, name.value);
    }
    var configured := ReadMap(known.configured, line);
    var core, logonLine, worldLine := RealmCore(line), LogonListener(line), WorldListener(line);
    var realmCore := if core.Some? then core.value else known.realmCore;
    var logon := if logonLine.Some? then logonLine.value else known.logonListener;
    var world := if worldLine.Some? then worldLine.value else known.worldListener;
    if IsStartupError(line) {
      errors := errors + 1;
    }
    var token := known.coordinatorTokenWarning || TokenUnset(line);
    var address := known.realmAddressWarning || Advertises(line);
    var metrics := known.metricsWarning || MetricsUnset(line);
    evidence := GatewayEvidence(
      known.sawStart, configured, connected, realmCore, logon, world, errors, token, address, metrics);
    ToldAre(known, lines, line, evidence);
  }

  lemma ToldAre(known: GatewayEvidence, lines: seq<string>, line: string, now: GatewayEvidence)
    requires known == Told(known.sawStart, lines)
    requires now.sawStart == known.sawStart
    requires now.configured == if ConfiguredBy(line).Some? then ConfiguredBy(line).value else known.configured
    requires now.connected ==
      if Shard(line).Some? then PushUnique(known.connected, Shard(line).value) else known.connected
    requires now.realmCore == if RealmCore(line).Some? then RealmCore(line).value else known.realmCore
    requires now.logonListener == if LogonListener(line).Some? then LogonListener(line).value else known.logonListener
    requires now.worldListener == if WorldListener(line).Some? then WorldListener(line).value else known.worldListener
    requires now.startupErrors == known.startupErrors + if IsStartupError(line) then 1 else 0
    requires now.coordinatorTokenWarning <==> known.coordinatorTokenWarning || TokenUnset(line)
    requires now.realmAddressWarning <==> known.realmAddressWarning || Advertises(line)
    requires now.metricsWarning <==> known.metricsWarning || MetricsUnset(line)
    ensures now == Told(known.sawStart, lines + [line])
  {
    hide Shard, RealmCore, ConfiguredBy, LogonListener, WorldListener, IsStartupError, Contains, LastOr;
    assert (lines + [line])[..|lines|] == lines;
    LastOrStep(lines, line, ConfiguredBy);
    LastOrStep(lines, line, RealmCore);
    LastOrStep(lines, line, LogonListener);
    LastOrStep(lines, line, WorldListener);
    AnyContainsStep(lines, line, TOKEN_UNSET);
    AnyContainsStep(lines, line, ADVERTISES);
    AnyContainsStep(lines, line, METRICS_UNSET);
  }

  /** One pass over the latest segment, line by line. */
  method Parse(log: string) returns (evidence: GatewayEvidence)
    ensures evidence == Evidence(log)
  {
    hide Sample, Find, FindLast, Lines, LastOr, Connected, Count;
    var start := FindLast(log, START, |log|);
    var lines := Lines(if start.Some? then log[start.value..] else log);
    evidence := GatewayEvidence(start.Some?, None, [], None, None, None, 0, false, false, false);
    var occupancy: map<string, bool> := map[];
    NothingTold(start.Some?);
    assert lines[..0] == [];
    for k := 0 to |lines|
      invariant evidence.sawStart == start.Some?
      invariant evidence == Told(start.Some?, lines[..k])
      invariant Sampled(lines[..k], occupancy)
    {
      hide Told, Sampled;
      assert lines[..k + 1] == lines[..k] + [lines[k]];
      SampledStep(lines[..k], lines[k], occupancy);
      evidence := ReadLine(evidence, lines[k], lines[..k]);
      var sample := Sample(lines[k]);
      if sample.Some? {
        occupancy := occupancy[sample.value.0 := sample.value.1];
      }
    }
    assert lines[..|lines|] == lines;
    GapMeans(lines, occupancy);
    evidence := evidence.(metricsWarning := evidence.metricsWarning || false in occupancy.Values);
  }

  lemma NothingTold(saw: bool)
    ensures Told(saw, []) == GatewayEvidence(saw, None, [], None, None, None, 0, false, false, false)
  {
  }

  lemma LastOrStep<T>(lines: seq<string>, line: string, says: string -> Option<Option<T>>)
    ensures LastOr(lines + [line], says) == if says(line).Some? then says(line).value else LastOr(lines, says)
  {
    assert (lines + [line])[..|lines|] == lines;
  }

  lemma AnyContainsStep(lines: seq<string>, line: string, text: string)
    ensures AnyContains(lines + [line], text) <==> AnyContains(lines, text) || Contains(line, text)
  {
    hide Contains;
    if AnyContains(lines, text) {
      var k :| 0 <= k < |lines| && Contains(lines[k], text);
      assert (lines + [line])[k] == lines[k];
    }
    assert (lines + [line])[|lines|] == line;
  }

  // ---- what the evidence means ----

  lemma MatchShift(prefix: string, log: string, at: nat, needle: string)
    requires at <= |log|
    ensures MatchesAt(prefix + log, |prefix| + at, needle) <==> MatchesAt(log, at, needle)
  {
    if at + |needle| <= |log| {
      assert (prefix + log)[|prefix| + at..|prefix| + at + |needle|] == log[at..at + |needle|];
    }
  }

  lemma LastIsInSuffix(prefix: string, log: string, needle: string)
    requires Contains(log, needle) && needle != []
    ensures var at := FindLast(log, needle, |log|);
      at.Some? && FindLast(prefix + log, needle, |prefix + log|) == Some(|prefix| + at.value)
  {
    var all, first := prefix + log, Find(log, needle, 0).value;
    assert MatchesAt(log, first, needle) && first <= |log|;
    hide MatchesAt;
    var at, last := FindLast(log, needle, |log|), FindLast(all, needle, |all|);
    assert at.Some?;
    MatchShift(prefix, log, at.value, needle);
    assert last.Some? && last.value >= |prefix| + at.value;
    MatchShift(prefix, log, last.value - |prefix|, needle);
  }

  /** What came before a log that holds a start marker does not matter: the log may be append-only. */
  lemma LatestStartWins(prefix: string, log: string)
    requires Contains(log, START)
    ensures Evidence(prefix + log) == Evidence(log)
  {
    hide FindLast, Contains, Lines, Told, MetricsGap;
    LastIsInSuffix(prefix, log, START);
    var at := FindLast(log, START, |log|).value;
    assert (prefix + log)[|prefix| + at..] == log[at..];
  }

  /** Line `at` is the first that names the shard. */
  predicate FirstNaming(lines: seq<string>, at: nat, shard: string) {
    at < |lines| && Shard(lines[at]) == Some(shard) && forall k :: 0 <= k < at ==> Shard(lines[k]) != Some(shard)
  }

  lemma FirstNamingStays(lines: seq<string>, line: string, at: nat, shard: string)
    ensures FirstNaming(lines, at, shard) ==> FirstNaming(lines + [line], at, shard)
  {
    hide Shard;
  }

  lemma {:induction false} NamedIsConnected(lines: seq<string>, k: nat)
    requires k < |lines| && Shard(lines[k]).Some?
    ensures Shard(lines[k]).value in Connected(lines)
  {
    hide Shard;
    if k < |lines| - 1 {
      NamedIsConnected(lines[..|lines| - 1], k);
    }
  }

  /** The connected shards are the distinct shards the lines name, in first-seen order: `at[i]` is the
      first line that names shard `i`, these lines come in order, and no named shard is missing. */
  lemma {:induction false} ConnectedInOrder(lines: seq<string>) returns (at: seq<nat>)
    ensures |at| == |Connected(lines)|
    ensures forall i, j :: 0 <= i < j < |at| ==> at[i] < at[j]
    ensures forall i :: 0 <= i < |at| ==> FirstNaming(lines, at[i], Connected(lines)[i])
    ensures forall k :: 0 <= k < |lines| && Shard(lines[k]).Some? ==> Shard(lines[k]).value in Connected(lines)
  {
    hide Shard, FirstNaming;
    at := [];
    if lines != [] {
      var before, last := lines[..|lines| - 1], lines[|lines| - 1];
      assert lines == before + [last];
      at := ConnectedInOrder(before);
      forall i | 0 <= i < |at| ensures FirstNaming(lines, at[i], Connected(before)[i]) && at[i] < |before| {
        FirstNamingStays(before, last, at[i], Connected(before)[i]);
        FirstNamingIsLine(before, at[i], Connected(before)[i]);
      }
      if Shard(last).Some? && Shard(last).value !in Connected(before) {
        NewNaming(before, last);
        at := at + [|before|];
      }
    }
    forall k | 0 <= k < |lines| && Shard(lines[k]).Some? ensures Shard(lines[k]).value in Connected(lines) {
      NamedIsConnected(lines, k);
    }
  }

  lemma FirstNamingIsLine(lines: seq<string>, at: nat, shard: string)
    requires FirstNaming(lines, at, shard)
    ensures at < |lines|
  {
  }

  lemma NewNaming(lines: seq<string>, line: string)
    requires Shard(line).Some? && Shard(line).value !in Connected(lines)
    ensures FirstNaming(lines + [line], |lines|, Shard(line).value)
  {
    hide Shard;
    forall k | 0 <= k < |lines| ensures Shard((lines + [line])[k]) != Some(Shard(line).value) {
      if Shard(lines[k]).Some? {
        NamedIsConnected(lines, k);
      }
    }
  }

  /** A configured list names each database once, and names exactly the entries between the brackets; one
      implausible entry discards the whole list. */
  lemma ConfiguredMeans(tail: string)
    requires ListText(tail).Some?
    ensures var raws := Split(ListText(tail).value, ',');
      && (Configured(tail).Some? <==> AllPlausible(raws))
      && (Configured(tail).Some? ==> NoDup(Configured(tail).value))
      && (Configured(tail).Some? ==> forall name :: name in Configured(tail).value <==> EntryOf(raws, name))
  {
    hide ListText, Split, AllPlausible, Distinct, EntryOf;
    var raws := Split(ListText(tail).value, ',');
    forall name ensures name in Distinct(raws) <==> EntryOf(raws, name) {
      DistinctMembers(raws, name);
    }
  }

  lemma {:induction false} LastConfiguredIsUnique(lines: seq<string>)
    requires LastOr(lines, ConfiguredBy).Some?
    ensures NoDup(LastOr(lines, ConfiguredBy).value)
  {
    hide ListText, Split, Entry, IsDatabaseName, After;
    if ConfiguredBy(lines[|lines| - 1]).None? {
      LastConfiguredIsUnique(lines[..|lines| - 1]);
    }
  }

  /** Line `k` carries the last sample of a shard. */
  ghost predicate SampledAt(lines: seq<string>, name: string, measured: bool, k: nat) {
    k < |lines| && Sample(lines[k]) == Some((name, measured)) &&
    forall j :: k < j < |lines| ==> (Sample(lines[j]).Some? ==> Sample(lines[j]).value.0 != name)
  }

  ghost predicate SampledSomewhere(lines: seq<string>, name: string, measured: bool) {
    exists k: nat :: SampledAt(lines, name, measured, k)
  }

  /** A shard's last sample is what the line says after which no line samples that shard. */
  lemma {:induction false} LastSampleIsLast(lines: seq<string>, name: string, measured: bool)
    ensures LastSample(lines, name) == Some(measured) <==> SampledSomewhere(lines, name, measured)
  {
    hide Sample;
    if lines != [] {
      var before := lines[..|lines| - 1];
      LastSampleIsLast(before, name, measured);
      assert forall k :: 0 <= k < |before| ==> lines[k] == before[k];
      var last := Sample(lines[|before|]);
      if last.Some? && last.value.0 == name {
        assert last.value.1 == measured ==> SampledAt(lines, name, measured, |before|);
      } else {
        if k: nat :| SampledAt(lines, name, measured, k) {
          assert SampledAt(before, name, measured, k);
        }
        if k: nat :| SampledAt(before, name, measured, k) {
          assert SampledAt(lines, name, measured, k);
        }
      }
    }
  }

  /** The metrics warning of a log: the gateway says that metrics are not configured, or some shard's last
      sample in the latest segment was not measured. */
  lemma MetricsWarningMeans(log: string)
    ensures var lines := Lines(Latest(log));
      Evidence(log).metricsWarning <==>
        AnyContains(lines, METRICS_UNSET) || exists name :: SampledSomewhere(lines, name, false)
  {
    hide AnyContains, LastSample, SampledSomewhere, Told;
    var lines := Lines(Latest(log));
    forall name ensures LastSample(lines, name) == Some(false) <==> SampledSomewhere(lines, name, false) {
      LastSampleIsLast(lines, name, false);
    }
  }

  // ---- production status: the configured topology ----

  predicate SameSet(left: seq<string>, right: seq<string>) {
    |left| == |right| && forall k :: 0 <= k < |left| ==> left[k] in right
  }

  ghost function Members(names: seq<string>): set<string> { set name | name in names }

  lemma {:induction false} MembersCount(names: seq<string>)
    ensures |Members(names)| <= |names|
    ensures |Members(names)| == |names| <==> NoDup(names)
  {
    if names != [] {
      var rest, last := names[..|names| - 1], names[|names| - 1];
      MembersCount(rest);
      assert Members(names) == Members(rest) + {last};
      assert forall k :: 0 <= k < |rest| ==> names[k] == rest[k];
      if NoDup(names) {
        assert last !in rest;
      }
    }
  }

  lemma SubsetSize(a: set<string>, b: set<string>)
    requires a <= b && |a| >= |b|
    ensures a == b
  {
    assert |b - a| == |b| - |a|;
  }

  /** Against a duplicate-free configured list the length-and-membership test is exact: the expected list
      is duplicate-free too and names the same databases. */
  lemma SameSetIsExact(configured: seq<string>, expected: seq<string>)
    requires NoDup(configured)
    ensures SameSet(configured, expected) <==> NoDup(expected) && forall x :: x in configured <==> x in expected
  {
    MembersCount(configured);
    MembersCount(expected);
    var a, b := Members(configured), Members(expected);
    if SameSet(configured, expected) {
      assert a <= b;
      SubsetSize(a, b);
      assert forall x :: x in configured <==> x in a;
      assert forall x :: x in expected <==> x in b;
    }
    if NoDup(expected) && forall x :: x in configured <==> x in expected {
      assert a == b;
    }
  }

  /** Without that the test is not set equality. */
  lemma SameSetNeedsUnique()
    ensures SameSet(["a", "a"], ["a", "b"])
    ensures "b" in ["a", "b"] && "b" !in ["a", "a"]
  {
  }

  /** The check that production status makes, on every log: with unique expected names it passes exactly
      when the gateway logged the same databases. */
  lemma TopologyCheckIsExact(log: string, databases: seq<string>)
    requires NoDup(databases) && Evidence(log).configured.Some?
    ensures var configured := Evidence(log).configured.value;
      SameSet(configured, databases) <==> forall x :: x in configured <==> x in databases
  {
    LastConfiguredIsUnique(Lines(Latest(log)));
    SameSetIsExact(Evidence(log).configured.value, databases);
  }
}
