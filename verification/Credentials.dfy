/** The ladder of operator credentials (src/token.rs): the persisted token, the `spacetime` login, or a
    freshly minted identity. */
module Credentials {
  import opened Text
  import opened RealmWorld

  /** In bytes. */
  const MIN_TOKEN_LEN := 16

  datatype Source = Persisted | SpacetimeLogin | ServerIssued

  datatype Credential = Credential(token: string, source: Source)

  predicate IsServerIssued(c: Credential) { c.source.Persisted? || c.source.ServerIssued? }

  /** An absent or implausible file reads as no token. */
  function ReadStore(store: Option<string>): Option<string> {
    if store.Some? && ByteLen(Trim(store.value)) >= MIN_TOKEN_LEN then Some(Trim(store.value)) else None
  }

  function TokenLine(lines: seq<string>): Option<string> {
    if lines == [] then None else if Contains(lines[0], "auth token") then Some(lines[0]) else TokenLine(lines[1..])
  }

  function WordStart(s: string): nat
    ensures WordStart(s) <= |s|
  {
    if s == [] || IsSpace(s[|s| - 1]) then |s| else WordStart(s[..|s| - 1])
  }

  function LastWord(s: string): Option<string> {
    var t := TrimEnd(s);
    if t == [] then None else Some(t[WordStart(t)..])
  }

  /** The token in the banner of `spacetime login show --token`. */
  function Parse(banner: string): Option<string> {
    var line := TokenLine(Lines(banner));
    var token := if line.Some? then LastWord(line.value) else None;
    if token.Some? && ByteLen(token.value) >= MIN_TOKEN_LEN then token else None
  }

  /** The token whose identity the `spacetime` CLI calls as. */
  function CliToken(w: World): Option<string> {
    if w.login.Some? then Parse(w.login.value) else None
  }

  function Existing(w: World): (World, Option<Credential>) {
    var kept := ReadStore(w.store);
    if kept.Some? then (w, Some(Credential(kept.value, Persisted)))
    else
      var now := Tick(w);
      var token := if Head(w).yes then CliToken(now) else None;
      (now, if token.Some? then Some(Credential(token.value, SpacetimeLogin)) else None)
  }

  /** A failed write leaves anything in the file. */
  function Persist(w: World, token: string): (World, bool) {
    var now := Tick(w);
    (now.(store := Some(if Head(w).yes then token + "\n" else Head(w).text)), Head(w).yes)
  }

  function ResolveOrMint(w: World): (World, Option<Credential>) {
    var (found, existing) := Existing(w);
    if existing.Some? then (found, existing)
    else
      var asked, answer := Tick(found), Head(found);
      if !answer.yes || ByteLen(answer.text) < MIN_TOKEN_LEN then (asked, None)
      else
        var (kept, worked) := Persist(asked, answer.text);
        (kept, if worked then Some(Credential(answer.text, ServerIssued)) else None)
  }

  method Resolve(host: Machine) returns (c: Option<Credential>)
    modifies host
    ensures (host.world, c) == ResolveOrMint(old(host.world))
  {
    hide Tick, ReadStore, Parse;
    var kept := ReadStore(host.world.store);
    if kept.Some? {
      return Some(Credential(kept.value, Persisted));
    }
    var shown := host.Observe();
    var token := if shown.yes then CliToken(host.world) else None;
    if token.Some? {
      return Some(Credential(token.value, SpacetimeLogin));
    }
    var minted := host.Observe();
    if !minted.yes || ByteLen(minted.text) < MIN_TOKEN_LEN {
      return None;
    }
    var r := Persist(host.world, minted.text);
    host.world := r.0;
    if !r.1 {
      return None;
    }
    return Some(Credential(minted.text, ServerIssued));
  }

  lemma TrimLine(token: string)
    requires token != [] && !IsSpace(token[0]) && !IsSpace(token[|token| - 1])
    ensures Trim(token + "\n") == token
  {
    assert (token + "\n")[..|token|] == token;
    assert TrimEnd(token + "\n") == TrimEnd(token) == token;
  }

  /** The token that a run minted is the one every later run reads back, as long as the file stays and the
      token has no blanks around it. */
  lemma MintedIsReused(w: World, later: World)
    requires var (now, c) := ResolveOrMint(w);
      && c.Some? && c.value.source.ServerIssued?
      && !IsSpace(c.value.token[0]) && !IsSpace(c.value.token[|c.value.token| - 1])
      && later.store == now.store
    ensures var c := ResolveOrMint(w).1.value;
      ResolveOrMint(later) == (later, Some(Credential(c.token, Persisted)))
  {
    hide Tick, Parse, Trim, ByteLen, ResolveOrMint;
    var c := ResolveOrMint(w).1.value;
    MintedIsStored(w);
    TrimLine(c.token);
    StoredIsResolved(later, c.token);
  }

  lemma MintedIsStored(w: World)
    requires ResolveOrMint(w).1.Some? && ResolveOrMint(w).1.value.source.ServerIssued?
    ensures var token := ResolveOrMint(w).1.value.token;
      ResolveOrMint(w).0.store == Some(token + "\n") && ByteLen(token) >= MIN_TOKEN_LEN && token != ""
  {
    hide Tick, Parse, ReadStore;
  }

  lemma StoredIsResolved(w: World, token: string)
    requires w.store == Some(token + "\n") && Trim(token + "\n") == token && ByteLen(token) >= MIN_TOKEN_LEN
    ensures ResolveOrMint(w) == (w, Some(Credential(token, Persisted)))
  {
    hide Tick, Parse, Trim, ByteLen;
  }

  /** The first line that mentions the token. */
  ghost predicate Mentions(lines: seq<string>, k: nat) {
    && k < |lines| && Contains(lines[k], "auth token")
    && forall j :: 0 <= j < k ==> !Contains(lines[j], "auth token")
  }

  /** `word` is the last word of the line. */
  ghost predicate EndsWithWord(line: string, before: string, word: string, blanks: string) {
    && line == (before + word) + blanks && AllSpace(blanks) && word != "" && NoSpace(word)
    && (before == "" || IsSpace(before[|before| - 1]))
  }

  lemma {:induction false} TokenLineIs(lines: seq<string>)
    ensures forall k: nat :: Mentions(lines, k) ==> TokenLine(lines) == Some(lines[k])
    ensures TokenLine(lines).Some? ==> exists k: nat :: Mentions(lines, k)
  {
    hide Contains;
    if lines != [] && !Contains(lines[0], "auth token") {
      TokenLineIs(lines[1..]);
      forall k: nat | Mentions(lines, k) ensures TokenLine(lines) == Some(lines[k]) {
        assert forall j :: 0 <= j < k - 1 ==> lines[1..][j] == lines[j + 1];
        assert Mentions(lines[1..], k - 1);
      }
      if TokenLine(lines).Some? {
        var k: nat :| Mentions(lines[1..], k);
        assert forall j :: 0 < j < k + 1 ==> lines[j] == lines[1..][j - 1];
        assert Mentions(lines, k + 1);
      }
    } else if lines != [] {
      assert Mentions(lines, 0);
    }
  }

  lemma {:induction false} WordStartIs(s: string)
    ensures forall k :: WordStart(s) <= k < |s| ==> !IsSpace(s[k])
    ensures WordStart(s) == 0 || IsSpace(s[WordStart(s) - 1])
  {
    if s != [] && !IsSpace(s[|s| - 1]) {
      var init := s[..|s| - 1];
      WordStartIs(init);
      assert forall k :: 0 <= k < |init| ==> init[k] == s[k];
    }
  }

  lemma {:induction false} StartOfWord(before: string, word: string)
    requires NoSpace(word) && (before == "" || IsSpace(before[|before| - 1]))
    ensures WordStart(before + word) == |before|
    decreases |word|
  {
    var s := before + word;
    if word != [] {
      StartOfWord(before, word[..|word| - 1]);
      assert s[..|s| - 1] == before + word[..|word| - 1];
    }
  }

  lemma {:induction false} TrimEndIs(s: string, blanks: string)
    requires AllSpace(blanks) && (s == "" || !IsSpace(s[|s| - 1]))
    ensures TrimEnd(s + blanks) == s
    decreases |blanks|
  {
    if blanks == [] {
      assert s + blanks == s;
    } else {
      TrimEndIs(s, blanks[..|blanks| - 1]);
      assert (s + blanks)[..|s + blanks| - 1] == s + blanks[..|blanks| - 1];
    }
  }

  lemma LastWordMeans(line: string, word: string)
    ensures LastWord(line) == Some(word) <==> exists before, blanks :: EndsWithWord(line, before, word, blanks)
  {
    hide LastWord, EndsWithWord;
    if LastWord(line) == Some(word) {
      LastWordEnds(line, word);
    }
    if before, blanks :| EndsWithWord(line, before, word, blanks) {
      EndIsLastWord(line, before, word, blanks);
    }
  }

  lemma LastWordEnds(line: string, word: string)
    requires LastWord(line) == Some(word)
    ensures exists before, blanks :: EndsWithWord(line, before, word, blanks)
  {
    hide TrimEnd, WordStart, AllSpace, NoSpace;
    var t := TrimEnd(line);
    var blanks := BlanksBehind(line);
    var before := BeforeWord(t);
    assert EndsWithWord(line, before, word, blanks);
  }

  lemma BlanksBehind(line: string) returns (blanks: string)
    ensures line == TrimEnd(line) + blanks && AllSpace(blanks)
  {
    hide TrimEnd;
    blanks := line[|TrimEnd(line)|..];
  }

  lemma BeforeWord(t: string) returns (before: string)
    ensures t == before + t[WordStart(t)..] && NoSpace(t[WordStart(t)..])
    ensures before == "" || IsSpace(before[|before| - 1])
    ensures t != "" && !IsSpace(t[|t| - 1]) ==> t[WordStart(t)..] != ""
  {
    hide WordStart;
    WordStartIs(t);
    before := t[..WordStart(t)];
  }

  lemma EndIsLastWord(line: string, before: string, word: string, blanks: string)
    requires EndsWithWord(line, before, word, blanks)
    ensures LastWord(line) == Some(word)
  {
    hide TrimEnd, WordStart;
    TrimEndIs(before + word, blanks);
    StartOfWord(before, word);
    assert (before + word)[|before|..] == word;
  }

  /** The token in the banner: the last word, of at least 16 bytes, of the first line that mentions the token. */
  lemma ParseMeans(banner: string, token: string)
    ensures Parse(banner) == Some(token) <==>
      && ByteLen(token) >= 16
      && exists k: nat, before, blanks ::
           Mentions(Lines(banner), k) && EndsWithWord(Lines(banner)[k], before, token, blanks)
  {
    hide Lines, TokenLine, LastWord, EndsWithWord, ByteLen, Contains;
    var lines := Lines(banner);
    TokenLineIs(lines);
    if TokenLine(lines).Some? {
      var k: nat :| Mentions(lines, k);
      LastWordMeans(lines[k], token);
    }
  }

  /** The ladder, rung by rung: a stored token of at least 16 bytes, without its blanks; the token of the login, which
      is not stored; a token that the node gives out, of at least 16 bytes, which is stored on a line of its own. */
  lemma Ladder(w: World)
    ensures var (v, c) := ResolveOrMint(w);
      if w.store.Some? && ByteLen(Trim(w.store.value)) >= 16
      then v == w && c == Some(Credential(Trim(w.store.value), Persisted))
      else if Head(w).yes && Tick(w).login.Some? && Parse(Tick(w).login.value).Some?
      then v == Tick(w) && c == Some(Credential(Parse(Tick(w).login.value).value, SpacetimeLogin))
      else
        var answer := Head(Tick(w));
        && (c.Some? <==> answer.yes && ByteLen(answer.text) >= 16 && Head(Tick(Tick(w))).yes)
        && (c.Some? ==>
              && c == Some(Credential(answer.text, ServerIssued))
              && v == Tick(Tick(Tick(w))).(store := Some(answer.text + "\n")))
  {
    hide Tick, Trim, Parse, ByteLen;
  }

  /** Only the login's own token leaves the privileged calls to the command line. */
  lemma CallsAsItself(w: World)
    requires ResolveOrMint(w).1.Some?
    ensures var c := ResolveOrMint(w).1.value;
      !IsServerIssued(c) <==>
        && (w.store.None? || ByteLen(Trim(w.store.value)) < 16)
        && Head(w).yes && Tick(w).login.Some? && Parse(Tick(w).login.value) == Some(c.token)
  {
    hide Tick, Trim, Parse, ByteLen;
  }
}
