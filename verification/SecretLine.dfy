/** Reading a password line into a buffer that must never grow (src/cmd/account.rs). */
module SecretLine {
  import opened Text

  const MAX_PASSWORD_BYTES: nat := 16
  const CAPACITY: nat := MAX_PASSWORD_BYTES + 2

  /** What one read attempt returns; the end of the sequence is the end of the stream. */
  datatype Event = Byte(c: char) | Interrupted | Failed

  datatype Read = Secret(bytes: string) | ReadError

  method ReadLineSecret(events: seq<Event>) returns (r: Read)
    ensures r.Secret? ==> |r.bytes| <= 18
    ensures r == Line(events)
  {
    var secret, endedWithLf := "", false;
    var k := 0;
    while k < |events|
      invariant 0 <= k <= |events| && |secret| <= CAPACITY && !endedWithLf
      invariant LineFrom(secret, events[k..]) == Line(events)
      decreases |events| - k
    {
      assert events[k..][0] == events[k] && events[k..][1..] == events[k + 1..];
      match events[k] {
        case Byte(c) =>
          if c == '\n' {
            endedWithLf := true;
            break;
          }
          if |secret| > MAX_PASSWORD_BYTES + 1 {
            break;
          }
          secret := secret + [c];
        case Interrupted =>
        case Failed =>
          return ReadError;
      }
      k := k + 1;
    }
    if endedWithLf && secret != [] && secret[|secret| - 1] == '\r' {
      secret := secret[..|secret| - 1];
    }
    return Secret(secret);
  }

  /** The reader as a function: `secret` is what has been stored so far. */
  function LineFrom(secret: string, events: seq<Event>): Read
    decreases |events|
  {
    if events == [] then Secret(secret)
    else match events[0]
      case Interrupted => LineFrom(secret, events[1..])
      case Failed => ReadError
      case Byte(c) =>
        if c == '\n' then Secret(DropCr(secret))
        else if |secret| >= CAPACITY then Secret(secret)
        else LineFrom(secret + [c], events[1..])
  }

  function Line(events: seq<Event>): Read { LineFrom("", events) }

  predicate Validate(password: string) { password != [] && |password| <= MAX_PASSWORD_BYTES }

  // ---- the first line of the stream ----

  /** The bytes of the stream, with interrupted reads forgotten. */
  function Bytes(events: seq<Event>): string {
    if events == [] then ""
    else (if events[0].Byte? then [events[0].c] else "") + Bytes(events[1..])
  }

  /** The bytes before the first LF, without a CR directly before it; all bytes when there is no LF. */
  function FirstLine(stream: string): string {
    match Find(stream, "\n", 0)
    case None => stream
    case Some(k) => DropCr(stream[..k])
  }

  lemma FindLf(s: string, k: nat)
    requires k < |s| && s[k] == '\n' && forall j :: 0 <= j < k ==> s[j] != '\n'
    ensures Find(s, "\n", 0) == Some(k)
  {
    assert MatchesAt(s, k, "\n");
    forall j | 0 <= j < k ensures !MatchesAt(s, j, "\n") {
      assert s[j..j + 1][0] == s[j];
    }
  }

  lemma NoLf(s: string)
    requires forall j :: 0 <= j < |s| ==> s[j] != '\n'
    ensures Find(s, "\n", 0) == None
  {
    forall j: nat | j + 1 <= |s| ensures !MatchesAt(s, j, "\n") {
      assert s[j..j + 1][0] == s[j];
    }
  }

  /** Reading is judged as if the whole line had been stored: a line longer than the buffer is cut,
      but the cut line is still too long to be valid. */
  lemma {:induction false} ReadsTheLine(secret: string, events: seq<Event>)
    requires |secret| <= CAPACITY
    requires forall j :: 0 <= j < |secret| ==> secret[j] != '\n'
    requires forall e :: e in events ==> !e.Failed?
    ensures LineFrom(secret, events).Secret?
    ensures var r, line := LineFrom(secret, events).bytes, FirstLine(secret + Bytes(events));
      (Validate(r) <==> Validate(line)) && (Validate(line) ==> r == line)
    decreases |events|
  {
    if events == [] {
      assert secret + "" == secret;
      NoLf(secret);
    } else {
      var rest := Bytes(events[1..]);
      match events[0]
      case Interrupted =>
        assert secret + Bytes(events) == secret + rest;
        ReadsTheLine(secret, events[1..]);
      case Byte(c) =>
        var all := secret + Bytes(events);
        assert all == (secret + [c]) + rest;
        if c == '\n' {
          FindLf(all, |secret|);
          assert all[..|secret|] == secret;
        } else if |secret| >= CAPACITY {
          TooLong(all, |secret| + 1);
        } else {
          ReadsTheLine(secret + [c], events[1..]);
        }
    }
  }

  /** A stream whose first 19 bytes hold no LF has no valid first line. */
  lemma TooLong(all: string, n: nat)
    requires CAPACITY < n <= |all|
    requires forall j :: 0 <= j < n ==> all[j] != '\n'
    ensures !Validate(FirstLine(all))
  {
    var k := Find(all, "\n", 0);
    if k.Some? {
      assert MatchesAt(all, k.value, "\n");
      assert all[k.value..k.value + 1][0] == all[k.value];
    }
  }

  /** For every stream and every pattern of interrupted reads, the password is accepted exactly when
      the first line has 1 to 16 bytes, and then it is that line. */
  lemma AcceptsExactlyShortLines(events: seq<Event>)
    requires forall e :: e in events ==> !e.Failed?
    ensures Line(events).Secret?
    ensures Validate(Line(events).bytes) <==> 1 <= |FirstLine(Bytes(events))| <= 16
    ensures Validate(Line(events).bytes) ==> Line(events).bytes == FirstLine(Bytes(events))
  {
    ReadsTheLine("", events);
    assert "" + Bytes(events) == Bytes(events);
  }

  /** Interrupted reads change nothing. */
  lemma {:induction false} InterruptsDoNotMatter(secret: string, before: seq<Event>, after: seq<Event>)
    ensures LineFrom(secret, before + [Interrupted] + after) == LineFrom(secret, before + after)
    decreases |before|
  {
    if before == [] {
      assert before + [Interrupted] + after == [Interrupted] + after && before + after == after;
      assert ([Interrupted] + after)[1..] == after;
    } else {
      assert (before + [Interrupted] + after)[1..] == before[1..] + [Interrupted] + after;
      assert (before + after)[1..] == before[1..] + after;
      match before[0]
      case Byte(c) => InterruptsDoNotMatter(secret + [c], before[1..], after);
      case Interrupted => InterruptsDoNotMatter(secret, before[1..], after);
      case Failed =>
    }
  }
}
