/** Where the client-facing listeners are bound, and how the state file records it (src/project.rs,
    `ClientBind`). Addresses print and parse as the standard library does: four decimal octets, no
    leading zeros. */
module ClientAddress {
  import opened Text

  type Byte = n: nat | n < 256

  datatype Ip = Ip(a: Byte, b: Byte, c: Byte, d: Byte)

  datatype ClientBind = Loopback | Lan(ip: Ip)

  function Digit(n: nat): char
    requires n < 10
  {
    (n + 48) as char
  }

  function DigitValue(c: char): nat
    requires IsDigit(c)
  {
    c as int - 48
  }

  function Octet(n: Byte): string {
    if n < 10 then [Digit(n)]
    else if n < 100 then [Digit(n / 10), Digit(n % 10)]
    else [Digit(n / 100), Digit(n / 10 % 10), Digit(n % 10)]
  }

  function Value(digits: string): nat
    requires forall k :: 0 <= k < |digits| ==> IsDigit(digits[k])
  {
    if digits == [] then 0 else Value(digits[..|digits| - 1]) * 10 + DigitValue(digits[|digits| - 1])
  }

  function ReadOctet(p: string): Option<Byte> {
    if 1 <= |p| <= 3 && (forall k :: 0 <= k < |p| ==> IsDigit(p[k])) && (p[0] == '0' ==> |p| == 1) && Value(p) < 256
    then Some(Value(p)) else None
  }

  function Print(ip: Ip): string { JoinWith([Octet(ip.a), Octet(ip.b), Octet(ip.c), Octet(ip.d)], '.') }

  function Read(s: string): Option<Ip> {
    var p := Split(s, '.');
    if |p| == 4 && ReadOctet(p[0]).Some? && ReadOctet(p[1]).Some? && ReadOctet(p[2]).Some? && ReadOctet(p[3]).Some?
    then Some(Ip(ReadOctet(p[0]).value, ReadOctet(p[1]).value, ReadOctet(p[2]).value, ReadOctet(p[3]).value))
    else None
  }

  /** The private ranges of RFC 1918. */
  predicate IsPrivate(ip: Ip) {
    ip.a == 10 || (ip.a == 172 && 16 <= ip.b <= 31) || (ip.a == 192 && ip.b == 168)
  }

  function Host(bind: ClientBind): string {
    match bind
    case Loopback => Print(Ip(127, 0, 0, 1))
    case Lan(ip) => Print(ip)
  }

  function FromRecorded(host: string): ClientBind {
    match Read(host)
    case Some(ip) => if IsPrivate(ip) then Lan(ip) else Loopback
    case None => Loopback
  }

  /** `--lan <IP>`. */
  function ParseLan(raw: string): Option<ClientBind> {
    match Read(Trim(raw))
    case Some(ip) => if IsPrivate(ip) then Some(Lan(ip)) else None
    case None => None
  }

  /** The binds that a command line can ask for. */
  ghost predicate Askable(bind: ClientBind) { bind == Loopback || exists raw :: ParseLan(raw) == Some(bind) }

  lemma Values(p: string)
    requires 1 <= |p| <= 3 && forall k :: 0 <= k < |p| ==> IsDigit(p[k])
    ensures |p| == 1 ==> Value(p) == DigitValue(p[0])
    ensures |p| == 2 ==> Value(p) == DigitValue(p[0]) * 10 + DigitValue(p[1])
    ensures |p| == 3 ==> Value(p) == DigitValue(p[0]) * 100 + DigitValue(p[1]) * 10 + DigitValue(p[2])
  {
    assert Value([]) == 0;
    assert p[..1] == [p[0]] && [p[0]][..0] == [];
    if |p| > 1 {
      assert p[..2] == [p[0], p[1]] && [p[0], p[1]][..1] == [p[0]];
    }
  }

  lemma OctetReads(n: Byte)
    ensures ReadOctet(Octet(n)) == Some(n)
  {
    var o := Octet(n);
    assert forall k :: 0 <= k < |o| ==> IsDigit(o[k]);
    Values(o);
    hide Value;
    Composed(n);
  }

  lemma Composed(n: nat)
    ensures n / 100 * 100 + n / 10 % 10 * 10 + n % 10 == n
    ensures n < 100 ==> n / 10 * 10 + n % 10 == n && n / 10 < 10
  {
    assert n == n / 10 * 10 + n % 10;
    assert n / 10 == n / 10 / 10 * 10 + n / 10 % 10;
    assert n / 10 / 10 == n / 100;
  }

  lemma Places(h: nat, t: nat, u: nat)
    requires h < 10 && t < 10 && u < 10
    ensures var n := h * 100 + t * 10 + u; n / 100 == h && n / 10 % 10 == t && n % 10 == u
    ensures h == 0 ==> (h * 100 + t * 10 + u) / 10 == t
  {
    var n, high, low := h * 100 + t * 10 + u, h * 10 + t, t * 10 + u;
    assert n == h * 100 + low && 0 <= low < 100 && n / 100 == h;
    assert n == high * 10 + u && n / 10 == high && n % 10 == u;
    assert high % 10 == t;
  }

  lemma ReadingIsOctet(p: string)
    requires ReadOctet(p).Some?
    ensures p == Octet(ReadOctet(p).value)
  {
    Values(p);
    hide Value;
    var o := Octet(ReadOctet(p).value);
    if |p| == 1 {
      assert |o| == 1 && o[0] == p[0];
    } else if |p| == 2 {
      Places(0, DigitValue(p[0]), DigitValue(p[1]));
      assert |o| == 2 && o[0] == p[0] && o[1] == p[1];
    } else {
      Places(DigitValue(p[0]), DigitValue(p[1]), DigitValue(p[2]));
      assert |o| == 3 && o[0] == p[0] && o[1] == p[1] && o[2] == p[2];
    }
  }

  /** An octet has one spelling. */
  lemma OctetSpelling(p: string, n: Byte)
    ensures ReadOctet(p) == Some(n) <==> p == Octet(n)
  {
    hide Octet;
    OctetReads(n);
    if ReadOctet(p) == Some(n) {
      hide ReadOctet;
      ReadingIsOctet(p);
    }
  }

  lemma OctetHasNoDot(n: Byte)
    ensures '.' !in Octet(n)
  {
  }

  /** An address has one spelling: reading and printing undo each other, and nothing else reads. */
  lemma AddressSpelling(s: string, ip: Ip)
    ensures Read(s) == Some(ip) <==> s == Print(ip)
  {
    hide Octet, ReadOctet, JoinWith, Split;
    var p, o := Split(s, '.'), [Octet(ip.a), Octet(ip.b), Octet(ip.c), Octet(ip.d)];
    OctetHasNoDot(ip.a);
    OctetHasNoDot(ip.b);
    OctetHasNoDot(ip.c);
    OctetHasNoDot(ip.d);
    SplitJoined(o, '.');
    JoinSplit(s, '.');
    assert s == Print(ip) <==> p == o;
    PiecesSpelling(p, ip);
  }

  lemma PiecesSpelling(p: seq<string>, ip: Ip)
    ensures p == [Octet(ip.a), Octet(ip.b), Octet(ip.c), Octet(ip.d)] <==>
      |p| == 4 && ReadOctet(p[0]) == Some(ip.a) && ReadOctet(p[1]) == Some(ip.b) &&
      ReadOctet(p[2]) == Some(ip.c) && ReadOctet(p[3]) == Some(ip.d)
  {
    hide Octet, ReadOctet;
    if |p| == 4 {
      OctetSpelling(p[0], ip.a);
      OctetSpelling(p[1], ip.b);
      OctetSpelling(p[2], ip.c);
      OctetSpelling(p[3], ip.d);
      assert p == [p[0], p[1], p[2], p[3]];
    }
  }

  /** What `up` records reads back as what it was asked for; and a cleared record reads back as loopback. */
  lemma RecordedBindRoundTrips(bind: ClientBind)
    requires Askable(bind)
    ensures FromRecorded(Host(bind)) == bind
    ensures FromRecorded("") == Loopback
  {
    hide Read, Print;
    AddressSpelling(Host(bind), if bind.Lan? then bind.ip else Ip(127, 0, 0, 1));
    if bind.Lan? {
      var raw :| ParseLan(raw) == Some(bind);
    }
    EmptyIsNoAddress();
  }

  lemma EmptyIsNoAddress()
    ensures Read("").None?
  {
    assert |Split("", '.')| == 1;
  }

  /** An address prints without blanks around it. */
  lemma PrintedIsTrim(ip: Ip)
    ensures Trim(Print(ip)) == Print(ip)
  {
    hide Octet;
    var s, rest := Print(ip), JoinWith([Octet(ip.b), Octet(ip.c), Octet(ip.d)], '.');
    OctetEnds(ip.a);
    OctetEnds(ip.d);
    var o := [Octet(ip.a), Octet(ip.b), Octet(ip.c), Octet(ip.d)];
    assert o == [Octet(ip.a), Octet(ip.b), Octet(ip.c)] + [Octet(ip.d)];
    JoinConcat([Octet(ip.a), Octet(ip.b), Octet(ip.c)], [Octet(ip.d)], '.');
    assert JoinWith([Octet(ip.d)], '.') == Octet(ip.d);
    assert s[|s| - 1] == Octet(ip.d)[|Octet(ip.d)| - 1];
    assert s == Octet(ip.a) + ['.'] + JoinWith(o[1..], '.') && s[0] == Octet(ip.a)[0];
  }

  lemma OctetEnds(n: Byte)
    ensures Octet(n) != [] && !IsSpace(Octet(n)[0]) && !IsSpace(Octet(n)[|Octet(n)| - 1])
  {
  }

  /** What can be asked for: loopback, or any private address. */
  lemma AskableMeans(bind: ClientBind)
    ensures Askable(bind) <==> bind.Loopback? || IsPrivate(bind.ip)
  {
    hide Read, Print, Trim;
    if bind.Lan? && IsPrivate(bind.ip) {
      PrintedIsTrim(bind.ip);
      AddressSpelling(Print(bind.ip), bind.ip);
      assert ParseLan(Print(bind.ip)) == Some(bind);
    }
    if bind.Lan? && Askable(bind) {
      var raw :| ParseLan(raw) == Some(bind);
    }
  }

  /** One to three digits that write the number in decimal, without a leading zero. */
  predicate Decimal(p: string, n: nat) {
    && 1 <= |p| <= 3 && (forall k :: 0 <= k < |p| ==> '0' <= p[k] <= '9') && (p[0] == '0' ==> |p| == 1)
    && n == (if |p| == 1 then p[0] as int - 48
             else if |p| == 2 then (p[0] as int - 48) * 10 + (p[1] as int - 48)
             else (p[0] as int - 48) * 100 + (p[1] as int - 48) * 10 + (p[2] as int - 48))
  }

  /** The four numbers of the address in decimal, with dots between them. */
  ghost predicate Dotted(s: string, ip: Ip, a: string, b: string, c: string, d: string) {
    && s == a + ("." + (b + ("." + (c + ("." + d)))))
    && Decimal(a, ip.a) && Decimal(b, ip.b) && Decimal(c, ip.c) && Decimal(d, ip.d)
  }

  lemma DecimalIsOctet(p: string, n: Byte)
    ensures Decimal(p, n) <==> p == Octet(n)
  {
    hide Octet, Value;
    OctetSpelling(p, n);
    if 1 <= |p| <= 3 && forall k :: 0 <= k < |p| ==> IsDigit(p[k]) {
      Values(p);
    }
  }

  lemma PointsBetween(part: string, rest: seq<string>)
    requires rest != []
    ensures JoinWith([part] + rest, '.') == part + ("." + JoinWith(rest, '.'))
    ensures JoinWith([part], '.') == part && (|rest| == 1 ==> JoinWith(rest, '.') == rest[0])
  {
    hide JoinWith;
    var parts := [part] + rest;
    assert parts[1..] == rest && parts[0] == part;
    JoinsNext(parts);
    JoinsNext([part]);
    JoinsNext(rest);
  }

  lemma JoinsNext(parts: seq<string>)
    requires parts != []
    ensures |parts| == 1 ==> JoinWith(parts, '.') == parts[0]
    ensures |parts| > 1 ==> JoinWith(parts, '.') == parts[0] + ("." + JoinWith(parts[1..], '.'))
  {
    if |parts| > 1 {
      var rest := JoinWith(parts[1..], '.');
      assert (parts[0] + ".") + rest == parts[0] + ("." + rest);
    }
  }

  /** How an address is written. */
  lemma PrintMeans(s: string, ip: Ip)
    ensures s == Print(ip) <==> exists a, b, c, d :: Dotted(s, ip, a, b, c, d)
  {
    hide Decimal, Octet, JoinWith;
    var o := [Octet(ip.a), Octet(ip.b), Octet(ip.c), Octet(ip.d)];
    PointsBetween(o[0], [o[1], o[2], o[3]]);
    PointsBetween(o[1], [o[2], o[3]]);
    PointsBetween(o[2], [o[3]]);
    var printed := o[0] + ("." + (o[1] + ("." + (o[2] + ("." + o[3])))));
    assert o == [o[0]] + [o[1], o[2], o[3]] && [o[1], o[2], o[3]] == [o[1]] + [o[2], o[3]];
    assert [o[2], o[3]] == [o[2]] + [o[3]];
    DecimalIsOctet(o[0], ip.a);
    DecimalIsOctet(o[1], ip.b);
    DecimalIsOctet(o[2], ip.c);
    DecimalIsOctet(o[3], ip.d);
    assert Dotted(printed, ip, o[0], o[1], o[2], o[3]);
    if a, b, c, d :| Dotted(s, ip, a, b, c, d) {
      DecimalIsOctet(a, ip.a);
      DecimalIsOctet(b, ip.b);
      DecimalIsOctet(c, ip.c);
      DecimalIsOctet(d, ip.d);
    }
  }

  /** The private addresses as ranges of 32-bit numbers. */
  lemma PrivateMeans(ip: Ip)
    ensures var v := ip.a * 0x1000000 + ip.b * 0x10000 + ip.c * 0x100 + ip.d;
      IsPrivate(ip) <==>
        0x0A000000 <= v <= 0x0AFFFFFF || 0xAC100000 <= v <= 0xAC1FFFFF || 0xC0A80000 <= v <= 0xC0A8FFFF
  {
  }

  /** `--lan` takes exactly the private addresses, with blanks around them or not, and nothing else. */
  lemma LanMeans(raw: string, ip: Ip)
    ensures ParseLan(raw) == Some(Lan(ip)) <==> Trim(raw) == Print(ip) && IsPrivate(ip)
    ensures ParseLan(raw) != Some(Loopback)
  {
    hide Read, Print, Trim, IsPrivate;
    AddressSpelling(Trim(raw), ip);
  }
}
