/** The operator's notation: IPv4 addresses, MAC addresses, masks and decimal
    numbers, with the checks `server.c` makes on them. */
module Address {
  import opened CString

  const MAC_ADDR_LEN := 18
  const MAX_MASK := 32
  const INT_MAX := 0x7fff_ffff

  predicate IsDigit(c: char) { '0' <= c <= '9' }

  predicate IsHexDigit(c: char) {
    IsDigit(c) || 'a' <= c <= 'f' || 'A' <= c <= 'F'
  }

  predicate AllDigits(s: string) {
    forall c | c in s :: IsDigit(c)
  }

  /** The number a string of digits denotes. */
  function Value(s: string): nat
    requires AllDigits(s)
  {
    if s == "" then 0
    else
      assert IsDigit(s[|s| - 1]);
      Value(s[..|s| - 1]) * 10 + (s[|s| - 1] as int - '0' as int)
  }

  /** What `printf` writes for `%u`. */
  function Decimal(n: nat): (s: string)
    ensures s != "" && AllDigits(s)
    ensures n < 100 ==> |s| <= 2
  {
    var last := [('0' as int + n % 10) as char];
    if n < 10 then last else Decimal(n / 10) + last
  }

  lemma {:induction false} ValueOfDecimal(n: nat)
    ensures Value(Decimal(n)) == n
  {
    if n >= 10 {
      ValueOfDecimal(n / 10);
      var s := Decimal(n);
      assert s[..|s| - 1] == Decimal(n / 10);
    } else {
      assert Decimal(n)[..0] == "";
    }
  }

  // ----- IPv4 -----

  /** The pieces between the dots. */
  function Fields(s: string): (fs: seq<string>)
    ensures |fs| >= 1
  {
    if s == "" then [""]
    else
      var fs := Fields(s[1..]);
      if s[0] == '.' then [""] + fs else [[s[0]] + fs[0]] + fs[1..]
  }

  predicate IsOctet(s: string) {
    1 <= |s| <= 3 && AllDigits(s) && Value(s) <= 255
  }

  /** Dotted decimal: four numbers of one to three digits, each at most 255. */
  predicate IsIp(s: string) {
    var fs := Fields(s);
    |fs| == 4 && forall i | 0 <= i < 4 :: IsOctet(fs[i])
  }

  function Dotted(fs: seq<string>): string
    requires |fs| >= 1
  {
    if |fs| == 1 then fs[0] else fs[0] + "." + Dotted(fs[1..])
  }

  lemma {:induction false} DottedFields(s: string)
    ensures Dotted(Fields(s)) == s
  {
    if s != "" {
      DottedFields(s[1..]);
      var fs, gs := Fields(s[1..]), Fields(s);
      if s[0] == '.' {
        assert gs[1..] == fs;
      } else if |fs| > 1 {
        assert gs[1..] == fs[1..];
        assert gs[0] + "." + Dotted(fs[1..]) == [s[0]] + (fs[0] + "." + Dotted(fs[1..]));
      }
    }
  }

  lemma {:induction false} FieldsOfDotted(a: string, rest: string)
    requires '.' !in a
    ensures Fields(a + "." + rest) == [a] + Fields(rest)
  {
    if a == "" {
      assert a + "." + rest == ['.'] + rest;
      assert (a + "." + rest)[1..] == rest;
    } else {
      assert (a + "." + rest)[1..] == a[1..] + "." + rest;
      FieldsOfDotted(a[1..], rest);
      assert [a[0]] + a[1..] == a;
    }
  }

  lemma {:induction false} FieldsOfOne(a: string)
    requires '.' !in a
    ensures Fields(a) == [a]
  {
    if a != "" {
      FieldsOfOne(a[1..]);
      assert [a[0]] + a[1..] == a;
    }
  }

  /** The converse: any four octets with dots between them are an address. */
  lemma OctetsAreIp(a: string, b: string, c: string, d: string)
    requires IsOctet(a) && IsOctet(b) && IsOctet(c) && IsOctet(d)
    ensures IsIp(a + "." + b + "." + c + "." + d)
  {
    var s2 := c + "." + d;
    var s1 := b + "." + s2;
    FieldsOfOne(d);
    FieldsOfDotted(c, d);
    FieldsOfDotted(b, s2);
    FieldsOfDotted(a, s1);
    assert a + "." + b + "." + c + "." + d == a + "." + s1;
    assert Fields(a + "." + s1) == [a, b, c, d];
  }

  /** So an address is exactly that. */
  lemma IpIsFourOctets(s: string)
    ensures IsIp(s) <==> exists a, b, c, d ::
              IsOctet(a) && IsOctet(b) && IsOctet(c) && IsOctet(d) && s == a + "." + b + "." + c + "." + d
  {
    if IsIp(s) {
      var fs := Fields(s);
      IpParts(s);
      assert IsOctet(fs[0]) && IsOctet(fs[1]) && IsOctet(fs[2]) && IsOctet(fs[3]);
    }
    forall a, b, c, d | IsOctet(a) && IsOctet(b) && IsOctet(c) && IsOctet(d) && s == a + "." + b + "." + c + "." + d
      ensures IsIp(s)
    {
      OctetsAreIp(a, b, c, d);
    }
  }

  lemma IpParts(s: string)
    requires IsIp(s)
    ensures var fs := Fields(s); s == fs[0] + "." + fs[1] + "." + fs[2] + "." + fs[3]
  {
    var fs := Fields(s);
    DottedFields(s);
    assert Dotted(fs[3..]) == fs[3];
    assert fs[2..][1..] == fs[3..];
    assert Dotted(fs[2..]) == fs[2] + "." + fs[3];
    assert fs[1..][1..] == fs[2..];
    assert Dotted(fs[1..]) == fs[1] + "." + Dotted(fs[2..]);
    assert s == fs[0] + "." + (fs[1] + "." + (fs[2] + "." + fs[3]));
  }

  /** One more digit. */
  lemma ValueMore(s: string, c: char)
    requires AllDigits(s) && IsDigit(c)
    ensures AllDigits(s + [c]) && Value(s + [c]) == 10 * Value(s) + (c as int - '0' as int)
  {
    assert (s + [c])[..|s|] == s;
  }

  /** The octets among the numbers. */
  lemma OctetIsByte(n: nat)
    ensures IsOctet(Decimal(n)) <==> n < 256
  {
    ValueOfDecimal(n);
    DecimalLength(n);
  }

  lemma DecimalLength(n: nat)
    ensures n < 1000 ==> |Decimal(n)| <= 3
  {
    if n >= 10 {
      assert n < 1000 ==> n / 10 < 100;
      assert Decimal(n) == Decimal(n / 10) + [('0' as int + n % 10) as char];
    }
  }

  lemma SmallOctets()
    ensures IsOctet("0") && IsOctet("1") && IsOctet("10")
  {
    assert "0"[..0] == "" && "1"[..0] == "" && "10"[..1] == "1";
    assert Value("1") == 1;
  }

  /** A valid address is made of digits and dots and fits a 16-byte field together
      with its terminator. */
  lemma IpShape(s: string)
    requires IsIp(s)
    ensures 7 <= |s| <= 15
    ensures forall c | c in s :: IsDigit(c) || c == '.'
  {
    var fs := Fields(s);
    IpParts(s);
    assert forall i | 0 <= i < 4 :: IsOctet(fs[i]);
  }

  // ----- MAC -----

  /** `XX:XX:XX:XX:XX:XX`, hexadecimal in either case. */
  predicate IsMac(s: string) {
    |s| == 17
    && forall i | 0 <= i < 17 :: if i % 3 == 2 then s[i] == ':' else IsHexDigit(s[i])
  }

  predicate IsPair(p: string) {
    |p| == 2 && IsHexDigit(p[0]) && IsHexDigit(p[1])
  }

  function Colons(a: string, b: string, c: string, d: string, e: string, f: string): string {
    a + ":" + b + ":" + c + ":" + d + ":" + e + ":" + f
  }

  lemma PairsAreMac(a: string, b: string, c: string, d: string, e: string, f: string)
    requires IsPair(a) && IsPair(b) && IsPair(c) && IsPair(d) && IsPair(e) && IsPair(f)
    ensures IsMac(Colons(a, b, c, d, e, f))
  {
    assert Colons(a, b, c, d, e, f) ==
           [a[0], a[1], ':', b[0], b[1], ':', c[0], c[1], ':', d[0], d[1], ':', e[0], e[1], ':', f[0], f[1]];
  }

  lemma MacPairs(s: string)
    requires IsMac(s)
    ensures IsPair(s[0..2]) && IsPair(s[3..5]) && IsPair(s[6..8])
    ensures IsPair(s[9..11]) && IsPair(s[12..14]) && IsPair(s[15..17])
    ensures s == Colons(s[0..2], s[3..5], s[6..8], s[9..11], s[12..14], s[15..17])
  {
    assert s[2] == ':' && s[5] == ':' && s[8] == ':' && s[11] == ':' && s[14] == ':';
    assert s == s[0..2] + ":" + s[3..5] + ":" + s[6..8] + ":" + s[9..11] + ":" + s[12..14] + ":" + s[15..17];
  }

  /** A MAC address is six pairs of hexadecimal digits with colons between them, and nothing
      else is. */
  lemma MacIsSixPairs(s: string)
    ensures IsMac(s) <==> exists a, b, c, d, e, f ::
              && IsPair(a) && IsPair(b) && IsPair(c) && IsPair(d) && IsPair(e) && IsPair(f)
              && s == Colons(a, b, c, d, e, f)
  {
    if IsMac(s) {
      MacPairs(s);
    }
    forall a, b, c, d, e, f | IsPair(a) && IsPair(b) && IsPair(c) && IsPair(d) && IsPair(e) && IsPair(f)
                              && s == Colons(a, b, c, d, e, f)
      ensures IsMac(s)
    {
      PairsAreMac(a, b, c, d, e, f);
    }
  }

  /** No text is both, so the choice between the two tables is unambiguous. */
  lemma IpIsNotMac(s: string)
    ensures !(IsIp(s) && IsMac(s))
  {
    if IsIp(s) {
      IpShape(s);
      assert s[2] in s;
    }
  }

  // ----- The checks, as loops over a terminated string -----

  /** `s[i]` in C: indices up to and including the terminator may be read. */
  function At(s: string, i: nat): char
    requires i <= |s|
  {
    if i == |s| then NUL else s[i]
  }

  /** The precondition of `At` makes this verify only because no read goes past
      the terminator, however short the string. */
  method IsValidMac(addr: string) returns (valid: bool)
    requires NUL !in addr
    ensures valid <==> IsMac(addr)
  {
    var i := 0;
    while i < MAC_ADDR_LEN - 1
      invariant 0 <= i <= 17 && i <= |addr|
      invariant forall j | 0 <= j < i :: if j % 3 == 2 then addr[j] == ':' else IsHexDigit(addr[j])
    {
      if i % 3 != 2 && !IsHexDigit(At(addr, i)) {
        return false;
      }
      if i % 3 == 2 && At(addr, i) != ':' {
        return false;
      }
      i := i + 1;
    }
    return At(addr, i) == NUL;
  }

  method DigitsOnly(s: string) returns (yes: bool)
    requires NUL !in s
    ensures yes <==> AllDigits(s)
  {
    var i := 0;
    while At(s, i) != NUL
      invariant i <= |s|
      invariant AllDigits(s[..i])
      decreases |s| - i
    {
      if !IsDigit(At(s, i)) {
        return false;
      }
      i := i + 1;
    }
    assert s[..i] == s;
    return true;
  }
}
