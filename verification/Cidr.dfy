/** IPv4 patterns: parse_ipv4_cidr, parse_ipv4_addr, format_ipv4 and mask_ipv4 of
    crates/globacl-core/src/lib/rules.rs. Addresses are numbers below 2^32; masking to a prefix of
    p bits clears the low 32 - p bits, which is subtracting the remainder modulo 2^(32 - p). */
module Cidr {
  import opened Arithmetic
  import opened Domain
  import opened Text

  const ADDRESSES: nat := 0x1_0000_0000

  // mask_ipv4
  function Mask(ip: nat, prefix: nat): (network: nat)
    requires ip < ADDRESSES && prefix <= 32
    ensures network <= ip
  {
    if prefix == 0 then 0
    else
      RemainderFits(ip, Pow2(32 - prefix));
      ip - ip % Pow2(32 - prefix)
  }

  function FromOctets(a: nat, b: nat, c: nat, d: nat): (ip: nat)
    requires a <= 255 && b <= 255 && c <= 255 && d <= 255
    ensures ip < ADDRESSES
  {
    ((a * 256 + b) * 256 + c) * 256 + d
  }

  // parse_ipv4_addr
  function ParseAddr(value: string): (r: Result<nat>)
    ensures r.Ok? ==> r.value < ADDRESSES
  {
    var parts := Split(Trim(value), '.');
    if |parts| != 4 || exists i :: 0 <= i < 4 && ParseU8(parts[i]).None? then Err(Parse)
    else Ok(FromOctets(ParseU8(parts[0]).value, ParseU8(parts[1]).value,
                       ParseU8(parts[2]).value, ParseU8(parts[3]).value))
  }

  // the loop of parse_ipv4_addr, which fills an array of four octets as it goes
  method ParseAddrLoop(value: string) returns (r: Result<nat>)
    ensures r == ParseAddr(value)
  {
    var parts := Split(Trim(value), '.');
    var octets := new nat[4](_ => 0);
    var count := 0;
    for i := 0 to |parts|
      invariant count == i <= 4
      invariant forall j :: 0 <= j < i ==> ParseU8(parts[j]) == Some(octets[j])
    {
      if count >= 4 {
        return Err(Parse);
      }
      var octet := ParseU8(parts[i]);
      if octet.None? {
        return Err(Parse);
      }
      octets[count] := octet.value;
      count := count + 1;
    }
    if count != 4 {
      return Err(Parse);
    }
    assert ParseU8(parts[0]).Some? && ParseU8(parts[1]).Some? && ParseU8(parts[2]).Some? && ParseU8(parts[3]).Some?;
    return Ok(FromOctets(octets[0], octets[1], octets[2], octets[3]));
  }

  function Dotted(a: nat, b: nat, c: nat, d: nat): string {
    Join([Decimal(a), Decimal(b), Decimal(c), Decimal(d)], '.')
  }

  // format_ipv4
  function FormatAddr(ip: nat): string
    requires ip < ADDRESSES
  {
    Dotted(ip / 0x100_0000, ip / 0x1_0000 % 256, ip / 256 % 256, ip % 256)
  }

  // the canonical pattern
  function FormatCidr(network: nat, prefix: nat): string
    requires network < ADDRESSES
  {
    FormatAddr(network) + ['/'] + Decimal(prefix)
  }

  datatype Block = Block(network: nat, prefix: nat, canonical: string)

  // str::split_once('/') on the trimmed pattern, with "32" when there is no slash
  function SplitPrefix(trimmed: string): (string, string) {
    var parts := Split(trimmed, '/');
    if |parts| == 1 then (trimmed, "32") else (parts[0], Join(parts[1..], '/'))
  }

  // parse_ipv4_cidr
  function ParseCidr(pattern: string): (r: Result<Block>)
    ensures r.Ok? ==> r.value.network < ADDRESSES && r.value.prefix <= 32
  {
    var (addr, prefix) := SplitPrefix(Trim(pattern));
    match ParseU8(prefix)
    case None => Err(Parse)
    case Some(p) =>
      if p > 32 then Err(Parse)
      else
        match ParseAddr(addr)
        case Err(e) => Err(e)
        case Ok(ip) => Ok(Block(Mask(ip, p), p, FormatCidr(Mask(ip, p), p)))
  }

  // the addresses that a rule with this block matches: rule_matches_namespace
  predicate Matches(b: Block, ip: nat)
    requires b.prefix <= 32 && ip < ADDRESSES
  {
    Mask(ip, b.prefix) == b.network
  }

  // ---------- printing and parsing ----------

  lemma NoSpaceTrim(s: string)
    requires forall i :: 0 <= i < |s| ==> !IsSpace(s[i])
    ensures Trim(s) == s
  {
  }

  lemma OctetsBack(ip: nat)
    requires ip < ADDRESSES
    ensures var a, b, c, d := ip / 0x100_0000, ip / 0x1_0000 % 256, ip / 256 % 256, ip % 256;
      a <= 255 && b <= 255 && c <= 255 && d <= 255 && FromOctets(a, b, c, d) == ip
  {
    assert ip / 0x1_0000 == ip / 256 / 256;
    assert ip / 0x100_0000 == ip / 256 / 256 / 256;
  }

  predicate AddressChars(s: string) {
    forall i :: 0 <= i < |s| ==> IsDigit(s[i]) || s[i] == '.'
  }

  lemma JoinFour(parts: seq<string>)
    requires |parts| == 4 && forall i :: 0 <= i < 4 ==> AllDigits(parts[i])
    ensures AddressChars(Join(parts, '.')) && Split(Join(parts, '.'), '.') == parts
  {
    assert parts[1..][1..] == parts[2..] && parts[2..][1..] == parts[3..];
    assert AddressChars(Join(parts[3..], '.')) by { assert AllDigits(parts[3]); }
    assert AddressChars(Join(parts[2..], '.')) by { assert AllDigits(parts[2]); }
    assert AddressChars(Join(parts[1..], '.')) by { assert AllDigits(parts[1]); }
    assert AddressChars(Join(parts, '.')) by { assert AllDigits(parts[0]); }
    hide Join;
    assert forall i :: 0 <= i < 4 ==> AllDigits(parts[i]);
    SplitJoin(parts, '.');
  }

  lemma ParseDotted(a: nat, b: nat, c: nat, d: nat)
    requires a <= 255 && b <= 255 && c <= 255 && d <= 255
    ensures AddressChars(Dotted(a, b, c, d))
    ensures ParseAddr(Dotted(a, b, c, d)) == Ok(FromOctets(a, b, c, d))
  {
    ParseDecimal(a);
    ParseDecimal(b);
    ParseDecimal(c);
    ParseDecimal(d);
    var parts := [Decimal(a), Decimal(b), Decimal(c), Decimal(d)];
    assert Dotted(a, b, c, d) == Join(parts, '.');
    hide ParseU8, Decimal, FromOctets, Join, Split, Dotted, Trim, ParseAddr;
    JoinFour(parts);
    AddressTrim(Dotted(a, b, c, d));
    ParseFour(Dotted(a, b, c, d), parts, a, b, c, d);
  }

  lemma AddressTrim(s: string)
    requires AddressChars(s)
    ensures Trim(s) == s
  {
    NoSpaceTrim(s);
    hide Trim;
  }

  // a value whose four parts parse
  lemma ParseFour(value: string, parts: seq<string>, a: nat, b: nat, c: nat, d: nat)
    requires Trim(value) == value && Split(value, '.') == parts && |parts| == 4
    requires a <= 255 && b <= 255 && c <= 255 && d <= 255
    requires ParseU8(parts[0]) == Some(a) && ParseU8(parts[1]) == Some(b)
    requires ParseU8(parts[2]) == Some(c) && ParseU8(parts[3]) == Some(d)
    ensures ParseAddr(value) == Ok(FromOctets(a, b, c, d))
  {
    hide Trim, Split, ParseU8, FromOctets;
  }

  /** Every address is read back from its dotted form. */
  lemma ParseFormatAddr(ip: nat)
    requires ip < ADDRESSES
    ensures AddressChars(FormatAddr(ip))
    ensures ParseAddr(FormatAddr(ip)) == Ok(ip)
  {
    OctetsBack(ip);
    hide Dotted, ParseAddr;
    ParseDotted(ip / 0x100_0000, ip / 0x1_0000 % 256, ip / 256 % 256, ip % 256);
  }

  lemma SplitCanonical(addr: string, prefix: string)
    requires AddressChars(addr) && AllDigits(prefix)
    ensures SplitPrefix(addr + ['/'] + prefix) == (addr, prefix)
  {
    SplitNone(prefix, '/');
    SplitFirst(addr, prefix, '/');
    assert Split(addr + ['/'] + prefix, '/')[1..] == [prefix];
  }

  /** A canonical pattern parses to the block it was printed from. */
  lemma ParseFormatCidr(network: nat, prefix: nat)
    requires network < ADDRESSES && prefix <= 32 && Mask(network, prefix) == network
    ensures ParseCidr(FormatCidr(network, prefix)) == Ok(Block(network, prefix, FormatCidr(network, prefix)))
  {
    var addr, digits := FormatAddr(network), Decimal(prefix);
    ParseFormatAddr(network);
    ParseDecimal(prefix);
    SplitCanonical(addr, digits);
    CanonicalChars(addr, digits);
    hide *;
    NoSpaceTrim(addr + ['/'] + digits);
    ParseParts(addr + ['/'] + digits, addr, digits, network, prefix);
    assert FormatCidr(network, prefix) == addr + ['/'] + digits by { FormatIs(network, prefix); }
  }

  lemma FormatIs(network: nat, prefix: nat)
    requires network < ADDRESSES
    ensures FormatCidr(network, prefix) == FormatAddr(network) + ['/'] + Decimal(prefix)
  {
  }

  lemma CanonicalChars(addr: string, prefix: string)
    requires AddressChars(addr) && AllDigits(prefix)
    ensures forall i :: 0 <= i < |addr + ['/'] + prefix| ==> !IsSpace((addr + ['/'] + prefix)[i])
  {
  }

  // a pattern whose parts parse
  lemma ParseParts(pattern: string, addr: string, digits: string, ip: nat, p: nat)
    requires Trim(pattern) == pattern && SplitPrefix(pattern) == (addr, digits)
    requires ParseU8(digits) == Some(p) && p <= 32 && ip < ADDRESSES && ParseAddr(addr) == Ok(ip)
    ensures Mask(ip, p) < ADDRESSES
    ensures ParseCidr(pattern) == Ok(Block(Mask(ip, p), p, FormatCidr(Mask(ip, p), p)))
  {
    hide Trim, SplitPrefix, ParseU8, ParseAddr, FormatCidr;
  }

  /** Masking is idempotent. */
  lemma MaskTwice(ip: nat, prefix: nat)
    requires ip < ADDRESSES && prefix <= 32
    ensures Mask(Mask(ip, prefix), prefix) == Mask(ip, prefix)
  {
    if prefix > 0 {
      RoundTwice(ip, Pow2(32 - prefix));
    }
  }

  lemma RoundTwice(x: nat, w: nat)
    requires w >= 1
    ensures (x - x % w) % w == 0
  {
    assert x - x % w == x / w * w;
    MultipleOf(x / w, w);
  }

  lemma MultipleOf(q: nat, w: nat)
    requires w >= 1
    ensures q * w % w == 0 && q * w / w == q
  {
    DivModUnique(q * w, w, q, 0);
  }

  /** Parsing a canonical pattern is a fixed point: what a pattern is printed as parses to the same
      block and prints the same. */
  lemma CanonicalIsFixedPoint(pattern: string)
    requires ParseCidr(pattern).Ok?
    ensures ParseCidr(ParseCidr(pattern).value.canonical) == ParseCidr(pattern)
  {
    var (addr, prefix) := SplitPrefix(Trim(pattern));
    var p := ParseU8(prefix).value;
    MaskTwice(ParseAddr(addr).value, p);
    ParseFormatCidr(Mask(ParseAddr(addr).value, p), p);
  }

  // ---------- one canonical form per address set ----------

  lemma AddressesDivide(k: nat)
    requires k <= 32
    ensures ADDRESSES == Pow2(32 - k) * Pow2(k)
  {
    Pow2Values();
    Pow2Sum(32 - k, k);
  }

  // a multiple of w below n * w leaves room for w more, and they are those with its quotient
  lemma MultipleBelow(x: nat, w: nat, n: nat, y: nat)
    requires w >= 1 && x % w == 0 && x < n * w
    ensures x + w <= n * w
    ensures y - y % w == x <==> x <= y < x + w
  {
    var q := x / w;
    assert x == q * w;
    if q >= n {
      if q > n { Ordered(n, q, w); }
      assert false;
    }
    Ordered(q, n, w);
    if x <= y < x + w {
      DivModUnique(y, w, q, y - x);
    }
  }

  // A block is the run of 2^(32 - prefix) addresses from its network.
  lemma BlockIsInterval(b: Block, ip: nat)
    requires b.prefix <= 32 && b.network < ADDRESSES && Mask(b.network, b.prefix) == b.network && ip < ADDRESSES
    ensures b.network + Pow2(32 - b.prefix) <= ADDRESSES
    ensures Matches(b, ip) <==> b.network <= ip < b.network + Pow2(32 - b.prefix)
  {
    Pow2Values();
    if b.prefix > 0 {
      AddressesDivide(32 - b.prefix);
      MultipleBelow(b.network, Pow2(32 - b.prefix), Pow2(b.prefix), ip);
    }
  }

  predicate SameAddresses(a: Block, b: Block)
    requires a.prefix <= 32 && b.prefix <= 32
  {
    forall ip :: 0 <= ip < ADDRESSES ==> (Matches(a, ip) <==> Matches(b, ip))
  }

  lemma SameAddressesSameBlock(a: Block, b: Block)
    requires a.prefix <= 32 && a.network < ADDRESSES && Mask(a.network, a.prefix) == a.network
    requires b.prefix <= 32 && b.network < ADDRESSES && Mask(b.network, b.prefix) == b.network
    requires SameAddresses(a, b)
    ensures a.network == b.network && a.prefix == b.prefix
  {
    BlockWithin(a, b);
    BlockWithin(b, a);
    if a.prefix < b.prefix {
      Pow2Grows(32 - b.prefix, 32 - a.prefix);
    } else if b.prefix < a.prefix {
      Pow2Grows(32 - a.prefix, 32 - b.prefix);
    }
  }

  // the first and the last address of a lie in b
  lemma BlockWithin(a: Block, b: Block)
    requires a.prefix <= 32 && a.network < ADDRESSES && Mask(a.network, a.prefix) == a.network
    requires b.prefix <= 32 && b.network < ADDRESSES && Mask(b.network, b.prefix) == b.network
    requires SameAddresses(a, b)
    ensures b.network <= a.network
    ensures a.network + Pow2(32 - a.prefix) <= b.network + Pow2(32 - b.prefix)
  {
    var last := a.network + Pow2(32 - a.prefix) - 1;
    BlockIsInterval(a, a.network);
    assert last < ADDRESSES;
    BlockIsInterval(a, last);
    assert Matches(b, a.network) && Matches(b, last);
    BlockIsInterval(b, a.network);
    BlockIsInterval(b, last);
  }

  /** Two accepted patterns print the same canonical form if and only if they match the same set of
      IPv4 addresses. */
  lemma CanonicalIffSameAddresses(p: string, q: string)
    requires ParseCidr(p).Ok? && ParseCidr(q).Ok?
    ensures ParseCidr(p).value.canonical == ParseCidr(q).value.canonical
        <==> SameAddresses(ParseCidr(p).value, ParseCidr(q).value)
  {
    var a, b := ParseCidr(p).value, ParseCidr(q).value;
    CanonicalIsFixedPoint(p);
    CanonicalIsFixedPoint(q);
    if SameAddresses(a, b) {
      ParsedIsMasked(p);
      ParsedIsMasked(q);
      SameAddressesSameBlock(a, b);
      ParsedPrintsBlock(p);
      ParsedPrintsBlock(q);
    }
  }

  lemma ParsedIsMasked(p: string)
    requires ParseCidr(p).Ok?
    ensures var b := ParseCidr(p).value; Mask(b.network, b.prefix) == b.network
  {
    var (addr, prefix) := SplitPrefix(Trim(p));
    MaskTwice(ParseAddr(addr).value, ParseU8(prefix).value);
  }

  lemma ParsedPrintsBlock(p: string)
    requires ParseCidr(p).Ok?
    ensures var b := ParseCidr(p).value; b.canonical == FormatCidr(b.network, b.prefix)
  {
  }
}
