/** The ways to write the same thing: which texts canonicalize_domain, rule_kind_for_namespace,
    parse_ipv4_addr and parse_ipv4_cidr in crates/globacl-core/src/lib/rules.rs read as the same domain,
    kind, address or block, and that they read no other as it. */
module Spellings {
  import opened Arithmetic
  import opened Domain
  import opened Text
  import opened Cidr
  import opened RulePatterns

  // ---------- padding ----------

  function Whitespace(): string {
    "\t\n\U{0B}\U{0C}\r \U{85}\U{A0}\U{1680}\U{2000}\U{2001}\U{2002}\U{2003}\U{2004}\U{2005}\U{2006}\U{2007}\U{2008}"
    + "\U{2009}\U{200A}\U{2028}\U{2029}\U{202F}\U{205F}\U{3000}"
  }

  /** The characters of the White_Space property, and no others, are padding. */
  lemma SpacesAre(c: char)
    ensures IsSpace(c) <==> c in Whitespace()
  {
    var u := c as int;
    if 9 <= u <= 13 {
      assert Whitespace()[u - 9] == c;
    } else if 0x2000 <= u <= 0x200A {
      assert Whitespace()[u - 0x2000 + 9] == c;
    } else if IsSpace(c) {
      assert Whitespace()[5] == ' ' && Whitespace()[6] == '\U{85}' && Whitespace()[7] == '\U{A0}' && Whitespace()[8] == '\U{1680}';
      assert Whitespace()[20] == '\U{2028}' && Whitespace()[21] == '\U{2029}' && Whitespace()[22] == '\U{202F}';
      assert Whitespace()[23] == '\U{205F}' && Whitespace()[24] == '\U{3000}';
    }
  }

  // neither end is white space
  predicate Bare(s: string) {
    s != "" ==> !IsSpace(s[0]) && !IsSpace(s[|s| - 1])
  }

  lemma {:induction false} StartPadded(pre: string, s: string)
    requires Blank(pre) && (s != "" ==> !IsSpace(s[0]))
    ensures TrimStart(pre + s) == s
  {
    if pre == "" {
      assert pre + s == s;
    } else {
      StartPadded(pre[1..], s);
      assert (pre + s)[1..] == pre[1..] + s;
    }
  }

  lemma {:induction false} EndPadded(s: string, post: string)
    requires Blank(post) && (s != "" ==> !IsSpace(s[|s| - 1]))
    ensures TrimEnd(s + post) == s
  {
    if post == "" {
      assert s + post == s;
    } else {
      EndPadded(s, post[..|post| - 1]);
      assert (s + post)[..|s + post| - 1] == s + post[..|post| - 1];
    }
  }

  /** Trimming undoes padding. */
  lemma TrimPadded(pre: string, s: string, post: string)
    requires Blank(pre) && Blank(post) && Bare(s)
    ensures Trim(pre + s + post) == s
  {
    if s == "" {
      assert pre + s + post == pre + post;
      StartPadded(pre + post, "");
      assert pre + post + "" == pre + post;
    } else {
      assert pre + s + post == pre + (s + post);
      assert (s + post)[0] == s[0];
      StartPadded(pre, s + post);
      EndPadded(s, post);
    }
  }

  lemma {:induction false} StartParts(s: string) returns (pre: string)
    ensures s == pre + TrimStart(s) && Blank(pre)
    ensures TrimStart(s) != "" ==> !IsSpace(TrimStart(s)[0])
  {
    if s != "" && IsSpace(s[0]) {
      pre := StartParts(s[1..]);
      pre := [s[0]] + pre;
      assert s == [s[0]] + s[1..];
    } else {
      pre := "";
    }
  }

  lemma {:induction false} EndParts(s: string) returns (post: string)
    ensures s == TrimEnd(s) + post && Blank(post)
    ensures TrimEnd(s) != "" ==> !IsSpace(TrimEnd(s)[|TrimEnd(s)| - 1])
  {
    if s != "" && IsSpace(s[|s| - 1]) {
      post := EndParts(s[..|s| - 1]);
      post := post + [s[|s| - 1]];
      assert s == s[..|s| - 1] + [s[|s| - 1]];
    } else {
      post := "";
    }
  }

  /** Trimming only drops padding. */
  lemma TrimParts(s: string) returns (pre: string, post: string)
    ensures s == pre + Trim(s) + post && Blank(pre) && Blank(post) && Bare(Trim(s))
  {
    pre := StartParts(s);
    post := EndParts(TrimStart(s));
    assert Trim(s) != "" ==> Trim(s)[0] == TrimStart(s)[0];
  }

  predicate Dots(s: string) {
    forall i :: 0 <= i < |s| ==> s[i] == '.'
  }

  lemma {:induction false} DotsPadded(s: string, dots: string)
    requires Dots(dots) && (s != "" ==> s[|s| - 1] != '.')
    ensures TrimDots(s + dots) == s
  {
    if dots == "" {
      assert s + dots == s;
    } else {
      DotsPadded(s, dots[..|dots| - 1]);
      assert (s + dots)[..|s + dots| - 1] == s + dots[..|dots| - 1];
    }
  }

  lemma {:induction false} DotsParts(s: string) returns (dots: string)
    ensures s == TrimDots(s) + dots && Dots(dots)
    ensures TrimDots(s) != "" ==> TrimDots(s)[|TrimDots(s)| - 1] != '.'
  {
    if s != "" && s[|s| - 1] == '.' {
      dots := DotsParts(s[..|s| - 1]);
      dots := dots + ".";
      assert s == s[..|s| - 1] + ".";
    } else {
      dots := "";
    }
  }

  // ---------- letters ----------

  function UpperLetters(): string { "ABCDEFGHIJKLMNOPQRSTUVWXYZ" }

  function LowerLetters(): string { "abcdefghijklmnopqrstuvwxyz" }

  lemma Letters(k: nat)
    requires k < 26
    ensures |UpperLetters()| == |LowerLetters()| == 26
    ensures UpperLetters()[k] as int == 65 + k && LowerLetters()[k] as int == 97 + k
  {
  }

  /** Lower case changes the 26 letters and nothing else. */
  lemma LowerIs(c: char)
    ensures |UpperLetters()| == |LowerLetters()| == 26
    ensures c !in UpperLetters() ==> LowerChar(c) == c
    ensures forall k :: 0 <= k < 26 && c == UpperLetters()[k] ==> LowerChar(c) == LowerLetters()[k]
  {
    Letters(0);
    hide UpperLetters, LowerLetters;
    if 'A' <= c <= 'Z' {
      var k := c as int - 65;
      Letters(k);
      assert UpperLetters()[k] == c;
    }
    forall k | 0 <= k < 26 && c == UpperLetters()[k]
      ensures LowerChar(c) == LowerLetters()[k]
    {
      Letters(k);
    }
  }

  lemma LowerConcat(a: string, b: string)
    ensures Lower(a + b) == Lower(a) + Lower(b)
  {
  }

  lemma LowerKeepsDots(s: string)
    ensures forall i :: 0 <= i < |s| ==> (Lower(s)[i] == '.' <==> s[i] == '.')
    ensures |s| >= 2 ==> (Lower(s)[..2] == "*." <==> s[..2] == "*.")
  {
    if |s| >= 2 {
      assert Lower(s)[..2] == [Lower(s)[0], Lower(s)[1]] && s[..2] == [s[0], s[1]];
    }
  }

  // ---------- domains ----------

  /** A way to write a domain: padding, perhaps a wildcard, the name in any case, trailing dots. */
  datatype Spelling = Spelling(pre: string, wild: bool, name: string, dots: string, post: string)
  {
    function Core(): string {
      (if wild then "*." else "") + name + dots
    }

    predicate Spells(value: string, domain: string) {
      && value == pre + Core() + post && Blank(pre) && Blank(post) && Bare(Core()) && Dots(dots)
      && Lower(name) == domain
      && (!wild ==> !(|name| >= 2 && name[..2] == "*."))
    }
  }

  // no label is empty
  predicate Labelled(domain: string) {
    domain != "" && "" !in Split(domain, '.')
  }

  lemma {:induction false} SplitEnd(s: string, sep: char)
    ensures Split(s + [sep], sep) == Split(s, sep) + [""]
  {
    if s == "" {
      assert "" + [sep] == [sep] && [sep][1..] == "";
    } else {
      assert (s + [sep])[1..] == s[1..] + [sep] && (s + [sep])[0] == s[0];
      SplitEnd(s[1..], sep);
      var rest := Split(s[1..], sep);
      assert (rest + [""])[0] == rest[0] && (rest + [""])[1..] == rest[1..] + [""];
    }
  }

  lemma DotEnds(s: string)
    requires s != "" && s[|s| - 1] == '.'
    ensures "" in Split(s, '.')
  {
    var init := s[..|s| - 1];
    assert s == init + ['.'];
    SplitEnd(init, '.');
    assert (Split(init, '.') + [""])[|Split(init, '.')|] == "";
    hide Split;
  }

  // a name whose last label is not empty does not end with a dot
  lemma LabelledEnd(domain: string)
    requires Labelled(domain)
    ensures domain[|domain| - 1] != '.'
  {
    if domain[|domain| - 1] == '.' {
      DotEnds(domain);
    }
    hide Split;
  }

  /** A text is read as a domain exactly when it is a spelling of it, and no label of the domain is empty. */
  lemma CanonicalDomainIff(value: string, domain: string)
    ensures CanonicalDomain(value) == Ok(domain) <==> Labelled(domain) && exists sp: Spelling :: sp.Spells(value, domain)
  {
    if Labelled(domain) {
      if sp: Spelling :| sp.Spells(value, domain) {
        SpelledIsRead(sp, value, domain);
      }
    }
    if CanonicalDomain(value) == Ok(domain) {
      var sp := ReadIsSpelled(value, domain);
    }
  }

  lemma SpelledIsRead(sp: Spelling, value: string, domain: string)
    requires sp.Spells(value, domain) && Labelled(domain)
    ensures CanonicalDomain(value) == Ok(domain)
  {
    hide Trim, TrimDots, Split, Lower;
    var star := if sp.wild then "*." else "";
    var full := star + sp.name;
    assert |Lower(sp.name)| == |sp.name|;
    TrimPadded(sp.pre, sp.Core(), sp.post);
    assert sp.Core() == full + sp.dots;
    NameEnds(star, sp.name, domain);
    DotsPadded(full, sp.dots);
    LowerFull(sp.wild, sp.name, domain);
    assert TrimDots(Trim(value)) == full;
  }

  // the name does not end with a dot, whether or not a wildcard is in front
  lemma NameEnds(star: string, name: string, domain: string)
    requires Lower(name) == domain && Labelled(domain)
    ensures name != "" && (star + name)[|star + name| - 1] != '.'
  {
    LabelledEnd(domain);
    LowerKeepsDots(name);
    hide Split;
    assert |domain| == |name|;
    assert (star + name)[|star + name| - 1] == name[|name| - 1];
  }

  lemma LowerFull(wild: bool, name: string, domain: string)
    requires Lower(name) == domain && (!wild ==> !(|name| >= 2 && name[..2] == "*."))
    ensures StripWildcard(Lower((if wild then "*." else "") + name)) == domain
  {
    LowerKeepsDots(name);
    if wild {
      LowerConcat("*.", name);
      assert Lower("*.") == "*.";
      assert ("*." + domain)[..2] == "*." && ("*." + domain)[2..] == domain;
    } else {
      assert "" + name == name && |domain| == |name|;
    }
    hide Lower;
  }

  lemma ReadIsSpelled(value: string, domain: string) returns (sp: Spelling)
    requires CanonicalDomain(value) == Ok(domain)
    ensures Labelled(domain) && sp.Spells(value, domain)
  {
    var core := Trim(value);
    var full := TrimDots(core);
    assert StripWildcard(Lower(full)) == domain && Labelled(domain) by { hide Trim, TrimDots, Split; }
    hide CanonicalDomain, Trim, TrimDots, Split;
    var pre, post := TrimParts(value);
    var dots := DotsParts(core);
    sp := SpellingOf(pre, full, dots, post, domain);
    assert sp.Core() == core;
  }

  // a name with its wildcard, if it has one, as a spelling
  lemma SpellingOf(pre: string, full: string, dots: string, post: string, domain: string) returns (sp: Spelling)
    requires StripWildcard(Lower(full)) == domain && Blank(pre) && Blank(post) && Dots(dots) && Bare(full + dots)
    ensures sp.Core() == full + dots && sp.Spells(pre + (full + dots) + post, domain)
  {
    LowerKeepsDots(full);
    if |full| >= 2 && full[..2] == "*." {
      var name := full[2..];
      sp := Spelling(pre, true, name, dots, post);
      assert full == "*." + name;
      LowerConcat("*.", name);
      assert Lower("*.") == "*.";
      assert Lower(full)[2..] == Lower(name);
    } else {
      sp := Spelling(pre, false, full, dots, post);
      assert "" + full == full;
    }
    hide Lower;
  }

  // ---------- namespaces ----------

  // one of the names, in any case and padding
  ghost predicate Names(namespace: string, names: seq<string>) {
    exists pre: string, name: string, post: string :: PaddedName(namespace, pre, name, post) && Lower(name) in names
  }

  predicate PaddedName(namespace: string, pre: string, name: string, post: string) {
    namespace == pre + name + post && Blank(pre) && Blank(post)
  }

  lemma LowerKeepsBare(name: string)
    requires Bare(Lower(name))
    ensures Bare(name)
  {
    SpacesStay(name);
    hide Lower;
    assert |Lower(name)| == |name|;
  }

  lemma SpacesStay(s: string)
    ensures |Lower(s)| == |s| && forall i :: 0 <= i < |s| && IsSpace(s[i]) ==> Lower(s)[i] == s[i]
  {
  }

  lemma NamesIff(namespace: string, names: seq<string>)
    requires forall name :: name in names ==> Bare(name)
    ensures Names(namespace, names) <==> Lower(Trim(namespace)) in names
  {
    hide Lower, Trim, Bare;
    var pre, post := TrimParts(namespace);
    assert PaddedName(namespace, pre, Trim(namespace), post);
    if Names(namespace, names) {
      var a: string, name: string, b: string :| PaddedName(namespace, a, name, b) && Lower(name) in names;
      LowerKeepsBare(name);
      TrimPadded(a, name, b);
    }
  }

  function AddressNames(): seq<string> { ["ip", "ipv4", "ipv4_cidr"] }

  function DomainNames(): seq<string> { ["domain", "host", "hostname", "dns"] }

  lemma NamesAreBare()
    ensures forall name :: name in AddressNames() ==> Bare(name)
    ensures forall name :: name in DomainNames() ==> Bare(name)
  {
  }

  lemma KindForTrimmed(namespace: string)
    ensures KindFor(namespace) == Some(Ipv4Cidr) <==> Lower(Trim(namespace)) in AddressNames()
    ensures KindFor(namespace) == Some(DomainSuffix) <==> Lower(Trim(namespace)) in DomainNames()
  {
    hide Lower, Trim;
  }

  /** A namespace means a kind of rule exactly when it is one of its names, in any case and padding. */
  lemma KindForIff(namespace: string)
    ensures KindFor(namespace) == Some(Ipv4Cidr) <==> Names(namespace, AddressNames())
    ensures KindFor(namespace) == Some(DomainSuffix) <==> Names(namespace, DomainNames())
  {
    hide *;
    NamesAreBare();
    KindForTrimmed(namespace);
    NamesIff(namespace, AddressNames());
    NamesIff(namespace, DomainNames());
  }

  // ---------- numbers, addresses and blocks ----------

  lemma DigitEnd(init: string, last: char)
    requires AllDigits(init + [last])
    ensures AllDigits(init) && IsDigit(last)
    ensures ValueOf(init + [last]) == ValueOf(init) * 10 + (last as nat - 48)
  {
    var s := init + [last];
    assert s[..|s| - 1] == init && s[|s| - 1] == last;
    assert forall i :: 0 <= i < |init| ==> s[i] == init[i];
  }

  // one more digit behind a number
  lemma DecimalPush(zeros: nat, v: nat, last: char) returns (z: nat)
    requires IsDigit(last)
    ensures Zeros(zeros) + Decimal(v) + [last] == Zeros(z) + Decimal(v * 10 + (last as nat - 48))
  {
    var d := last as nat - 48;
    assert DigitChar(d) == last;
    if v == 0 {
      z := zeros + 1;
      assert Decimal(0) == "0" && Decimal(d) == [last];
      assert Zeros(z) == Zeros(zeros) + "0";
    } else {
      z := zeros;
      assert (v * 10 + d) / 10 == v && (v * 10 + d) % 10 == d;
      assert Decimal(v * 10 + d) == Decimal(v) + [last];
      assert Zeros(zeros) + Decimal(v) + [last] == Zeros(zeros) + (Decimal(v) + [last]);
    }
  }

  /** A number's digits are its decimal form behind some zeros. */
  lemma {:induction false} DigitsAre(s: string) returns (zeros: nat)
    requires AllDigits(s) && s != ""
    ensures s == Zeros(zeros) + Decimal(ValueOf(s))
  {
    var init, last := s[..|s| - 1], s[|s| - 1];
    assert s == init + [last];
    DigitEnd(init, last);
    if init == "" {
      zeros := 0;
      assert ValueOf("") == 0;
      assert Decimal(last as nat - 48) == [last] && s == [last];
    } else {
      hide ValueOf, Decimal, Zeros;
      zeros := DigitsAre(init);
      zeros := DecimalPush(zeros, ValueOf(init), last);
    }
  }

  // a plus sign or none, zeros, and the decimal form
  predicate IsNumeral(s: string, plus: bool, zeros: nat, v: nat) {
    s == (if plus then "+" else "") + (Zeros(zeros) + Decimal(v))
  }

  // an octet as parse::<u8> accepts it
  ghost predicate SpellsOctet(s: string, v: nat) {
    v <= 255 && exists plus: bool, zeros: nat :: IsNumeral(s, plus, zeros, v)
  }

  lemma BodyParses(body: string, v: nat)
    requires AllDigits(body) && body != "" && ValueOf(body) == v && v <= 255
    ensures ParseU8(body) == Some(v) && ParseU8("+" + body) == Some(v)
  {
    assert IsDigit(body[0]);
    assert ("+" + body)[1..] == body;
    hide ValueOf;
  }

  lemma NumeralParses(s: string, plus: bool, zeros: nat, v: nat)
    requires IsNumeral(s, plus, zeros, v) && v <= 255
    ensures ParseU8(s) == Some(v)
  {
    hide ParseU8, ValueOf, Zeros, Decimal;
    var body := Zeros(zeros) + Decimal(v);
    LeadingZeros(Zeros(zeros), Decimal(v));
    DecimalValue(v);
    assert AllDigits(body) && body != "";
    BodyParses(body, v);
    assert "" + body == body;
  }

  lemma ParsedIsNumeral(s: string, v: nat) returns (plus: bool, zeros: nat)
    requires ParseU8(s) == Some(v)
    ensures v <= 255 && IsNumeral(s, plus, zeros, v)
  {
    hide Zeros, Decimal, ValueOf;
    plus := s[0] == '+';
    var body := if plus then s[1..] else s;
    assert AllDigits(body) && body != "" && ValueOf(body) == v;
    zeros := DigitsAre(body);
    assert s == (if plus then "+" else "") + body;
  }

  /** An octet is read from its decimal form, with leading zeros and one plus sign allowed, and from nothing
      else. */
  lemma ParseU8Iff(s: string, v: nat)
    ensures ParseU8(s) == Some(v) <==> SpellsOctet(s, v)
  {
    hide ParseU8, IsNumeral;
    if SpellsOctet(s, v) {
      var plus: bool, zeros: nat :| IsNumeral(s, plus, zeros, v);
      NumeralParses(s, plus, zeros, v);
    }
    if ParseU8(s) == Some(v) {
      var plus, zeros := ParsedIsNumeral(s, v);
    }
  }

  predicate OctetsParse(parts: seq<string>, a: nat, b: nat, c: nat, d: nat) {
    && |parts| == 4 && ParseU8(parts[0]) == Some(a) && ParseU8(parts[1]) == Some(b) && ParseU8(parts[2]) == Some(c)
    && ParseU8(parts[3]) == Some(d) && a <= 255 && b <= 255 && c <= 255 && d <= 255
  }

  lemma OctetsAre(parts: seq<string>, a: nat, b: nat, c: nat, d: nat)
    ensures OctetsOf(parts, a, b, c, d) <==> OctetsParse(parts, a, b, c, d)
  {
    hide ParseU8, IsNumeral;
    if |parts| == 4 {
      ParseU8Iff(parts[0], a);
      ParseU8Iff(parts[1], b);
      ParseU8Iff(parts[2], c);
      ParseU8Iff(parts[3], d);
    }
  }

  lemma ParsedOctets(value: string) returns (a: nat, b: nat, c: nat, d: nat)
    requires ParseAddr(value).Ok?
    ensures OctetsParse(Split(Trim(value), '.'), a, b, c, d)
    ensures ParseAddr(value).value == 16777216 * a + 65536 * b + 256 * c + d
  {
    hide Split, Trim;
    var parts := Split(Trim(value), '.');
    a, b, c, d := ParseU8(parts[0]).value, ParseU8(parts[1]).value, ParseU8(parts[2]).value, ParseU8(parts[3]).value;
  }

  lemma OctetsParsed(value: string, a: nat, b: nat, c: nat, d: nat)
    requires OctetsParse(Split(Trim(value), '.'), a, b, c, d)
    ensures ParseAddr(value) == Ok(16777216 * a + 65536 * b + 256 * c + d)
  {
    hide Split, Trim, FromOctets, ParseU8;
    OctetValue(a, b, c, d);
  }

  lemma OctetValue(a: nat, b: nat, c: nat, d: nat)
    requires a <= 255 && b <= 255 && c <= 255 && d <= 255
    ensures FromOctets(a, b, c, d) == 16777216 * a + 65536 * b + 256 * c + d
  {
  }

  ghost predicate OctetsOf(parts: seq<string>, a: nat, b: nat, c: nat, d: nat) {
    && |parts| == 4 && SpellsOctet(parts[0], a) && SpellsOctet(parts[1], b) && SpellsOctet(parts[2], c)
    && SpellsOctet(parts[3], d)
  }

  /** A text is an address exactly when it is four octets with dots between them, padding aside. */
  lemma ParseAddrIff(value: string, ip: nat)
    ensures ParseAddr(value) == Ok(ip) <==>
      exists a: nat, b: nat, c: nat, d: nat :: OctetsOf(Split(Trim(value), '.'), a, b, c, d)
                                               && ip == 16777216 * a + 65536 * b + 256 * c + d
  {
    hide *;
    if ParseAddr(value) == Ok(ip) {
      var a, b, c, d := ParsedOctets(value);
      OctetsAre(Split(Trim(value), '.'), a, b, c, d);
    }
    forall a: nat, b: nat, c: nat, d: nat | OctetsOf(Split(Trim(value), '.'), a, b, c, d)
      ensures ParseAddr(value) == Ok(16777216 * a + 65536 * b + 256 * c + d)
    {
      OctetsAre(Split(Trim(value), '.'), a, b, c, d);
      OctetsParsed(value, a, b, c, d);
    }
  }

  lemma HostMask(ip: nat)
    requires ip < ADDRESSES
    ensures Mask(ip, 32) == ip
  {
    Pow2Values();
    assert Pow2(0) == 1;
  }

  // a pattern without a slash
  lemma NoSlash(addr: string)
    requires AddressChars(addr)
    ensures SplitPrefix(addr) == (addr, "32")
  {
    assert '/' !in addr;
    SplitNone(addr, '/');
    hide Split;
  }

  lemma ThirtyTwo()
    ensures ParseU8("32") == Some(32)
  {
    ParseDecimal(32);
    assert Decimal(32) == "32";
    hide ParseU8;
  }

  /** A bare address is the block of that one address. */
  lemma BareAddressIsHost(ip: nat, pre: string, post: string)
    requires ip < ADDRESSES && Blank(pre) && Blank(post)
    ensures ParseCidr(pre + FormatAddr(ip) + post) == Ok(Block(ip, 32, FormatCidr(ip, 32)))
    ensures forall q :: 0 <= q < ADDRESSES ==> (Matches(Block(ip, 32, FormatCidr(ip, 32)), q) <==> q == ip)
  {
    hide Trim, Split, ParseU8, ParseAddr, FormatAddr, FormatCidr, Decimal, Mask, SplitPrefix;
    ParseFormatAddr(ip);
    AddressIsBare(FormatAddr(ip));
    TrimPadded(pre, FormatAddr(ip), post);
    NoSlash(FormatAddr(ip));
    ThirtyTwo();
    HostMask(ip);
    forall q | 0 <= q < ADDRESSES
      ensures Mask(q, 32) == q
    {
      HostMask(q);
    }
  }

  lemma AddressIsBare(s: string)
    requires AddressChars(s)
    ensures Bare(s)
  {
  }

  /** An address and a prefix are the block of the addresses that agree with it in that many bits; a prefix
      above 32 is refused. */
  lemma PrefixedAddressIsBlock(ip: nat, prefix: nat)
    requires ip < ADDRESSES && prefix <= 255
    ensures var r := ParseCidr(FormatAddr(ip) + ['/'] + Decimal(prefix));
      if prefix > 32 then r == Err(Parse)
      else r == Ok(Block(Mask(ip, prefix), prefix, FormatCidr(Mask(ip, prefix), prefix)))
  {
    hide Trim, SplitPrefix, ParseU8, ParseAddr, FormatAddr, FormatCidr, Decimal, Mask;
    var addr, digits := FormatAddr(ip), Decimal(prefix);
    ParseFormatAddr(ip);
    ParseDecimal(prefix);
    SplitCanonical(addr, digits);
    CanonicalChars(addr, digits);
    NoSpaceTrim(addr + ['/'] + digits);
  }
}
