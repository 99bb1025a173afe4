/** What a rule matches: crates/globacl-core/src/lib/rules.rs, from compile_rule_pattern to
    rule_matches_namespace, and prepare_rule_commit of source.rs. */
module RulePatterns {
  import opened Domain
  import opened Text
  import opened Cidr
  import opened SourceSpec

  // str::trim_end_matches('.')
  function TrimDots(s: string): string {
    if s != [] && s[|s| - 1] == '.' then TrimDots(s[..|s| - 1]) else s
  }

  // str::strip_prefix("*.")
  function StripWildcard(s: string): string {
    if |s| >= 2 && s[..2] == "*." then s[2..] else s
  }

  // canonicalize_domain
  function CanonicalDomain(value: string): (r: Result<string>)
    ensures r.Ok? ==> r.value != "" && "" !in Split(r.value, '.')
  {
    var domain := StripWildcard(Lower(TrimDots(Trim(value))));
    if domain == "" || "" in Split(domain, '.') then Err(Parse) else Ok(domain)
  }

  function Tails(labels: seq<string>): (r: seq<string>)
    ensures |r| == |labels|
  {
    if labels == [] then [] else [Join(labels, '.')] + Tails(labels[1..])
  }

  // domain_suffix_candidates
  function SuffixCandidates(domain: string): seq<string> {
    Tails(Split(domain, '.'))
  }

  // x is all of s, or what follows one of its dots
  predicate IsLabelSuffix(x: string, s: string) {
    x == s || exists i :: 0 <= i < |s| && s[i] == '.' && s[i + 1..] == x
  }

  /** The candidates of a domain are its label-aligned suffixes. */
  lemma {:induction false} CandidatesAreLabelSuffixes(domain: string, x: string)
    ensures x in SuffixCandidates(domain) <==> IsLabelSuffix(x, domain)
    decreases |domain|
  {
    JoinSplit(domain, '.');
    if '.' !in domain {
      SplitNone(domain, '.');
      assert Tails([domain]) == [domain] + Tails([]);
    } else {
      var k := FirstDot(domain);
      var head, rest := domain[..k], domain[k + 1..];
      assert domain == head + ['.'] + rest;
      SplitFirst(head, rest, '.');
      assert Split(domain, '.')[1..] == Split(rest, '.');
      assert SuffixCandidates(domain) == [domain] + SuffixCandidates(rest);
      CandidatesAreLabelSuffixes(rest, x);
      if IsLabelSuffix(x, rest) {
        SuffixOfRest(domain, k, x);
      }
      if x != domain && IsLabelSuffix(x, domain) {
        var i :| 0 <= i < |domain| && domain[i] == '.' && domain[i + 1..] == x;
        if i > k {
          assert rest[i - k - 1] == '.' && rest[i - k - 1 + 1..] == x;
        }
      }
    }
  }

  function FirstDot(s: string): (k: nat)
    requires '.' in s
    ensures k < |s| && s[k] == '.' && '.' !in s[..k]
  {
    if s[0] == '.' then 0
    else
      var k := FirstDot(s[1..]);
      assert s[..k + 1] == [s[0]] + s[1..][..k];
      k + 1
  }

  lemma SuffixOfRest(domain: string, k: nat, x: string)
    requires k < |domain| && domain[k] == '.' && IsLabelSuffix(x, domain[k + 1..])
    ensures IsLabelSuffix(x, domain)
  {
    var rest := domain[k + 1..];
    if x == rest {
      assert domain[k + 1..] == x;
    } else {
      var i :| 0 <= i < |rest| && rest[i] == '.' && rest[i + 1..] == x;
      assert domain[k + 1 + i] == '.' && domain[k + 1 + i + 1..] == x;
    }
  }

  // rule_kind_for_namespace
  function KindFor(namespace: string): Option<RuleKind> {
    var name := Lower(Trim(namespace));
    if name in ["ip", "ipv4", "ipv4_cidr"] then Some(Ipv4Cidr)
    else if name in ["domain", "host", "hostname", "dns"] then Some(DomainSuffix)
    else None
  }

  // a compiled pattern has a prefix of at most 32 bits; the index panics on any other
  predicate Indexable(rule: RuleEntry) {
    rule.kind == Ipv4Cidr ==> rule.ipv4PrefixLen <= 32
  }

  // rule_matches_namespace
  predicate RuleMatches(rule: RuleEntry, namespace: string, value: string)
    requires Indexable(rule)
  {
    && KindFor(namespace) == Some(rule.kind)
    && match rule.kind
       case Ipv4Cidr => ParseAddr(value).Ok? && Mask(ParseAddr(value).value, rule.ipv4PrefixLen) == rule.ipv4Network
       case DomainSuffix =>
         CanonicalDomain(value).Ok? && rule.domainSuffix in SuffixCandidates(CanonicalDomain(value).value)
  }

  datatype CompiledPattern = CompiledPattern(canonical: string, network: nat, prefix: nat, suffix: string)

  // compile_rule_pattern
  function CompilePattern(kind: RuleKind, pattern: string): Result<CompiledPattern> {
    match kind
    case Ipv4Cidr =>
      (match ParseCidr(pattern)
       case Err(e) => Err(e)
       case Ok(b) => Ok(CompiledPattern(b.canonical, b.network, b.prefix, "")))
    case DomainSuffix =>
      (match CanonicalDomain(pattern)
       case Err(e) => Err(e)
       case Ok(suffix) => Ok(CompiledPattern(suffix, 0, 0, suffix)))
  }

  // RuleKind::as_str
  function KindName(kind: RuleKind): string {
    match kind
    case Ipv4Cidr => "ipv4_cidr"
    case DomainSuffix => "domain_suffix"
  }

  datatype RuleRequest = RuleRequest(
    opId: string, tenantId: string, kind: RuleKind, pattern: string, action: Action, priority: nat,
    reasonCode: string, expiresAt: nat, createdBy: string, deliveryPriority: DeliveryPriority)

  // the entry that travels with a rule mutation
  function EntryForRule(rule: RuleEntry): DenyEntry {
    DenyEntry(rule.tenantId, "__rule:" + KindName(rule.kind), rule.ruleHash, rule.action, rule.priority,
              rule.reasonCode, rule.expiresAt, rule.createdBy, rule.commitSeq, rule.shardId)
  }

  // prepare_rule_commit
  function PrepareRuleCommit(s: Source, hash: KeyHash, req: RuleRequest, now: nat): (r: Result<CommitOutcome>)
    requires s.Shaped()
  {
    if Blank(req.opId) then Err(Parse)
    else if req.opId in s.opIndex then Ok(CommitOutcome(s.opIndex[req.opId], true))
    else
      match CompilePattern(req.kind, req.pattern)
      case Err(e) => Err(e)
      case Ok(c) =>
        var ruleHash := hash(req.tenantId, KindName(req.kind), c.canonical);
        var shard := ShardForHash(ruleHash, s.shardCount);
        var next := s.watermarks[shard] + 1;
        var rule := RuleEntry(req.tenantId, req.kind, c.canonical, ruleHash, req.action, req.priority,
                              req.reasonCode, req.expiresAt, req.createdBy, next, shard,
                              c.network, c.prefix, c.suffix);
        Ok(CommitOutcome(
             Mutation(req.opId, CommitId(shard, next, s.epoch, s.region), EntryForRule(rule), Some(rule),
                      req.deliveryPriority, now),
             false))
  }

  /** Two IPv4 rule requests of a tenant with the same address set get the same rule key: the second
      replaces the first, however its pattern was written. */
  lemma SameAddressesSameRuleKey(s: Source, hash: KeyHash, a: RuleRequest, b: RuleRequest, now: nat)
    requires s.Shaped() && a.kind == b.kind == Ipv4Cidr && a.tenantId == b.tenantId
    requires PrepareRuleCommit(s, hash, a, now).Ok? && !PrepareRuleCommit(s, hash, a, now).value.duplicate
    requires PrepareRuleCommit(s, hash, b, now).Ok? && !PrepareRuleCommit(s, hash, b, now).value.duplicate
    requires ParseCidr(a.pattern).Ok? && ParseCidr(b.pattern).Ok?
    requires SameAddresses(ParseCidr(a.pattern).value, ParseCidr(b.pattern).value)
    ensures PrepareRuleCommit(s, hash, a, now).value.mutation.rule.value.Key()
         == PrepareRuleCommit(s, hash, b, now).value.mutation.rule.value.Key()
  {
    CanonicalIffSameAddresses(a.pattern, b.pattern);
    hide ParseCidr, SameAddresses;
  }

  /** A prepared rule can be indexed. */
  lemma PreparedIsIndexable(s: Source, hash: KeyHash, req: RuleRequest, now: nat)
    requires s.Shaped()
    ensures var r := PrepareRuleCommit(s, hash, req, now);
      r.Ok? && !r.value.duplicate ==>
        r.value.mutation.rule.Some? && Indexable(r.value.mutation.rule.value)
        && r.value.mutation.rule.value.domainSuffix == (if req.kind == DomainSuffix then r.value.mutation.rule.value.pattern else "")
  {
    hide ParseCidr, CanonicalDomain;
  }
}
