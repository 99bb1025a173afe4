/** From a request to the answers it causes: what a committed request leaves in the tables, and what checks
    say from then on (prepare_commit, prepare_rule_commit, apply_replicated_mutation and check of
    crates/globacl-core/src/lib/source.rs). */
module CommittedRecords {
  import opened Arithmetic
  import opened Domain
  import opened Text
  import opened Cidr
  import opened SourceSpec
  import opened RulePatterns
  import RuleIndex
  import opened RuleVerdicts
  import EdgeChecks

  // the stamp of the next mutation of a shard
  predicate StampedNext(m: Mutation, s: Source, shard: nat)
    requires s.Shaped()
  {
    && shard < s.shardCount
    && m.commitId == CommitId(shard, s.watermarks[shard] + 1, s.epoch, s.region)
  }

  // t is s with m applied: one watermark, one history and one op id further
  predicate OneFurther(s: Source, t: Source, m: Mutation)
    requires s.Shaped() && m.commitId.shardId < s.shardCount
  {
    && t.watermarks == s.watermarks[m.commitId.shardId := s.watermarks[m.commitId.shardId] + 1]
    && t.history == s.history + [m] && t.opIndex == s.opIndex[m.opId := m]
    && t.compacted == s.compacted && t.shardCount == s.shardCount && t.epoch == s.epoch && t.region == s.region
  }

  // what a table holds under the key of a committed record: nothing, if the record deletes
  predicate Holds<K, V(==)>(before: map<K, V>, after: map<K, V>, k: K, record: V, deletes: bool) {
    after == if deletes then before - {k} else before[k := record]
  }

  // ---------- entries ----------

  predicate EntryCarries(e: DenyEntry, req: DenyRequest) {
    && e.tenantId == req.tenantId && e.namespace == req.namespace && e.action == req.action
    && e.priority == req.priority && e.reasonCode == req.reasonCode && e.expiresAt == req.expiresAt
    && e.createdBy == req.createdBy
  }

  /** An entry request that is not a duplicate applies as the next mutation of the shard its key hashes to,
      and leaves exactly one record changed: the one under its key, which carries what was requested. */
  lemma EntryCommitted(s: Source, hash: KeyHash, req: DenyRequest, now: nat)
    requires s.Shaped() && PrepareCommit(s, hash, req, now).Ok? && !PrepareCommit(s, hash, req, now).value.duplicate
    ensures var m := PrepareCommit(s, hash, req, now).value.mutation; var r := ApplyReplicated(s, m);
      var k := AclKey(req.tenantId, req.namespace, hash(req.tenantId, req.namespace, req.key));
      && StampedNext(m, s, k.keyHash % s.shardCount) && m.rule == None
      && m.opId == req.opId && m.deliveryPriority == req.deliveryPriority && m.committedAt == now
      && EntryCarries(m.entry, req) && m.entry.Key() == k
      && m.entry.commitSeq == m.commitId.seqNo && m.entry.shardId == m.commitId.shardId
      && r.Ok? && r.value.1 == Applied && OneFurther(s, r.value.0, m)
      && Holds(s.entries, r.value.0.entries, k, m.entry, req.action == Delete)
      && r.value.0.rules == s.rules
  {
  }

  /** A request is refused only for a blank op id; one whose op id is known is answered with the mutation
      known under it, and nothing else about the request matters. */
  lemma EntryAnswered(s: Source, hash: KeyHash, req: DenyRequest, now: nat)
    requires s.Shaped()
    ensures var r := PrepareCommit(s, hash, req, now);
      && (r.Err? <==> Trim(req.opId) == "")
      && (r.Ok? ==> (r.value.duplicate <==> req.opId in s.opIndex))
      && (r.Ok? && r.value.duplicate ==> r.value.mutation == s.opIndex[req.opId])
  {
    BlankTrims(req.opId);
  }

  lemma {:induction false} StartOfBlank(s: string)
    ensures TrimStart(s) == "" <==> Blank(s)
  {
    if s != [] {
      assert s == [s[0]] + s[1..];
      StartOfBlank(s[1..]);
    }
  }

  lemma {:induction false} StartIsSpaceless(s: string)
    ensures TrimStart(s) != "" ==> !IsSpace(TrimStart(s)[0])
  {
    if s != [] {
      StartIsSpaceless(s[1..]);
    }
  }

  lemma {:induction false} EndKeepsSpaceless(s: string)
    requires s != "" && !IsSpace(s[0])
    ensures TrimEnd(s) != ""
  {
    if IsSpace(s[|s| - 1]) {
      EndKeepsSpaceless(s[..|s| - 1]);
    }
  }

  lemma BlankTrims(s: string)
    ensures Trim(s) == "" <==> Blank(s)
  {
    StartOfBlank(s);
    StartIsSpaceless(s);
    if TrimStart(s) != "" {
      EndKeepsSpaceless(TrimStart(s));
    }
  }

  // ---------- rules ----------

  predicate RuleCarries(r: RuleEntry, req: RuleRequest) {
    && r.tenantId == req.tenantId && r.kind == req.kind && r.action == req.action && r.priority == req.priority
    && r.reasonCode == req.reasonCode && r.expiresAt == req.expiresAt && r.createdBy == req.createdBy
  }

  // the entry that travels with a rule says the same under a namespace of its own
  predicate StandsForRule(e: DenyEntry, r: RuleEntry) {
    && e.namespace == (if r.kind == Ipv4Cidr then "__rule:ipv4_cidr" else "__rule:domain_suffix")
    && e.tenantId == r.tenantId && e.keyHash == r.ruleHash && e.action == r.action && e.priority == r.priority
    && e.reasonCode == r.reasonCode && e.expiresAt == r.expiresAt && e.createdBy == r.createdBy
    && e.commitSeq == r.commitSeq && e.shardId == r.shardId
  }

  // the key of a rule: its canonical pattern, hashed under its tenant and kind
  function KeyOfRequest(hash: KeyHash, req: RuleRequest): RuleKey
    requires CompilePattern(req.kind, req.pattern).Ok?
  {
    var canonical := CompilePattern(req.kind, req.pattern).value.canonical;
    RuleKey(req.tenantId, req.kind,
            hash(req.tenantId, if req.kind == Ipv4Cidr then "ipv4_cidr" else "domain_suffix", canonical))
  }

  // the mutation that a rule request becomes
  lemma RulePrepared(s: Source, hash: KeyHash, req: RuleRequest, now: nat)
    requires s.Shaped() && PrepareRuleCommit(s, hash, req, now).Ok? && !PrepareRuleCommit(s, hash, req, now).value.duplicate
    ensures CompilePattern(req.kind, req.pattern).Ok?
    ensures var m := PrepareRuleCommit(s, hash, req, now).value.mutation; var k := KeyOfRequest(hash, req);
      && StampedNext(m, s, k.ruleHash % s.shardCount) && m.rule.Some? && m.opId !in s.opIndex
      && m.opId == req.opId && m.deliveryPriority == req.deliveryPriority && m.committedAt == now
      && RuleCarries(m.rule.value, req) && m.rule.value.Key() == k && m.rule.value.action == req.action
      && m.rule.value.commitSeq == m.commitId.seqNo && m.rule.value.shardId == m.commitId.shardId
      && StandsForRule(m.entry, m.rule.value)
  {
    hide ParseCidr, CanonicalDomain;
    assert KindName(Ipv4Cidr) == "ipv4_cidr" && KindName(DomainSuffix) == "domain_suffix";
    assert "__rule:" + "ipv4_cidr" == "__rule:ipv4_cidr" && "__rule:" + "domain_suffix" == "__rule:domain_suffix";
  }

  /** A rule request that is not a duplicate applies as the next mutation of the shard its key hashes to,
      and leaves exactly one record changed: the rule under its key, which carries what was requested. */
  lemma RuleCommitted(s: Source, hash: KeyHash, req: RuleRequest, now: nat)
    requires s.Shaped() && PrepareRuleCommit(s, hash, req, now).Ok? && !PrepareRuleCommit(s, hash, req, now).value.duplicate
    ensures CompilePattern(req.kind, req.pattern).Ok?
    ensures var m := PrepareRuleCommit(s, hash, req, now).value.mutation; var r := ApplyReplicated(s, m);
      var k := KeyOfRequest(hash, req);
      && StampedNext(m, s, k.ruleHash % s.shardCount) && m.rule.Some?
      && m.opId == req.opId && m.deliveryPriority == req.deliveryPriority && m.committedAt == now
      && RuleCarries(m.rule.value, req) && m.rule.value.Key() == k
      && m.rule.value.commitSeq == m.commitId.seqNo && m.rule.value.shardId == m.commitId.shardId
      && StandsForRule(m.entry, m.rule.value)
      && r.Ok? && r.value.1 == Applied && OneFurther(s, r.value.0, m)
      && Holds(s.rules, r.value.0.rules, k, m.rule.value, req.action == Delete)
      && r.value.0.entries == s.entries
  {
    hide PrepareRuleCommit, KeyOfRequest, CompilePattern, StandsForRule, RuleCarries;
    RulePrepared(s, hash, req, now);
    var m := PrepareRuleCommit(s, hash, req, now).value.mutation;
    ApplyReplicatedApplied(s, m);
  }

  /** A rule request is refused only for a blank op id, or, under a new one, for a pattern that does not compile. */
  lemma RuleAnswered(s: Source, hash: KeyHash, req: RuleRequest, now: nat)
    requires s.Shaped()
    ensures var r := PrepareRuleCommit(s, hash, req, now);
      && (r.Err? <==> Trim(req.opId) == "" || (req.opId !in s.opIndex && CompilePattern(req.kind, req.pattern).Err?))
      && (r.Ok? ==> (r.value.duplicate <==> req.opId in s.opIndex))
      && (r.Ok? && r.value.duplicate ==> r.value.mutation == s.opIndex[req.opId])
  {
    BlankTrims(req.opId);
    hide CompilePattern;
  }

  /** What a pattern covers: an address in the block's run of addresses, or a domain that is the pattern's
      or ends with it after a dot. */
  predicate Covers(kind: RuleKind, pattern: string, value: string) {
    match kind
    case Ipv4Cidr =>
      && ParseCidr(pattern).Ok? && ParseAddr(value).Ok?
      && var b := ParseCidr(pattern).value;
      b.network <= ParseAddr(value).value < b.network + Pow2(32 - b.prefix)
    case DomainSuffix =>
      && CanonicalDomain(pattern).Ok? && CanonicalDomain(value).Ok?
      && IsLabelSuffix(CanonicalDomain(pattern).value, CanonicalDomain(value).value)
  }

  // the rule that a request compiles to
  predicate CompiledFrom(r: RuleEntry, req: RuleRequest) {
    && RuleCarries(r, req) && CompilePattern(req.kind, req.pattern).Ok?
    && var c := CompilePattern(req.kind, req.pattern).value;
    r.ipv4Network == c.network && r.ipv4PrefixLen == c.prefix && r.domainSuffix == c.suffix
  }

  lemma PreparedIsCompiled(s: Source, hash: KeyHash, req: RuleRequest, now: nat)
    requires s.Shaped() && PrepareRuleCommit(s, hash, req, now).Ok? && !PrepareRuleCommit(s, hash, req, now).value.duplicate
    ensures PrepareRuleCommit(s, hash, req, now).value.mutation.rule.Some?
    ensures CompiledFrom(PrepareRuleCommit(s, hash, req, now).value.mutation.rule.value, req)
  {
    hide ParseCidr, CanonicalDomain;
  }

  /** A compiled rule matches exactly the values of its tenant that its pattern covers, asked for under a
      name of its kind. */
  lemma CompiledMatches(r: RuleEntry, req: RuleRequest, tenant: string, namespace: string, value: string)
    requires CompiledFrom(r, req)
    ensures RuleIndex.Matched(r, tenant, namespace, value) <==>
      tenant == req.tenantId && KindFor(namespace) == Some(req.kind) && Covers(req.kind, req.pattern, value)
  {
    hide ParseAddr, ParseCidr, CanonicalDomain, SuffixCandidates, KindFor, Mask, Pow2, IsLabelSuffix;
    match req.kind
    case Ipv4Cidr =>
      BlockMatches(r, req, value);
    case DomainSuffix =>
      if CanonicalDomain(value).Ok? {
        CandidatesAreLabelSuffixes(CanonicalDomain(value).value, r.domainSuffix);
      }
  }

  lemma BlockMatches(r: RuleEntry, req: RuleRequest, value: string)
    requires CompiledFrom(r, req) && req.kind == Ipv4Cidr
    ensures r.ipv4PrefixLen <= 32
    ensures ParseAddr(value).Ok? ==>
      (Mask(ParseAddr(value).value, r.ipv4PrefixLen) == r.ipv4Network <==> Covers(Ipv4Cidr, req.pattern, value))
  {
    hide ParseAddr, ParseCidr, Pow2, Mask;
    ParsedIsMasked(req.pattern);
    if ParseAddr(value).Ok? {
      BlockIsInterval(ParseCidr(req.pattern).value, ParseAddr(value).value);
    }
  }

  // the request denies this value at this time
  predicate Denies(req: RuleRequest, tenant: string, namespace: string, value: string, now: nat) {
    && req.action == Deny && (req.expiresAt == 0 || now < req.expiresAt)
    && tenant == req.tenantId && KindFor(namespace) == Some(req.kind) && Covers(req.kind, req.pattern, value)
  }

  lemma DenialContends(r: RuleEntry, req: RuleRequest, tenant: string, namespace: string, value: string, now: nat)
    requires CompiledFrom(r, req)
    ensures RuleIndex.Contends(r, tenant, namespace, value, now) && r.action == Deny
       <==> Denies(req, tenant, namespace, value, now)
  {
    CompiledMatches(r, req, tenant, namespace, value);
    hide RuleIndex.Matched, Covers, KindFor, CompilePattern;
  }

  // a source that has applied a request, whatever its rules were before
  predicate After(s: Source, t: Source, hash: KeyHash, req: RuleRequest, now: nat)
    requires s.Shaped()
  {
    && PrepareRuleCommit(s, hash, req, now).Ok? && !PrepareRuleCommit(s, hash, req, now).value.duplicate
    && ApplyReplicated(s, PrepareRuleCommit(s, hash, req, now).value.mutation) == Ok((t, Applied))
  }

  // the rule that a request has left behind, and the denial it gives
  lemma LeftBehind(s: Source, t: Source, hash: KeyHash, req: RuleRequest, now: nat) returns (rule: RuleEntry)
    requires s.Shaped() && After(s, t, hash, req, now)
    ensures CompilePattern(req.kind, req.pattern).Ok? && CompiledFrom(rule, req)
    ensures rule.Key() == KeyOfRequest(hash, req) && rule.action == req.action && rule.priority == req.priority
    ensures t.rules == if req.action == Delete then s.rules - {rule.Key()} else s.rules[rule.Key() := rule]
    ensures var shard := KeyOfRequest(hash, req).ruleHash % s.shardCount;
      Denial(rule) == Denied(req.reasonCode, req.priority, CommitId(shard, s.watermarks[shard] + 1, 1, ""))
  {
    hide PrepareRuleCommit, ApplyReplicated, KeyOfRequest, CompilePattern, CompiledFrom;
    RuleCommitted(s, hash, req, now);
    PreparedIsCompiled(s, hash, req, now);
    rule := PrepareRuleCommit(s, hash, req, now).value.mutation.rule.value;
  }

  /** Once a rule is committed into a table without rules, a check that no point entry denies is denied
      exactly for the values that the request denies, until it expires, with the reason, the priority and
      the number of the commit. */
  lemma OnlyRuleDecides(s: Source, t: Source, hash: KeyHash, req: RuleRequest, committed: nat, order: seq<RuleEntry>,
                        tenant: string, namespace: string, value: string, now: nat)
    requires s.Shaped() && s.rules == map[] && After(s, t, hash, req, committed) && RuleIndex.Lists(order, t.rules)
    requires !Lookup(t, hash, tenant, namespace, value, now).Denied?
    ensures CompilePattern(req.kind, req.pattern).Ok?
    ensures var shard := KeyOfRequest(hash, req).ruleHash % s.shardCount;
      EdgeChecks.SourceCheck(t, order, hash, tenant, namespace, value, now)
        == if Denies(req, tenant, namespace, value, now)
           then Denied(req.reasonCode, req.priority, CommitId(shard, s.watermarks[shard] + 1, 1, "")) else Allow
  {
    hide KeyOfRequest, CompilePattern, CompiledFrom, Denies, After, RuleIndex.Contends, RuleIndex.Contenders, RuleIndex.Lists;
    hide EdgeChecks.SourceCheck, Lookup;
    var rule := LeftBehind(s, t, hash, req, committed);
    DenialContends(rule, req, tenant, namespace, value, now);
    SourceVerdict(t, order, hash, tenant, namespace, value, now);
    OnlyContends(t.rules, rule, tenant, namespace, value, now);
  }

  // with at most one rule, only it can contend
  lemma OnlyContends(table: map<RuleKey, RuleEntry>, rule: RuleEntry, tenant: string, namespace: string, value: string, now: nat)
    requires table == (if rule.action == Delete then map[] else map[rule.Key() := rule])
    ensures forall r :: r in RuleIndex.Contenders(table, tenant, namespace, value, now) <==>
                          r == rule && rule.action != Delete && RuleIndex.Contends(rule, tenant, namespace, value, now)
  {
    hide RuleIndex.Contends;
  }

  /** In any table, a committed rule decides the values that it denies as long as no other matching rule has
      its priority or a higher one. */
  lemma HighestRuleDecides(s: Source, t: Source, hash: KeyHash, req: RuleRequest, committed: nat, order: seq<RuleEntry>,
                           tenant: string, namespace: string, value: string, now: nat)
    requires s.Shaped() && After(s, t, hash, req, committed) && RuleIndex.Lists(order, t.rules)
    requires !Lookup(t, hash, tenant, namespace, value, now).Denied?
    requires Denies(req, tenant, namespace, value, now) && CompilePattern(req.kind, req.pattern).Ok?
    requires forall r :: r in RuleIndex.Contenders(s.rules, tenant, namespace, value, now) ==>
                           r.Key() == KeyOfRequest(hash, req) || r.priority < req.priority
    ensures var shard := KeyOfRequest(hash, req).ruleHash % s.shardCount;
      EdgeChecks.SourceCheck(t, order, hash, tenant, namespace, value, now)
        == Denied(req.reasonCode, req.priority, CommitId(shard, s.watermarks[shard] + 1, 1, ""))
  {
    hide KeyOfRequest, CompilePattern, CompiledFrom, Denies, After, RuleIndex.Contends, RuleIndex.Contenders, RuleIndex.Lists;
    hide EdgeChecks.SourceCheck, Lookup;
    var rule := LeftBehind(s, t, hash, req, committed);
    DenialContends(rule, req, tenant, namespace, value, now);
    DeniesIsDeny(req, tenant, namespace, value, now);
    SourceVerdict(t, order, hash, tenant, namespace, value, now);
    Outranks(s.rules, t.rules, rule.Key(), rule, tenant, namespace, value, now);
  }

  lemma DeniesIsDeny(req: RuleRequest, tenant: string, namespace: string, value: string, now: nat)
    requires Denies(req, tenant, namespace, value, now)
    ensures req.action == Deny
  {
  }

  // the only rule of its priority, and none is above it
  lemma Outranks(before: map<RuleKey, RuleEntry>, after: map<RuleKey, RuleEntry>, k: RuleKey, rule: RuleEntry,
                 tenant: string, namespace: string, value: string, now: nat)
    requires after == before[k := rule] && rule.Key() == k
    requires RuleIndex.Contends(rule, tenant, namespace, value, now) && rule.action == Deny
    requires forall r :: r in RuleIndex.Contenders(before, tenant, namespace, value, now) ==>
                           r.Key() == k || r.priority < rule.priority
    ensures var rules := RuleIndex.Contenders(after, tenant, namespace, value, now);
      OnTop(rule, rules) && forall d :: Decides(d, rules) ==> d == rule
  {
    var rules := RuleIndex.Contenders(after, tenant, namespace, value, now);
    forall r | r in rules
      ensures r == rule || r.priority < rule.priority
    {
      if r.Key() != k {
        assert r in RuleIndex.Contenders(before, tenant, namespace, value, now);
      }
    }
    assert rule in rules;
    hide RuleIndex.Contends, RuleIndex.Contenders;
  }
}
