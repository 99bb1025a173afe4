/** The compiled rule indexes of the edge (CompiledRules and RuleMatch in
    crates/globacl-core/src/lib/active_state.rs) against the linear scan of SourceOfTruth::check. */
module RuleIndex {
  import opened Domain
  import opened Text
  import opened Cidr
  import opened RulePatterns
  import StableSort

  // action_rank
  function ActionRank(a: Action): nat {
    match a
    case Deny => 2
    case AllowOverride => 1
    case Delete => 0
  }

  // compare_rules_for_match(l, r) is Less: l goes first
  predicate Better(l: RuleEntry, r: RuleEntry) {
    || l.priority > r.priority
    || (l.priority == r.priority
        && (|| ActionRank(l.action) > ActionRank(r.action)
            || (ActionRank(l.action) == ActionRank(r.action) && l.commitSeq > r.commitSeq)))
  }

  predicate RuleLeq(l: RuleEntry, r: RuleEntry) {
    !Better(r, l)
  }

  // RuleMatch::consider
  function Consider(best: Option<RuleEntry>, rule: RuleEntry, now: nat): Option<RuleEntry> {
    if rule.IsExpired(now) then best
    else if best.Some? && !Better(rule, best.value) then best
    else Some(rule)
  }

  function ConsiderAll(best: Option<RuleEntry>, rules: seq<RuleEntry>, now: nat): Option<RuleEntry> {
    if rules == [] then best
    else Consider(ConsiderAll(best, rules[..|rules| - 1], now), rules[|rules| - 1], now)
  }

  // RuleMatch::into_decision
  function Verdict(best: Option<RuleEntry>): Decision {
    if best.Some? && best.value.action == Deny then
      Denied(best.value.reasonCode, best.value.priority, CommitId(best.value.shardId, best.value.commitSeq, 1, ""))
    else Allow
  }

  // the same allow or deny, priority and sequence number
  predicate SameVerdict(a: Decision, b: Decision) {
    && (a.Allow? <==> b.Allow?)
    && (a.Denied? ==> a.priority == b.priority && a.commitId.seqNo == b.commitId.seqNo)
  }

  /** What the winner of a scan is, whatever the order of the scan. */
  ghost predicate IsBest(best: Option<RuleEntry>, rules: iset<RuleEntry>, now: nat) {
    && (best.None? ==> forall r :: r in rules ==> r.IsExpired(now))
    && (best.Some? ==>
          && best.value in rules && !best.value.IsExpired(now)
          && forall r :: r in rules && !r.IsExpired(now) ==> !Better(r, best.value))
  }

  lemma {:induction false} ConsiderAllIsBest(rules: seq<RuleEntry>, now: nat)
    ensures IsBest(ConsiderAll(None, rules, now), (iset r | r in rules), now)
  {
    if rules != [] {
      var init := rules[..|rules| - 1];
      ConsiderAllIsBest(init, now);
      assert rules == init + [rules[|rules| - 1]];
    }
  }

  /** The verdict of the winner depends only on the set of rules considered. */
  lemma BestDeterminesVerdict(a: Option<RuleEntry>, b: Option<RuleEntry>, rules: iset<RuleEntry>, now: nat)
    requires IsBest(a, rules, now) && IsBest(b, rules, now)
    ensures SameVerdict(Verdict(a), Verdict(b))
  {
  }

  lemma {:induction false} ConsiderAllConcat(best: Option<RuleEntry>, a: seq<RuleEntry>, b: seq<RuleEntry>, now: nat)
    ensures ConsiderAll(ConsiderAll(best, a, now), b, now) == ConsiderAll(best, a + b, now)
  {
    if b == [] {
      assert a + b == a;
    } else {
      ConsiderAllConcat(best, a, b[..|b| - 1], now);
      assert (a + b)[..|a + b| - 1] == a + b[..|b| - 1];
    }
  }

  lemma ConsiderAllPush(best: Option<RuleEntry>, rules: seq<RuleEntry>, rule: RuleEntry, now: nat)
    ensures ConsiderAll(best, rules + [rule], now) == Consider(ConsiderAll(best, rules, now), rule, now)
  {
    assert (rules + [rule])[..|rules|] == rules;
  }

  // ---------- the index ----------

  type Buckets<!K> = map<K, seq<RuleEntry>>

  datatype Compiled = Compiled(
    ipv4: seq<Buckets<(string, nat)>>,
    domains: Buckets<(string, string)>,
    rulesLen: nat)
  {
    predicate Valid() { |ipv4| == 33 }
  }

  function Bucket<K>(m: Buckets<K>, k: K): seq<RuleEntry> {
    if k in m then m[k] else []
  }

  function Push<K>(m: Buckets<K>, k: K, rule: RuleEntry): Buckets<K> {
    m[k := Bucket(m, k) + [rule]]
  }

  function EmptyIndex(): (c: Compiled)
    ensures c.Valid()
  {
    Compiled(seq(33, _ => map[]), map[], 0)
  }

  // one round of the first loop of from_rules
  function AddRule(c: Compiled, rule: RuleEntry): (d: Compiled)
    requires c.Valid() && Indexable(rule)
    ensures d.Valid()
  {
    if rule.action == Delete then c
    else
      match rule.kind
      case Ipv4Cidr =>
        var p := rule.ipv4PrefixLen;
        c.(ipv4 := c.ipv4[p := Push(c.ipv4[p], (rule.tenantId, rule.ipv4Network), rule)], rulesLen := c.rulesLen + 1)
      case DomainSuffix =>
        c.(domains := Push(c.domains, (rule.tenantId, rule.domainSuffix), rule), rulesLen := c.rulesLen + 1)
  }

  predicate AllIndexable(rules: seq<RuleEntry>) {
    forall i :: 0 <= i < |rules| ==> Indexable(rules[i])
  }

  function AddRules(rules: seq<RuleEntry>): (c: Compiled)
    requires AllIndexable(rules)
    ensures c.Valid()
  {
    if rules == [] then EmptyIndex()
    else AddRule(AddRules(rules[..|rules| - 1]), rules[|rules| - 1])
  }

  // the same loop on rules that no compiler checked; None stands for an index out of bounds
  function AddAnyRules(rules: seq<RuleEntry>): (c: Option<Compiled>)
    ensures c.Some? ==> c.value.Valid()
  {
    if rules == [] then Some(EmptyIndex())
    else
      var before := AddAnyRules(rules[..|rules| - 1]);
      var rule := rules[|rules| - 1];
      if before.None? then None
      else if rule.action == Delete then before
      else if rule.kind == Ipv4Cidr && rule.ipv4PrefixLen >= |before.value.ipv4| then None
      else Some(AddRule(before.value, rule))
  }

  /** Compiling an index ends the program exactly when a rule that is not a Delete record has an IPv4
      prefix above 32; otherwise it adds the rules one by one. */
  lemma {:induction false} IndexPanicsIff(rules: seq<RuleEntry>)
    ensures AddAnyRules(rules).None? <==> exists r :: r in rules && r.action != Delete && !Indexable(r)
    ensures AllIndexable(rules) ==> AddAnyRules(rules) == Some(AddRules(rules))
  {
    if rules != [] {
      var init, last := rules[..|rules| - 1], rules[|rules| - 1];
      IndexPanicsIff(init);
      assert rules == init + [last];
      if r :| r in init && r.action != Delete && !Indexable(r) {
        assert r in rules;
      }
      if last.action != Delete && !Indexable(last) {
        assert last in rules;
      }
      hide AddRule;
    }
  }

  function SortBuckets<K>(m: Buckets<K>): Buckets<K> {
    map k | k in m :: StableSort.Sort(RuleLeq, m[k])
  }

  // CompiledRules::from_rules
  function Compile(rules: seq<RuleEntry>): (c: Compiled)
    requires AllIndexable(rules)
    ensures c.Valid()
  {
    var c := AddRules(rules);
    Compiled(seq(33, p requires 0 <= p < 33 => SortBuckets(c.ipv4[p])), SortBuckets(c.domains), c.rulesLen)
  }

  method CompileRules(rules: seq<RuleEntry>) returns (c: Compiled)
    requires AllIndexable(rules)
    ensures c == Compile(rules)
  {
    c := EmptyIndex();
    for i := 0 to |rules|
      invariant c == AddRules(rules[..i])
    {
      assert rules[..i + 1][..i] == rules[..i];
      c := AddRule(c, rules[i]);
    }
    assert rules[..|rules|] == rules;
    ghost var added := c;
    for p := 0 to 33
      invariant |c.ipv4| == 33 && c.domains == added.domains && c.rulesLen == added.rulesLen
      invariant forall q :: 0 <= q < p ==> c.ipv4[q] == SortBuckets(added.ipv4[q])
      invariant forall q :: p <= q < 33 ==> c.ipv4[q] == added.ipv4[q]
    {
      c := c.(ipv4 := c.ipv4[p := SortBuckets(c.ipv4[p])]);
    }
    c := c.(domains := SortBuckets(c.domains));
    assert c.ipv4 == Compile(rules).ipv4;
  }

  predicate InV4Bucket(r: RuleEntry, p: nat, key: (string, nat)) {
    r.kind == Ipv4Cidr && r.ipv4PrefixLen == p && (r.tenantId, r.ipv4Network) == key
  }

  predicate InDomainBucket(r: RuleEntry, key: (string, string)) {
    r.kind == DomainSuffix && (r.tenantId, r.domainSuffix) == key
  }

  /** The index files exactly the rules rs, each in its own bucket. */
  ghost predicate Files(c: Compiled, rs: set<RuleEntry>) {
    && c.Valid()
    && (forall r :: r in rs ==> Indexable(r) && r.action != Delete)
    && (forall p, key, r :: 0 <= p < 33 ==>
          (r in Bucket(c.ipv4[p], key) <==> r in rs && InV4Bucket(r, p, key)))
    && (forall key, r :: r in Bucket(c.domains, key) <==> r in rs && InDomainBucket(r, key))
  }

  function Kept(rules: seq<RuleEntry>): set<RuleEntry> {
    set r | r in rules && r.action != Delete
  }

  lemma AddFiles(c: Compiled, rs: set<RuleEntry>, rule: RuleEntry)
    requires Files(c, rs) && Indexable(rule)
    ensures Files(AddRule(c, rule), if rule.action == Delete then rs else rs + {rule})
  {
    if rule.action != Delete {
      var d := AddRule(c, rule);
      var rs' := rs + {rule};
      forall p, key, r | 0 <= p < 33
        ensures r in Bucket(d.ipv4[p], key) <==> r in rs' && InV4Bucket(r, p, key)
      {
        assert r in Bucket(c.ipv4[p], key) <==> r in rs && InV4Bucket(r, p, key);
        PushBucket(c.ipv4[p], (rule.tenantId, rule.ipv4Network), rule, key, r);
      }
      forall key, r
        ensures r in Bucket(d.domains, key) <==> r in rs' && InDomainBucket(r, key)
      {
        PushBucket(c.domains, (rule.tenantId, rule.domainSuffix), rule, key, r);
      }
    }
  }

  lemma PushBucket<K>(m: Buckets<K>, k: K, rule: RuleEntry, key: K, r: RuleEntry)
    ensures r in Bucket(Push(m, k, rule), key) <==> r in Bucket(m, key) || (key == k && r == rule)
  {
  }

  lemma {:induction false} AddRulesFiles(rules: seq<RuleEntry>)
    requires AllIndexable(rules)
    ensures Files(AddRules(rules), Kept(rules))
  {
    if rules != [] {
      var init, last := rules[..|rules| - 1], rules[|rules| - 1];
      AddRulesFiles(init);
      AddFiles(AddRules(init), Kept(init), last);
      hide Files;
      assert rules == init + [last];
      assert Kept(rules) == if last.action == Delete then Kept(init) else Kept(init) + {last};
    }
  }

  lemma SortedBucket<K>(m: Buckets<K>, k: K, r: RuleEntry)
    ensures r in Bucket(SortBuckets(m), k) <==> r in Bucket(m, k)
  {
    if k in m {
      RuleLeqPreorder();
      StableSort.SortMembers(RuleLeq, m[k], r);
    }
  }

  lemma RuleLeqPreorder()
    ensures StableSort.Preorder(RuleLeq)
  {
  }

  /** from_rules files every rule that is not a Delete record, once each bucket is sorted. */
  lemma CompileFiles(rules: seq<RuleEntry>)
    requires AllIndexable(rules)
    ensures Files(Compile(rules), Kept(rules))
  {
    AddRulesFiles(rules);
    var a, c := AddRules(rules), Compile(rules);
    SortedFiles(a, c, Kept(rules));
  }

  lemma SortedFiles(a: Compiled, c: Compiled, rs: set<RuleEntry>)
    requires Files(a, rs) && c.Valid() && c.domains == SortBuckets(a.domains)
    requires forall p :: 0 <= p < 33 ==> c.ipv4[p] == SortBuckets(a.ipv4[p])
    ensures Files(c, rs)
  {
    hide SortBuckets, Bucket;
    forall p, key, r | 0 <= p < 33
      ensures r in Bucket(c.ipv4[p], key) <==> r in rs && InV4Bucket(r, p, key)
    {
      SortedBucket(a.ipv4[p], key, r);
    }
    forall key, r
      ensures r in Bucket(c.domains, key) <==> r in rs && InDomainBucket(r, key)
    {
      SortedBucket(a.domains, key, r);
    }
  }

  // ---------- the query ----------

  type Removed = map<RuleKey, nat>

  function Live(rules: seq<RuleEntry>, removed: Removed): seq<RuleEntry> {
    if rules == [] then []
    else Live(rules[..|rules| - 1], removed)
         + (if rules[|rules| - 1].Key() in removed then [] else [rules[|rules| - 1]])
  }

  // prefixes p, p - 1, ..., 0
  function V4Candidates(c: Compiled, tenant: string, ip: nat, p: nat, removed: Removed): seq<RuleEntry>
    requires c.Valid() && p <= 32 && ip < ADDRESSES
  {
    Live(Bucket(c.ipv4[p], (tenant, Mask(ip, p))), removed)
    + if p == 0 then [] else V4Candidates(c, tenant, ip, p - 1, removed)
  }

  function DomainCandidates(c: Compiled, tenant: string, suffixes: seq<string>, removed: Removed): seq<RuleEntry> {
    if suffixes == [] then []
    else Live(Bucket(c.domains, (tenant, suffixes[0])), removed)
         + DomainCandidates(c, tenant, suffixes[1..], removed)
  }

  // what consider_matches considers, in its order
  function Candidates(c: Compiled, tenant: string, namespace: string, value: string, removed: Removed): seq<RuleEntry>
    requires c.Valid()
  {
    match KindFor(namespace)
    case Some(Ipv4Cidr) =>
      (match ParseAddr(value)
       case Ok(ip) => V4Candidates(c, tenant, ip, 32, removed)
       case Err(_) => [])
    case Some(DomainSuffix) =>
      (match CanonicalDomain(value)
       case Ok(domain) => DomainCandidates(c, tenant, SuffixCandidates(domain), removed)
       case Err(_) => [])
    case None => []
  }

  // the innermost loop of consider_matches
  method ConsiderBucket(rules: seq<RuleEntry>, removed: Removed, now: nat, start: Option<RuleEntry>)
    returns (best: Option<RuleEntry>)
    ensures best == ConsiderAll(start, Live(rules, removed), now)
  {
    best := start;
    for i := 0 to |rules|
      invariant best == ConsiderAll(start, Live(rules[..i], removed), now)
    {
      assert rules[..i + 1][..i] == rules[..i];
      ghost var live := Live(rules[..i], removed);
      assert live + [] == live;
      ConsiderAllPush(start, live, rules[i], now);
      if rules[i].Key() !in removed {
        best := Consider(best, rules[i], now);
      }
    }
    assert rules[..|rules|] == rules;
  }

  // what prefixes below p still contribute
  function V4Rest(c: Compiled, tenant: string, ip: nat, p: nat, removed: Removed): seq<RuleEntry>
    requires c.Valid() && p <= 33 && ip < ADDRESSES
  {
    if p == 0 then [] else V4Candidates(c, tenant, ip, p - 1, removed)
  }

  lemma V4RestStep(c: Compiled, tenant: string, ip: nat, p: nat, removed: Removed, done: seq<RuleEntry>)
    requires c.Valid() && p <= 32 && ip < ADDRESSES
    ensures var live := Live(Bucket(c.ipv4[p], (tenant, Mask(ip, p))), removed);
      done + V4Rest(c, tenant, ip, p + 1, removed) == (done + live) + V4Rest(c, tenant, ip, p, removed)
  {
  }

  method ConsiderV4(c: Compiled, tenant: string, ip: nat, now: nat, removed: Removed, start: Option<RuleEntry>)
    returns (best: Option<RuleEntry>)
    requires c.Valid() && ip < ADDRESSES
    ensures best == ConsiderAll(start, V4Candidates(c, tenant, ip, 32, removed), now)
  {
    best := start;
    ghost var done: seq<RuleEntry> := [];
    ghost var all := V4Candidates(c, tenant, ip, 32, removed);
    for p := 33 downto 0
      invariant best == ConsiderAll(start, done, now)
      invariant all == done + V4Rest(c, tenant, ip, p, removed)
    {
      hide ConsiderAll, Live, V4Candidates, V4Rest, Mask, Bucket;
      var bucket := Bucket(c.ipv4[p], (tenant, Mask(ip, p)));
      best := ConsiderBucket(bucket, removed, now, best);
      ConsiderAllConcat(start, done, Live(bucket, removed), now);
      V4RestStep(c, tenant, ip, p, removed, done);
      done := done + Live(bucket, removed);
    }
    assert done == all;
  }

  lemma DomainStep(c: Compiled, tenant: string, suffixes: seq<string>, i: nat, removed: Removed, done: seq<RuleEntry>)
    requires i < |suffixes|
    ensures done + DomainCandidates(c, tenant, suffixes[i..], removed)
         == done + Live(Bucket(c.domains, (tenant, suffixes[i])), removed)
            + DomainCandidates(c, tenant, suffixes[i + 1..], removed)
  {
    assert suffixes[i..][1..] == suffixes[i + 1..];
  }

  method ConsiderDomains(c: Compiled, tenant: string, suffixes: seq<string>, now: nat, removed: Removed,
                         start: Option<RuleEntry>)
    returns (best: Option<RuleEntry>)
    ensures best == ConsiderAll(start, DomainCandidates(c, tenant, suffixes, removed), now)
  {
    best := start;
    ghost var done: seq<RuleEntry> := [];
    ghost var all := DomainCandidates(c, tenant, suffixes, removed);
    for i := 0 to |suffixes|
      invariant best == ConsiderAll(start, done, now)
      invariant all == done + DomainCandidates(c, tenant, suffixes[i..], removed)
    {
      hide ConsiderAll, Live, Bucket, DomainCandidates;
      var bucket := Bucket(c.domains, (tenant, suffixes[i]));
      best := ConsiderBucket(bucket, removed, now, best);
      ConsiderAllConcat(start, done, Live(bucket, removed), now);
      DomainStep(c, tenant, suffixes, i, removed, done);
      done := done + Live(bucket, removed);
    }
    assert done == all;
  }

  // consider_matches
  method ConsiderMatches(c: Compiled, tenant: string, namespace: string, value: string, now: nat,
                         removed: Removed, start: Option<RuleEntry>)
    returns (best: Option<RuleEntry>)
    requires c.Valid()
    ensures best == ConsiderAll(start, Candidates(c, tenant, namespace, value, removed), now)
  {
    best := start;
    match KindFor(namespace)
    case None =>
    case Some(Ipv4Cidr) =>
      var ip := ParseAddrLoop(value);
      if ip.Ok? {
        best := ConsiderV4(c, tenant, ip.value, now, removed, start);
      }
    case Some(DomainSuffix) =>
      var domain := CanonicalDomain(value);
      if domain.Ok? {
        best := ConsiderDomains(c, tenant, SuffixCandidates(domain.value), now, removed, start);
      }
  }

  lemma {:induction false} LiveMembers(rules: seq<RuleEntry>, removed: Removed, r: RuleEntry)
    ensures r in Live(rules, removed) <==> r in rules && r.Key() !in removed
  {
    if rules != [] {
      LiveMembers(rules[..|rules| - 1], removed, r);
      assert rules == rules[..|rules| - 1] + [rules[|rules| - 1]];
    }
  }

  lemma {:induction false} V4Members(c: Compiled, rs: set<RuleEntry>, tenant: string, ip: nat, p: nat,
                                     removed: Removed, r: RuleEntry)
    requires Files(c, rs) && p <= 32 && ip < ADDRESSES
    ensures r in V4Candidates(c, tenant, ip, p, removed)
       <==> r in rs && r.Key() !in removed && r.tenantId == tenant && r.kind == Ipv4Cidr && r.ipv4PrefixLen <= p
            && Mask(ip, r.ipv4PrefixLen) == r.ipv4Network
  {
    var key := (tenant, Mask(ip, p));
    LiveMembers(Bucket(c.ipv4[p], key), removed, r);
    assert r in Bucket(c.ipv4[p], key) <==> r in rs && InV4Bucket(r, p, key);
    if p > 0 {
      V4Members(c, rs, tenant, ip, p - 1, removed, r);
    }
    hide Files, Bucket, Live, Mask;
  }

  lemma {:induction false} DomainMembers(c: Compiled, rs: set<RuleEntry>, tenant: string, suffixes: seq<string>,
                                         removed: Removed, r: RuleEntry)
    requires Files(c, rs)
    ensures r in DomainCandidates(c, tenant, suffixes, removed)
       <==> r in rs && r.Key() !in removed && r.tenantId == tenant && r.kind == DomainSuffix && r.domainSuffix in suffixes
  {
    if suffixes != [] {
      var key := (tenant, suffixes[0]);
      LiveMembers(Bucket(c.domains, key), removed, r);
      assert r in Bucket(c.domains, key) <==> r in rs && InDomainBucket(r, key);
      DomainMembers(c, rs, tenant, suffixes[1..], removed, r);
      assert suffixes == [suffixes[0]] + suffixes[1..];
      hide Files, Bucket, Live;
    }
  }

  predicate Matched(r: RuleEntry, tenant: string, namespace: string, value: string) {
    Indexable(r) && r.tenantId == tenant && RuleMatches(r, namespace, value)
  }

  /** The index is complete and sound: a query considers exactly the rules on file that match it by
      the linear test and are not removed. */
  lemma CandidatesAreMatches(c: Compiled, rs: set<RuleEntry>, tenant: string, namespace: string, value: string,
                             removed: Removed, r: RuleEntry)
    requires Files(c, rs)
    ensures r in Candidates(c, tenant, namespace, value, removed)
       <==> r in rs && r.Key() !in removed && Matched(r, tenant, namespace, value)
  {
    if KindFor(namespace) == Some(Ipv4Cidr) && ParseAddr(value).Ok? {
      V4Members(c, rs, tenant, ParseAddr(value).value, 32, removed, r);
    }
    if KindFor(namespace) == Some(DomainSuffix) && CanonicalDomain(value).Ok? {
      DomainMembers(c, rs, tenant, SuffixCandidates(CanonicalDomain(value).value), removed, r);
    }
    hide ParseAddr, CanonicalDomain, SuffixCandidates, KindFor, Mask, V4Candidates, DomainCandidates;
  }

  // ---------- check against the scan ----------

  // the rules of a table, in whatever order the hash map yields them
  ghost predicate Lists(order: seq<RuleEntry>, table: map<RuleKey, RuleEntry>) {
    forall r :: r in order <==> r.Key() in table && table[r.Key()] == r
  }

  predicate Keyed(table: map<RuleKey, RuleEntry>) {
    forall k :: k in table ==> table[k].Key() == k && Indexable(table[k])
  }

  function Matching(rules: seq<RuleEntry>, tenant: string, namespace: string, value: string): seq<RuleEntry> {
    if rules == [] then []
    else Matching(rules[..|rules| - 1], tenant, namespace, value)
         + (if Matched(rules[|rules| - 1], tenant, namespace, value) then [rules[|rules| - 1]] else [])
  }

  lemma {:induction false} MatchingMembers(rules: seq<RuleEntry>, tenant: string, namespace: string, value: string, r: RuleEntry)
    ensures r in Matching(rules, tenant, namespace, value) <==> r in rules && Matched(r, tenant, namespace, value)
  {
    if rules != [] {
      MatchingMembers(rules[..|rules| - 1], tenant, namespace, value, r);
      assert rules == rules[..|rules| - 1] + [rules[|rules| - 1]];
    }
  }

  // the loop of SourceOfTruth::check
  method ScanRules(order: seq<RuleEntry>, tenant: string, namespace: string, value: string, now: nat,
                   start: Option<RuleEntry>)
    returns (best: Option<RuleEntry>)
    ensures best == ConsiderAll(start, Matching(order, tenant, namespace, value), now)
  {
    best := start;
    for i := 0 to |order|
      invariant best == ConsiderAll(start, Matching(order[..i], tenant, namespace, value), now)
    {
      assert order[..i + 1][..i] == order[..i];
      ghost var seen := Matching(order[..i], tenant, namespace, value);
      assert seen + [] == seen;
      ConsiderAllPush(start, seen, order[i], now);
      if Matched(order[i], tenant, namespace, value) {
        best := Consider(best, order[i], now);
      }
    }
    assert order[..|order|] == order;
  }

  function ScanBest(order: seq<RuleEntry>, tenant: string, namespace: string, value: string, now: nat): Option<RuleEntry> {
    ConsiderAll(None, Matching(order, tenant, namespace, value), now)
  }

  // the edge's rules: an index and an overlay
  datatype Overlay = Overlay(base: Compiled, adds: map<RuleKey, RuleEntry>, removes: Removed)

  // consider_delta_rules, then consider_matches
  function EdgeBest(o: Overlay, addsOrder: seq<RuleEntry>, tenant: string, namespace: string, value: string, now: nat)
    : Option<RuleEntry>
    requires o.base.Valid()
  {
    ConsiderAll(ConsiderAll(None, Matching(addsOrder, tenant, namespace, value), now),
                Candidates(o.base, tenant, namespace, value, o.removes), now)
  }

  // the rule part of ActiveState::check
  method EdgeScan(o: Overlay, addsOrder: seq<RuleEntry>, tenant: string, namespace: string, value: string, now: nat)
    returns (best: Option<RuleEntry>)
    requires o.base.Valid()
    ensures best == EdgeBest(o, addsOrder, tenant, namespace, value, now)
  {
    best := ScanRules(addsOrder, tenant, namespace, value, now, None);
    best := ConsiderMatches(o.base, tenant, namespace, value, now, o.removes, best);
  }

  /** The overlay's base holds the table `base`. */
  ghost predicate OverlayOf(o: Overlay, base: map<RuleKey, RuleEntry>) {
    && Keyed(base) && Keyed(o.adds) && Files(o.base, base.Values)
    && o.adds.Keys !! o.removes.Keys
  }

  // the rules a snapshot of the edge would hold: materialized_rules
  function LiveRules(o: Overlay, base: map<RuleKey, RuleEntry>): map<RuleKey, RuleEntry> {
    (base - o.removes.Keys) + o.adds
  }

  predicate Contends(r: RuleEntry, tenant: string, namespace: string, value: string, now: nat) {
    Matched(r, tenant, namespace, value) && !r.IsExpired(now)
  }

  // the rules of a table that match and have not expired
  ghost function Contenders(table: map<RuleKey, RuleEntry>, tenant: string, namespace: string, value: string, now: nat)
    : iset<RuleEntry>
  {
    iset r: RuleEntry | r.Key() in table && table[r.Key()] == r && Contends(r, tenant, namespace, value, now)
  }

  // the versions that the overlay has replaced; they are still in the index
  function Replaced(o: Overlay, base: map<RuleKey, RuleEntry>): map<RuleKey, RuleEntry> {
    map k | k in base && k in o.adds :: base[k]
  }

  /** A replaced rule shows through when the best one that matches outranks every live match, and either
      it denies or the winning live match does. */
  ghost predicate ShowsThrough(o: Overlay, base: map<RuleKey, RuleEntry>,
                               tenant: string, namespace: string, value: string, now: nat) {
    var live := Contenders(LiveRules(o, base), tenant, namespace, value, now);
    var stale := Contenders(Replaced(o, base), tenant, namespace, value, now);
    exists s :: s in stale && TopsBoth(s, stale, live)
  }

  ghost predicate TopsBoth(s: RuleEntry, stale: iset<RuleEntry>, live: iset<RuleEntry>) {
    && (forall r :: r in stale ==> !Better(r, s))
    && (forall r :: r in live ==> Better(s, r))
    && (s.action == Deny || exists r :: r in live && r.action == Deny && forall q :: q in live ==> !Better(q, r))
  }

  lemma ScanIsBest(order: seq<RuleEntry>, table: map<RuleKey, RuleEntry>,
                   tenant: string, namespace: string, value: string, now: nat)
    requires Lists(order, table)
    ensures IsBest(ScanBest(order, tenant, namespace, value, now),
                   Contenders(table, tenant, namespace, value, now), now)
  {
    var matching := Matching(order, tenant, namespace, value);
    ConsiderAllIsBest(matching, now);
    forall r
      ensures r in matching <==> r.Key() in table && table[r.Key()] == r && Matched(r, tenant, namespace, value)
    {
      MatchingMembers(order, tenant, namespace, value, r);
    }
    hide Matched, Matching, ConsiderAll;
  }

  // one rule, considered at the edge
  lemma EdgeConsiders(o: Overlay, base: map<RuleKey, RuleEntry>, addsOrder: seq<RuleEntry>,
                      tenant: string, namespace: string, value: string, now: nat, r: RuleEntry)
    requires OverlayOf(o, base) && Lists(addsOrder, o.adds)
    ensures var considered := Matching(addsOrder, tenant, namespace, value)
                              + Candidates(o.base, tenant, namespace, value, o.removes);
      r in Contenders(LiveRules(o, base), tenant, namespace, value, now)
           + Contenders(Replaced(o, base), tenant, namespace, value, now)
      <==> r in considered && !r.IsExpired(now)
  {
    MatchingMembers(addsOrder, tenant, namespace, value, r);
    CandidatesAreMatches(o.base, base.Values, tenant, namespace, value, o.removes, r);
    assert r in base.Values <==> r.Key() in base && base[r.Key()] == r;
    hide Matched, Matching, Candidates, Files;
  }

  lemma BestOfUnexpired(best: Option<RuleEntry>, all: iset<RuleEntry>, live: iset<RuleEntry>, now: nat)
    requires IsBest(best, all, now) && forall r :: r in live <==> r in all && !r.IsExpired(now)
    ensures IsBest(best, live, now)
  {
  }

  lemma EdgeIsBest(o: Overlay, base: map<RuleKey, RuleEntry>, addsOrder: seq<RuleEntry>,
                   tenant: string, namespace: string, value: string, now: nat)
    requires OverlayOf(o, base) && Lists(addsOrder, o.adds)
    ensures IsBest(EdgeBest(o, addsOrder, tenant, namespace, value, now),
                   Contenders(LiveRules(o, base), tenant, namespace, value, now)
                   + Contenders(Replaced(o, base), tenant, namespace, value, now), now)
  {
    var a, b := Matching(addsOrder, tenant, namespace, value), Candidates(o.base, tenant, namespace, value, o.removes);
    var live := Contenders(LiveRules(o, base), tenant, namespace, value, now)
                + Contenders(Replaced(o, base), tenant, namespace, value, now);
    ConsiderAllConcat(None, a, b, now);
    ConsiderAllIsBest(a + b, now);
    forall r
      ensures r in live <==> r in a + b && !r.IsExpired(now)
    {
      EdgeConsiders(o, base, addsOrder, tenant, namespace, value, now, r);
    }
    hide Contenders, LiveRules, Replaced, Matching, Candidates, ConsiderAll, IsBest, OverlayOf, Lists;
    BestOfUnexpired(ConsiderAll(None, a + b, now), (iset r | r in a + b), live, now);
  }

  /** The exact condition. For every tenant, namespace, value and time, and whatever the map iteration
      orders, check and the linear scan of the live rules give the same verdict, priority and sequence
      number if and only if no replaced rule shows through. */
  lemma CheckAgreesIff(o: Overlay, base: map<RuleKey, RuleEntry>, addsOrder: seq<RuleEntry>, order: seq<RuleEntry>,
                       tenant: string, namespace: string, value: string, now: nat)
    requires OverlayOf(o, base) && Lists(addsOrder, o.adds) && Lists(order, LiveRules(o, base))
    ensures SameVerdict(Verdict(EdgeBest(o, addsOrder, tenant, namespace, value, now)),
                        Verdict(ScanBest(order, tenant, namespace, value, now)))
       <==> !ShowsThrough(o, base, tenant, namespace, value, now)
  {
    ScanIsBest(order, LiveRules(o, base), tenant, namespace, value, now);
    EdgeIsBest(o, base, addsOrder, tenant, namespace, value, now);
    var scan, edge := ScanBest(order, tenant, namespace, value, now), EdgeBest(o, addsOrder, tenant, namespace, value, now);
    hide ScanBest, EdgeBest, Contenders, LiveRules, Files, Lists;
    BestsAgreeIff(Contenders(LiveRules(o, base), tenant, namespace, value, now),
                  Contenders(Replaced(o, base), tenant, namespace, value, now), scan, edge, now);
  }

  // the winner among the live rules against the winner among the live and the stale ones
  lemma BestsAgreeIff(live: iset<RuleEntry>, stale: iset<RuleEntry>, scan: Option<RuleEntry>, edge: Option<RuleEntry>, now: nat)
    requires IsBest(scan, live, now) && IsBest(edge, live + stale, now)
    requires forall r :: r in live + stale ==> !r.IsExpired(now)
    ensures SameVerdict(Verdict(edge), Verdict(scan)) <==> !exists s :: s in stale && TopsBoth(s, stale, live)
  {
    if s :| s in stale && TopsBoth(s, stale, live) {
      assert edge.Some? && !Better(s, edge.value) && !Better(edge.value, s);
    } else if !SameVerdict(Verdict(edge), Verdict(scan)) {
      assert edge.Some?;
      assert scan.Some? ==> Better(edge.value, scan.value);
      assert forall r :: r in live ==> Better(edge.value, r);
      assert TopsBoth(edge.value, stale, live);
    }
  }

  function Rule(action: Action, priority: nat, seqNo: nat): RuleEntry {
    RuleEntry("t", Ipv4Cidr, "0.0.0.0/0", 0, action, priority, "r", 0, "u", seqNo, 0, 0, 0, "")
  }

  lemma ReplaceOne(held: RuleEntry, next: RuleEntry)
    requires held.Key() == next.Key() && Indexable(held) && Indexable(next) && held.action != Delete
    ensures OverlayOf(Overlay(Compile([held]), map[next.Key() := next], map[]), map[held.Key() := held])
  {
    var base := map[held.Key() := held];
    CompileFiles([held]);
    assert base[held.Key()] == held;
    assert Kept([held]) == base.Values;
    hide Compile, Files;
  }

  lemma ReplacedWins(held: RuleEntry, next: RuleEntry, o: Overlay, tenant: string, namespace: string, value: string, now: nat)
    requires held.Key() == next.Key() && held.action == Deny && next.action != Deny && Better(held, next)
    requires Contends(held, tenant, namespace, value, now) && Contends(next, tenant, namespace, value, now)
    requires o == Overlay(Compile([held]), map[next.Key() := next], map[])
    ensures Verdict(EdgeBest(o, [next], tenant, namespace, value, now)).Denied?
    ensures Verdict(ScanBest([next], tenant, namespace, value, now)).Allow?
  {
    var base := map[held.Key() := held];
    ReplaceOne(held, next);
    assert LiveRules(o, base) == o.adds && Replaced(o, base) == base && Lists([next], o.adds);
    assert held in Contenders(base, tenant, namespace, value, now);
    assert next in Contenders(o.adds, tenant, namespace, value, now);
    OnlyContender(next, tenant, namespace, value, now);
    hide OverlayOf, Compile, Files, Lists, EdgeBest, ScanBest, Contends, Contenders, LiveRules, Replaced;
    EdgeIsBest(o, base, [next], tenant, namespace, value, now);
    ScanIsBest([next], o.adds, tenant, namespace, value, now);
    assert Contenders(o.adds, tenant, namespace, value, now) + Contenders(base, tenant, namespace, value, now)
        == Contenders(LiveRules(o, base), tenant, namespace, value, now) + Contenders(Replaced(o, base), tenant, namespace, value, now);
  }

  lemma OnlyContender(rule: RuleEntry, tenant: string, namespace: string, value: string, now: nat)
    ensures forall r :: r in Contenders(map[rule.Key() := rule], tenant, namespace, value, now) ==> r == rule
    ensures forall r :: r in Contenders(map[rule.Key() := rule], tenant, namespace, value, now) ==> !r.IsExpired(now)
  {
  }

  /** It does happen, for any IPv4 namespace and address: a deny rule that a weaker allow rule of the
      same key has replaced still denies at the edge, while the scan of the live rules allows. */
  lemma ReplacedRuleShowsThrough(namespace: string, value: string)
    requires KindFor(namespace) == Some(Ipv4Cidr) && ParseAddr(value).Ok?
    ensures var held, next := Rule(Deny, 9, 1), Rule(AllowOverride, 1, 2);
      var o := Overlay(Compile([held]), map[next.Key() := next], map[]);
      && OverlayOf(o, map[held.Key() := held])
      && Verdict(EdgeBest(o, [next], "t", namespace, value, 0)).Denied?
      && Verdict(ScanBest([next], "t", namespace, value, 0)).Allow?
  {
    var held, next := Rule(Deny, 9, 1), Rule(AllowOverride, 1, 2);
    ReplaceOne(held, next);
    assert Contends(held, "t", namespace, value, 0) && Contends(next, "t", namespace, value, 0);
    hide OverlayOf, Compile, EdgeBest, ScanBest, Contends, KindFor, ParseAddr;
    ReplacedWins(held, next, Overlay(Compile([held]), map[next.Key() := next], map[]), "t", namespace, value, 0);
  }

  /** In particular they agree whenever the overlay adds no key that the base holds, as right after
      loading a snapshot or compacting the overlay. */
  lemma CheckAgreesWithoutOverride(o: Overlay, base: map<RuleKey, RuleEntry>, addsOrder: seq<RuleEntry>,
                                   order: seq<RuleEntry>, tenant: string, namespace: string, value: string, now: nat)
    requires OverlayOf(o, base) && Lists(addsOrder, o.adds) && Lists(order, LiveRules(o, base))
    requires o.adds.Keys !! base.Keys
    ensures SameVerdict(Verdict(EdgeBest(o, addsOrder, tenant, namespace, value, now)),
                        Verdict(ScanBest(order, tenant, namespace, value, now)))
  {
    CheckAgreesIff(o, base, addsOrder, order, tenant, namespace, value, now);
  }
}
