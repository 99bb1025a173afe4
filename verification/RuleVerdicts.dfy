/** Which rule decides a check, in words that do not mention the comparison: compare_rules_for_match and
    RuleMatch in crates/globacl-core/src/lib/rules.rs and active_state.rs. The highest priority decides; at
    equal priority a deny rule beats an allow rule, and a later deny rule an earlier one. */
module RuleVerdicts {
  import opened Domain
  import opened SourceSpec
  import opened RulePatterns
  import opened RuleIndex
  import opened NegativeFilter
  import opened ActiveState
  import EdgeChecks

  // no rule of the set has a higher priority
  ghost predicate OnTop(r: RuleEntry, rules: iset<RuleEntry>) {
    r in rules && forall q :: q in rules ==> q.priority <= r.priority
  }

  /** d is a deny rule of the highest priority, and none of that kind has a later number. */
  ghost predicate Decides(d: RuleEntry, rules: iset<RuleEntry>) {
    && OnTop(d, rules) && d.action == Deny
    && forall q :: q in rules && q.action == Deny && q.priority == d.priority ==> q.commitSeq <= d.commitSeq
  }

  // the answer that a deny rule gives
  function Denial(d: RuleEntry): Decision {
    Denied(d.reasonCode, d.priority, CommitId(d.shardId, d.commitSeq, 1, ""))
  }

  /** The verdict is a denial exactly when some deny rule has a priority that no contending rule exceeds, and
      it is then the denial of the latest such rule; otherwise it is Allow. */
  ghost predicate VerdictOf(verdict: Decision, rules: iset<RuleEntry>) {
    && (verdict.Denied? <==> exists d :: OnTop(d, rules) && d.action == Deny)
    && (verdict.Denied? ==> exists d :: Decides(d, rules) && verdict == Denial(d))
  }

  lemma BestIsVerdict(best: Option<RuleEntry>, rules: iset<RuleEntry>, now: nat)
    requires IsBest(best, rules, now) && forall r :: r in rules ==> !r.IsExpired(now)
    ensures VerdictOf(Verdict(best), rules)
  {
    if best.Some? {
      var b := best.value;
      assert OnTop(b, rules) by {
        assert forall q :: q in rules ==> !Better(q, b);
      }
      if d :| OnTop(d, rules) && d.action == Deny {
        assert !Better(d, b) && d.priority == b.priority;
        assert b.action == Deny;
      }
      if b.action == Deny {
        assert forall q :: q in rules ==> !Better(q, b);
        assert Decides(b, rules);
      }
    } else {
      assert forall d :: !OnTop(d, rules);
    }
  }

  /** The scan of the source, in any order, gives the verdict of the matching unexpired rules. */
  lemma ScanVerdict(order: seq<RuleEntry>, table: map<RuleKey, RuleEntry>,
                    tenant: string, namespace: string, value: string, now: nat)
    requires Lists(order, table)
    ensures VerdictOf(Verdict(ScanBest(order, tenant, namespace, value, now)),
                      Contenders(table, tenant, namespace, value, now))
  {
    ScanIsBest(order, table, tenant, namespace, value, now);
    Unexpired(table, tenant, namespace, value, now);
    hide Lists, Contenders, ScanBest, IsBest, VerdictOf;
    BestIsVerdict(ScanBest(order, tenant, namespace, value, now), Contenders(table, tenant, namespace, value, now), now);
  }

  lemma Unexpired(table: map<RuleKey, RuleEntry>, tenant: string, namespace: string, value: string, now: nat)
    ensures forall r :: r in Contenders(table, tenant, namespace, value, now) ==> !r.IsExpired(now)
  {
    hide Matched;
  }

  /** The edge, in any order, gives the verdict of its live rules and of those that its overlay replaced. */
  lemma EdgeVerdict(o: Overlay, base: map<RuleKey, RuleEntry>, addsOrder: seq<RuleEntry>,
                    tenant: string, namespace: string, value: string, now: nat)
    requires OverlayOf(o, base) && Lists(addsOrder, o.adds)
    ensures VerdictOf(Verdict(EdgeBest(o, addsOrder, tenant, namespace, value, now)),
                      Contenders(LiveRules(o, base), tenant, namespace, value, now)
                      + Contenders(Replaced(o, base), tenant, namespace, value, now))
  {
    EdgeIsBest(o, base, addsOrder, tenant, namespace, value, now);
    Unexpired(LiveRules(o, base), tenant, namespace, value, now);
    Unexpired(Replaced(o, base), tenant, namespace, value, now);
    hide OverlayOf, Lists, Contenders, EdgeBest, IsBest, VerdictOf, LiveRules, Replaced;
    BestIsVerdict(EdgeBest(o, addsOrder, tenant, namespace, value, now),
                  Contenders(LiveRules(o, base), tenant, namespace, value, now)
                  + Contenders(Replaced(o, base), tenant, namespace, value, now), now);
  }

  /** A check at the source: a point lookup that denies decides; otherwise the rules do. */
  lemma SourceVerdict(src: Source, order: seq<RuleEntry>, hash: KeyHash,
                      tenant: string, namespace: string, value: string, now: nat)
    requires Lists(order, src.rules)
    ensures var point := Lookup(src, hash, tenant, namespace, value, now);
      var check := EdgeChecks.SourceCheck(src, order, hash, tenant, namespace, value, now);
      if point.Denied? then check == point
      else VerdictOf(check, Contenders(src.rules, tenant, namespace, value, now))
  {
    ScanVerdict(order, src.rules, tenant, namespace, value, now);
    hide VerdictOf, Lists, Contenders, ScanBest;
  }

  /** A check at the edge, the same way. */
  lemma EdgeCheckVerdict(e: Edge, pair: KeyPair, entries: map<AclKey, DenyEntry>, rules: map<RuleKey, RuleEntry>,
                         addsOrder: seq<RuleEntry>, hash: KeyHash, tenant: string, namespace: string, value: string, now: nat)
    requires Sound(e, pair, entries, rules) && Lists(addsOrder, e.rules.adds)
    ensures var point := LookupKey(e, pair, AclKey(tenant, namespace, hash(tenant, namespace, value)), now);
      var check := EdgeChecks.EdgeCheck(e, pair, addsOrder, hash, tenant, namespace, value, now);
      if point.Denied? then check == point
      else VerdictOf(check, Contenders(LiveRules(e.rules, rules), tenant, namespace, value, now)
                            + Contenders(Replaced(e.rules, rules), tenant, namespace, value, now))
  {
    EdgeVerdict(e.rules, rules, addsOrder, tenant, namespace, value, now);
    hide VerdictOf, Lists, Contenders, EdgeBest, LiveRules, Replaced, LookupKey, OverlayOf;
  }
}
