/** check at the edge (ActiveState::check in crates/globacl-core/src/lib/active_state.rs) against check at
    the source, along an edge's life: when they agree, and what a compaction of the overlay changes. */
module EdgeChecks {
  import opened Domain
  import opened SourceSpec
  import opened Replay
  import opened NegativeFilter
  import opened EdgeBase
  import opened ActiveState
  import opened EdgeRefinement
  import RuleIndex

  // ActiveState::check; addsOrder is the order of its rule overlay
  function EdgeCheck(e: Edge, pair: KeyPair, addsOrder: seq<RuleEntry>, hash: KeyHash,
                     tenant: string, namespace: string, value: string, now: nat): Decision
    requires e.Shaped()
  {
    var point := LookupKey(e, pair, AclKey(tenant, namespace, hash(tenant, namespace, value)), now);
    if point.Denied? then point
    else RuleIndex.Verdict(RuleIndex.EdgeBest(e.rules, addsOrder, tenant, namespace, value, now))
  }

  // SourceOfTruth::check; order is the order of its rule table
  function SourceCheck(src: Source, order: seq<RuleEntry>, hash: KeyHash,
                       tenant: string, namespace: string, value: string, now: nat): Decision {
    var point := Lookup(src, hash, tenant, namespace, value, now);
    if point.Denied? then point
    else RuleIndex.Verdict(RuleIndex.ScanBest(order, tenant, namespace, value, now))
  }

  /** A check at the edge gives the verdict, priority and sequence number of the source's check if and
      only if the point lookup already denies or no replaced rule shows through. */
  lemma EdgeCheckAgreesIff(
    e: Edge, pair: KeyPair, entries: map<AclKey, DenyEntry>, rules: map<RuleKey, RuleEntry>, logs: seq<seq<Mutation>>,
    src: Source, addsOrder: seq<RuleEntry>, order: seq<RuleEntry>,
    hash: KeyHash, tenant: string, namespace: string, value: string, now: nat)
    requires Tracks(e, pair, entries, rules, logs) && Within(src.watermarks, logs) && src.watermarks == e.watermarks
    requires Represents(src.entries, src.rules, logs, src.watermarks)
    requires RuleIndex.Lists(addsOrder, e.rules.adds) && RuleIndex.Lists(order, src.rules)
    ensures RuleIndex.SameVerdict(EdgeCheck(e, pair, addsOrder, hash, tenant, namespace, value, now),
                                  SourceCheck(src, order, hash, tenant, namespace, value, now))
      <==> (|| Lookup(src, hash, tenant, namespace, value, now).Denied?
            || !RuleIndex.ShowsThrough(e.rules, rules, tenant, namespace, value, now))
  {
    var k := AclKey(tenant, namespace, hash(tenant, namespace, value));
    LookupReadsContents(e, pair, entries, rules, k, now);
    WatermarksDetermineTables(Contents(e, entries), RuleIndex.LiveRules(e.rules, rules), src.entries, src.rules,
                              logs, e.watermarks);
    hide Holds, LookupKey, Represents, RuleIndex.Lists, RuleIndex.EdgeBest, RuleIndex.ScanBest, RuleIndex.ShowsThrough;
    RuleIndex.CheckAgreesIff(e.rules, rules, addsOrder, order, tenant, namespace, value, now);
  }

  // ---------- along a life ----------

  lemma ValuesAgree(a: map<RuleKey, RuleEntry>, b: map<RuleKey, RuleEntry>)
    requires RuleIndex.Keyed(a) && RuleIndex.Keyed(b) && a.Values == b.Values
    ensures a == b
  {
    forall k
      ensures Get(a, k) == Get(b, k)
    {
      if k in a {
        assert a[k] in b.Values;
      }
      if k in b {
        assert b[k] in a.Values;
      }
    }
    MapsEqualByGet(a, b);
  }

  /** The table that the index of an edge holds is read off the index. */
  lemma BaseUnique(o: RuleIndex.Overlay, a: map<RuleKey, RuleEntry>, b: map<RuleKey, RuleEntry>)
    requires RuleIndex.OverlayOf(o, a) && RuleIndex.OverlayOf(o, b)
    ensures a == b
  {
    forall r: RuleEntry
      ensures r in a.Values <==> r in b.Values
    {
      InIndexIffFiled(o.base, a.Values, r);
      InIndexIffFiled(o.base, b.Values, r);
    }
    hide RuleIndex.Files;
    assert a.Values == b.Values;
    ValuesAgree(a, b);
  }

  /** A rule that the overlay has replaced shows through in a check of the edge. */
  ghost predicate StaleRuleShows(e: Edge, tenant: string, namespace: string, value: string, now: nat) {
    exists base :: RuleIndex.OverlayOf(e.rules, base) && RuleIndex.ShowsThrough(e.rules, base, tenant, namespace, value, now)
  }

  lemma StaleIffShows(e: Edge, base: map<RuleKey, RuleEntry>, tenant: string, namespace: string, value: string, now: nat)
    requires RuleIndex.OverlayOf(e.rules, base)
    ensures StaleRuleShows(e, tenant, namespace, value, now)
       <==> RuleIndex.ShowsThrough(e.rules, base, tenant, namespace, value, now)
  {
    if StaleRuleShows(e, tenant, namespace, value, now) {
      var other :| RuleIndex.OverlayOf(e.rules, other)
                   && RuleIndex.ShowsThrough(e.rules, other, tenant, namespace, value, now);
      BaseUnique(e.rules, base, other);
    }
  }

  /** At any point of any life the edge's check gives the verdict, priority and sequence number of a
      source that replayed, in any interleaving, each shard up to the edge's watermark, if and only if
      the point lookup already denies or no replaced rule shows through. */
  lemma CheckAgreesThroughoutIff(
    states: seq<Edge>, events: seq<Event>, pair: KeyPair, logs: seq<seq<Mutation>>, snap: Snapshot, i: nat,
    src: Source, addsOrder: seq<RuleEntry>, order: seq<RuleEntry>,
    hash: KeyHash, tenant: string, namespace: string, value: string, now: nat)
    requires Life(states, events, pair, logs, snap) && i < |states| && |logs| > 0
    requires Within(states[i].watermarks, logs) && src.watermarks == states[i].watermarks
    requires Represents(src.entries, src.rules, logs, src.watermarks)
    requires RuleIndex.Lists(addsOrder, states[i].rules.adds) && RuleIndex.Lists(order, src.rules)
    ensures states[i].Shaped()
    ensures RuleIndex.SameVerdict(EdgeCheck(states[i], pair, addsOrder, hash, tenant, namespace, value, now),
                                  SourceCheck(src, order, hash, tenant, namespace, value, now))
      <==> (|| Lookup(src, hash, tenant, namespace, value, now).Denied?
            || !StaleRuleShows(states[i], tenant, namespace, value, now))
  {
    UpToDateThroughout(states, events, pair, logs, snap, i);
    var e := states[i];
    var entries, rules :| Tracks(e, pair, entries, rules, logs);
    assert e.Shaped() && RuleIndex.OverlayOf(e.rules, rules);
    hide Life, Represents, Tracks, RuleIndex.OverlayOf, RuleIndex.Lists, RuleIndex.ShowsThrough, StaleRuleShows;
    hide EdgeCheck, SourceCheck;
    StaleIffShows(e, rules, tenant, namespace, value, now);
    EdgeCheckAgreesIff(e, pair, entries, rules, logs, src, addsOrder, order, hash, tenant, namespace, value, now);
  }

  // ---------- what a compaction changes ----------

  // an edge with an empty overlay answers as the scan of its rules
  lemma BareRulesScan(o: RuleIndex.Overlay, base: map<RuleKey, RuleEntry>, order: seq<RuleEntry>,
                      tenant: string, namespace: string, value: string, now: nat)
    requires RuleIndex.OverlayOf(o, base) && o.adds == map[] && o.removes == map[] && RuleIndex.Lists(order, base)
    ensures RuleIndex.SameVerdict(RuleIndex.Verdict(RuleIndex.EdgeBest(o, [], tenant, namespace, value, now)),
                                  RuleIndex.Verdict(RuleIndex.ScanBest(order, tenant, namespace, value, now)))
  {
    assert RuleIndex.LiveRules(o, base) == base;
    assert RuleIndex.Lists([], o.adds);
    hide RuleIndex.OverlayOf, RuleIndex.Lists, RuleIndex.EdgeBest, RuleIndex.ScanBest, RuleIndex.LiveRules;
    RuleIndex.CheckAgreesWithoutOverride(o, base, [], order, tenant, namespace, value, now);
  }

  /** Compacting the overlay drops the replaced rules that show through, so a check before and one after
      agree if and only if the point lookup denies or no replaced rule showed through. */
  lemma CompactionKeepsCheckIff(
    e: Edge, pair: KeyPair, entries: map<AclKey, DenyEntry>, rules: map<RuleKey, RuleEntry>, orders: Orders,
    hash: KeyHash, tenant: string, namespace: string, value: string, now: nat)
    requires Sound(e, pair, entries, rules) && OrdersOf(orders, e, rules)
    ensures AllIn(e.base.entries, e.base.symbols)
    ensures RuleIndex.AllIndexable(MaterializedRules(e.rules, orders.baseRules, orders.ruleAdds))
    ensures var f := Compacted(e, pair, orders);
      && f.Shaped() && !StaleRuleShows(f, tenant, namespace, value, now)
      && (RuleIndex.SameVerdict(EdgeCheck(e, pair, orders.ruleAdds, hash, tenant, namespace, value, now),
                                EdgeCheck(f, pair, [], hash, tenant, namespace, value, now))
          <==> (|| LookupKey(e, pair, AclKey(tenant, namespace, hash(tenant, namespace, value)), now).Denied?
                || !StaleRuleShows(e, tenant, namespace, value, now)))
  {
    CompactionPreserves(e, pair, entries, rules, orders);
    CompactedRules(e, pair, entries, rules, orders);
    var k := AclKey(tenant, namespace, hash(tenant, namespace, value));
    CompactionKeepsLookups(e, pair, entries, rules, orders, k, now);
    assert RuleIndex.OverlayOf(e.rules, rules) && e.Shaped();
    var f := Compacted(e, pair, orders);
    hide Sound, Compacted, OrdersOf, RuleIndex.OverlayOf, StaleRuleShows, LookupKey, AllIn, RuleIndex.AllIndexable;
    hide RuleIndex.EdgeBest, RuleIndex.Verdict, RuleIndex.SameVerdict, RuleIndex.LiveRules, Contents, StandsFor;
    RulesAgreeIff(e, f, entries, rules, pair, orders, tenant, namespace, value, now);
    PointThenRules(LookupKey(e, pair, k, now),
                   RuleIndex.Verdict(RuleIndex.EdgeBest(e.rules, orders.ruleAdds, tenant, namespace, value, now)),
                   RuleIndex.Verdict(RuleIndex.EdgeBest(f.rules, [], tenant, namespace, value, now)));
  }

  // a point lookup that denies decides; otherwise the rules do
  lemma PointThenRules(point: Decision, a: Decision, b: Decision)
    ensures RuleIndex.SameVerdict(if point.Denied? then point else a, if point.Denied? then point else b)
       <==> point.Denied? || RuleIndex.SameVerdict(a, b)
  {
  }

  // the rule part of a check before a compaction and of one after it
  lemma RulesAgreeIff(e: Edge, f: Edge, entries: map<AclKey, DenyEntry>, rules: map<RuleKey, RuleEntry>, pair: KeyPair,
                      orders: Orders, tenant: string, namespace: string, value: string, now: nat)
    requires Sound(e, pair, entries, rules) && OrdersOf(orders, e, rules)
    requires f.rules.adds == map[] && f.rules.removes == map[]
    requires RuleIndex.OverlayOf(f.rules, RuleIndex.LiveRules(e.rules, rules))
    ensures !StaleRuleShows(f, tenant, namespace, value, now)
    ensures e.rules.base.Valid() && f.rules.base.Valid()
    ensures RuleIndex.SameVerdict(
              RuleIndex.Verdict(RuleIndex.EdgeBest(e.rules, orders.ruleAdds, tenant, namespace, value, now)),
              RuleIndex.Verdict(RuleIndex.EdgeBest(f.rules, [], tenant, namespace, value, now)))
       <==> !StaleRuleShows(e, tenant, namespace, value, now)
  {
    var live := RuleIndex.LiveRules(e.rules, rules);
    var order := MaterializedRules(e.rules, orders.baseRules, orders.ruleAdds);
    MaterializedRulesList(e.rules, rules, orders.baseRules, orders.ruleAdds);
    NothingShows(f.rules, live, tenant, namespace, value, now);
    assert RuleIndex.OverlayOf(e.rules, rules) && RuleIndex.Lists(orders.ruleAdds, e.rules.adds);
    assert e.rules.base.Valid() && f.rules.base.Valid();
    hide Sound, OrdersOf, RuleIndex.OverlayOf, RuleIndex.Lists, RuleIndex.LiveRules, RuleIndex.ShowsThrough, StaleRuleShows;
    hide MaterializedRules, RuleIndex.EdgeBest, RuleIndex.ScanBest, RuleIndex.Verdict, RuleIndex.AllIndexable;
    RuleIndex.CheckAgreesIff(e.rules, rules, orders.ruleAdds, order, tenant, namespace, value, now);
    BareRulesScan(f.rules, live, order, tenant, namespace, value, now);
    StaleIffShows(e, rules, tenant, namespace, value, now);
    StaleIffShows(f, live, tenant, namespace, value, now);
  }

  // after a compaction the index holds the live rules and the overlay is empty
  lemma CompactedRules(e: Edge, pair: KeyPair, entries: map<AclKey, DenyEntry>, rules: map<RuleKey, RuleEntry>,
                       orders: Orders)
    requires Sound(e, pair, entries, rules) && OrdersOf(orders, e, rules)
    requires AllIn(e.base.entries, e.base.symbols)
    requires RuleIndex.AllIndexable(MaterializedRules(e.rules, orders.baseRules, orders.ruleAdds))
    ensures var f := Compacted(e, pair, orders);
      f.rules.adds == map[] && f.rules.removes == map[] && RuleIndex.OverlayOf(f.rules, RuleIndex.LiveRules(e.rules, rules))
  {
    CompactionPreserves(e, pair, entries, rules, orders);
    hide Holds, RuleIndex.Files, RuleIndex.Compile, BuildBase, MaterializedRules, Materialized, OrdersOf;
  }

  lemma NothingShows(o: RuleIndex.Overlay, base: map<RuleKey, RuleEntry>,
                     tenant: string, namespace: string, value: string, now: nat)
    requires o.adds == map[]
    ensures !RuleIndex.ShowsThrough(o, base, tenant, namespace, value, now)
  {
    assert RuleIndex.Replaced(o, base) == map[];
  }

  /** The same for a compaction anywhere in a life. */
  lemma CompactionInLifeIff(
    states: seq<Edge>, events: seq<Event>, pair: KeyPair, logs: seq<seq<Mutation>>, snap: Snapshot, i: nat,
    hash: KeyHash, tenant: string, namespace: string, value: string, now: nat)
    requires Life(states, events, pair, logs, snap) && i < |events| && events[i].CompactOverlay?
    ensures var e, f := states[i], states[i + 1];
      && e.Shaped() && f.Shaped() && !StaleRuleShows(f, tenant, namespace, value, now)
      && (RuleIndex.SameVerdict(EdgeCheck(e, pair, events[i].orders.ruleAdds, hash, tenant, namespace, value, now),
                                EdgeCheck(f, pair, [], hash, tenant, namespace, value, now))
          <==> (|| LookupKey(e, pair, AclKey(tenant, namespace, hash(tenant, namespace, value)), now).Denied?
                || !StaleRuleShows(e, tenant, namespace, value, now)))
  {
    UpToDateThroughout(states, events, pair, logs, snap, i);
    var e := states[i];
    var entries, rules :| Tracks(e, pair, entries, rules, logs);
    assert Possible(e, events[i], logs) && states[i + 1] == After(e, pair, events[i], logs);
    hide Life, Represents, Sound, PossibleOrders, OrdersOf, Compacted, StaleRuleShows, EdgeCheck, LookupKey;
    PossibleOrdersFit(events[i].orders, e, pair, entries, rules);
    CompactionKeepsCheckIff(e, pair, entries, rules, events[i].orders, hash, tenant, namespace, value, now);
  }
}
