/** The edge's table: an immutable base and a delta overlay (ActiveState in
    crates/globacl-core/src/lib/active_state.rs), as a value with its operations, and as the class
    that updates it in place. */
module ActiveState {
  import opened Domain
  import opened SourceSpec
  import opened NegativeFilter
  import opened EdgeBase
  import RuleIndex
  import opened RulePatterns

  datatype Edge = Edge(
    shardCount: nat,
    base: Base,
    adds: map<AclKey, DenyEntry>,
    removes: map<AclKey, nat>,
    rules: RuleIndex.Overlay,
    watermarks: seq<nat>)
  {
    predicate Shaped() {
      |watermarks| == shardCount && base.filter.Valid() && rules.base.Valid()
    }
  }

  // the overlay part of apply_mutation
  function Overlaid(e: Edge, m: Mutation): Edge {
    match m.rule
    case Some(rule) =>
      var k := rule.Key();
      if rule.action == Delete then
        e.(rules := e.rules.(adds := e.rules.adds - {k}, removes := e.rules.removes[k := m.commitId.seqNo]))
      else
        e.(rules := e.rules.(adds := e.rules.adds[k := rule], removes := e.rules.removes - {k}))
    case None =>
      var k := m.entry.Key();
      if m.entry.action == Delete then e.(adds := e.adds - {k}, removes := e.removes[k := m.commitId.seqNo])
      else e.(adds := e.adds[k := m.entry], removes := e.removes - {k})
  }

  // apply_mutation
  function Apply(e: Edge, m: Mutation): (r: Result<(Edge, ApplyStatus)>)
    requires e.Shaped()
    ensures r.Ok? ==> r.value.0.Shaped()
  {
    var shard, seqNo := m.commitId.shardId, m.commitId.seqNo;
    if shard >= e.shardCount then Err(InvalidData)
    else if seqNo <= e.watermarks[shard] then Ok((e, DuplicateOrOld))
    else if seqNo != e.watermarks[shard] + 1 then Err(Gap(shard, e.watermarks[shard] + 1, seqNo))
    else Ok((Overlaid(e, m).(watermarks := e.watermarks[shard := seqNo]), Applied))
  }

  // lookup, once the key is hashed
  function LookupKey(e: Edge, pair: KeyPair, k: AclKey, now: nat): Decision
    requires e.Shaped()
  {
    if (e.adds != map[] || e.removes != map[]) && k in e.adds then DecisionForEntry(Some(e.adds[k]), now)
    else if (e.adds != map[] || e.removes != map[]) && k in e.removes then Allow
    else DecisionForParts(e.base, pair, k, now)
  }

  // materialized_entries of the base
  function Expanded(b: Base): (es: seq<DenyEntry>)
    requires AllIn(b.entries, b.symbols)
    ensures |es| == |b.entries| && forall i :: 0 <= i < |es| ==> es[i] == b.entries[i].Expand(b.symbols)
  {
    seq(|b.entries|, i requires 0 <= i < |b.entries| => b.entries[i].Expand(b.symbols))
  }

  function Uncovered(es: seq<DenyEntry>, hidden: set<AclKey>): seq<DenyEntry> {
    if es == [] then []
    else Uncovered(es[..|es| - 1], hidden)
         + (if es[|es| - 1].Key() in hidden then [] else [es[|es| - 1]])
  }

  // materialized_entries; addsOrder is the order in which the hash map yields the overlay's entries
  function Materialized(e: Edge, addsOrder: seq<DenyEntry>): seq<DenyEntry>
    requires AllIn(e.base.entries, e.base.symbols)
  {
    Uncovered(Expanded(e.base), e.removes.Keys + e.adds.Keys) + addsOrder
  }

  function UncoveredRules(rules: seq<RuleEntry>, hidden: set<RuleKey>): seq<RuleEntry> {
    if rules == [] then []
    else UncoveredRules(rules[..|rules| - 1], hidden)
         + (if rules[|rules| - 1].Key() in hidden then [] else [rules[|rules| - 1]])
  }

  // materialized_rules; baseOrder is the order in which all_rules yields the index's rules
  function MaterializedRules(o: RuleIndex.Overlay, baseOrder: seq<RuleEntry>, addsOrder: seq<RuleEntry>): seq<RuleEntry> {
    UncoveredRules(baseOrder, o.removes.Keys + o.adds.Keys) + addsOrder
  }

  /** The orders in which the hash maps of an edge happen to yield their values. */
  datatype Orders = Orders(adds: seq<DenyEntry>, baseRules: seq<RuleEntry>, ruleAdds: seq<RuleEntry>)

  // compact_delta_overlay
  function Compacted(e: Edge, pair: KeyPair, orders: Orders): Edge
    requires AllIn(e.base.entries, e.base.symbols)
    requires RuleIndex.AllIndexable(MaterializedRules(e.rules, orders.baseRules, orders.ruleAdds))
  {
    if e.adds == map[] && e.removes == map[] && e.rules.adds == map[] && e.rules.removes == map[] then e
    else
      var rules := MaterializedRules(e.rules, orders.baseRules, orders.ruleAdds);
      Edge(e.shardCount, BuildBase(Materialized(e, orders.adds), pair), map[], map[],
           RuleIndex.Overlay(RuleIndex.Compile(rules), map[], map[]), e.watermarks)
  }

  // from_snapshot
  function FromSnapshot(snap: Snapshot, pair: KeyPair): Edge
    requires RuleIndex.AllIndexable(snap.rules)
  {
    Edge(snap.shardCount, BuildBase(snap.entries, pair), map[], map[],
         RuleIndex.Overlay(RuleIndex.Compile(snap.rules), map[], map[]), snap.watermarks)
  }

  // ---------- what an edge stands for ----------

  predicate KeyedRules(table: map<RuleKey, RuleEntry>) {
    RuleIndex.Keyed(table) && forall k :: k in table ==> table[k].action != Delete
  }

  /** The base holds the table `entries` and the rule index holds the table `rules`; the overlay's
      additions and removals are disjoint. */
  ghost predicate Sound(e: Edge, pair: KeyPair, entries: map<AclKey, DenyEntry>, rules: map<RuleKey, RuleEntry>) {
    && e.Shaped()
    && Holds(e.base, pair, entries) && |e.base.entries| == |entries| && Keyed(entries)
    && Keyed(e.adds) && e.adds.Keys !! e.removes.Keys
    && RuleIndex.OverlayOf(e.rules, rules) && KeyedRules(rules) && KeyedRules(e.rules.adds)
  }

  // the entries a snapshot of the edge would hold
  function Contents(e: Edge, entries: map<AclKey, DenyEntry>): map<AclKey, DenyEntry> {
    (entries - e.removes.Keys) + e.adds
  }

  /** The overlay shadows the base: a lookup is a lookup in the contents. */
  lemma LookupReadsContents(e: Edge, pair: KeyPair, entries: map<AclKey, DenyEntry>, rules: map<RuleKey, RuleEntry>,
                            k: AclKey, now: nat)
    requires Sound(e, pair, entries, rules)
    ensures LookupKey(e, pair, k, now) == DecisionForEntry(Get(Contents(e, entries), k), now)
  {
    DecisionAnswers(e.base, pair, entries, k, now);
    hide Holds, RuleIndex.OverlayOf, DecisionForParts;
  }

  // ---------- materialising ----------

  predicate Unique(es: seq<DenyEntry>) {
    forall i, j :: 0 <= i < j < |es| ==> es[i].Key() != es[j].Key()
  }

  lemma {:induction false} UniqueKeys(es: seq<DenyEntry>)
    ensures |KeysOf(es)| <= |es|
    ensures |KeysOf(es)| == |es| <==> Unique(es)
  {
    if es == [] {
      assert KeysOf(es) == {};
    } else {
      var init, last := es[..|es| - 1], es[|es| - 1];
      UniqueKeys(init);
      KeysOfPush(init, last);
      UniquePush(init, last);
      assert es == init + [last];
      hide KeysOf, Unique;
    }
  }

  lemma KeysOfPush(es: seq<DenyEntry>, e: DenyEntry)
    ensures KeysOf(es + [e]) == KeysOf(es) + {e.Key()}
  {
  }

  lemma UniquePush(es: seq<DenyEntry>, e: DenyEntry)
    ensures Unique(es + [e]) <==> Unique(es) && e.Key() !in KeysOf(es)
  {
    if Unique(es + [e]) {
      forall i, j | 0 <= i < j < |es|
        ensures es[i].Key() != es[j].Key()
      {
        assert (es + [e])[i].Key() != (es + [e])[j].Key();
      }
      forall x | x in es
        ensures x.Key() != e.Key()
      {
        var i :| 0 <= i < |es| && es[i] == x;
        assert (es + [e])[i].Key() != (es + [e])[|es|].Key();
      }
    } else if Unique(es) {
      var i, j :| 0 <= i < j < |es + [e]| && (es + [e])[i].Key() == (es + [e])[j].Key();
      assert j == |es| && es[i] in es;
    }
  }

  /** A listing of a table without repeated keys is as long as the table is large. */
  lemma UniqueListing(es: seq<DenyEntry>, table: map<AclKey, DenyEntry>)
    requires Lists(es, table) && Keyed(table)
    ensures Unique(es) <==> |es| == |table|
  {
    UniqueKeys(es);
    assert forall k :: k in table ==> table[k] in es;
    assert KeysOf(es) == table.Keys;
    assert |table.Keys| == |table|;
  }

  lemma ExpandedLists(b: Base, pair: KeyPair, table: map<AclKey, DenyEntry>)
    requires Holds(b, pair, table) && Keyed(table)
    ensures Lists(Expanded(b), table)
  {
    hide StableSort.Ordered, MayContain, PairOf;
    forall e: DenyEntry
      ensures e in Expanded(b) <==> e.Key() in table && table[e.Key()] == e
    {
      if e in Expanded(b) {
        var i :| 0 <= i < |b.entries| && Expanded(b)[i] == e;
        assert Filed(b, pair, table, b.entries[i]);
      }
      if e.Key() in table && table[e.Key()] == e {
        var i := FiledUnder(b, pair, table, e.Key());
        assert Expanded(b)[i] == e;
      }
    }
  }

  lemma {:induction false} UncoveredMembers(es: seq<DenyEntry>, hidden: set<AclKey>, e: DenyEntry)
    ensures e in Uncovered(es, hidden) <==> e in es && e.Key() !in hidden
  {
    if es != [] {
      UncoveredMembers(es[..|es| - 1], hidden, e);
      assert es == es[..|es| - 1] + [es[|es| - 1]];
    }
  }

  lemma {:induction false} UncoveredUnique(es: seq<DenyEntry>, hidden: set<AclKey>)
    requires Unique(es)
    ensures Unique(Uncovered(es, hidden))
  {
    if es != [] {
      var init, last := es[..|es| - 1], es[|es| - 1];
      UncoveredUnique(init, hidden);
      var kept := Uncovered(init, hidden);
      forall i | 0 <= i < |kept|
        ensures kept[i].Key() != last.Key()
      {
        UncoveredMembers(init, hidden, kept[i]);
        var j :| 0 <= j < |init| && init[j] == kept[i];
        assert es[j].Key() != es[|es| - 1].Key();
      }
    }
  }

  // the base's part of the snapshot
  lemma KeptMembers(e: Edge, pair: KeyPair, entries: map<AclKey, DenyEntry>, x: DenyEntry)
    requires Holds(e.base, pair, entries) && Keyed(entries)
    ensures x in Uncovered(Expanded(e.base), e.removes.Keys + e.adds.Keys)
       <==> x.Key() in entries && entries[x.Key()] == x && x.Key() !in e.removes && x.Key() !in e.adds
  {
    ExpandedLists(e.base, pair, entries);
    UncoveredMembers(Expanded(e.base), e.removes.Keys + e.adds.Keys, x);
    hide Holds, Uncovered;
  }

  lemma KeptLists(e: Edge, pair: KeyPair, entries: map<AclKey, DenyEntry>, addsOrder: seq<DenyEntry>)
    requires Holds(e.base, pair, entries) && Keyed(entries) && Keyed(e.adds) && Lists(addsOrder, e.adds)
    ensures Lists(Materialized(e, addsOrder), Contents(e, entries))
  {
    var table := Contents(e, entries);
    var kept := Uncovered(Expanded(e.base), e.removes.Keys + e.adds.Keys);
    forall x: DenyEntry
      ensures x in kept + addsOrder <==> x.Key() in table && table[x.Key()] == x
    {
      KeptMembers(e, pair, entries, x);
    }
    hide Holds, Uncovered;
  }

  lemma UniqueConcat(a: seq<DenyEntry>, b: seq<DenyEntry>)
    requires Unique(a) && Unique(b) && forall x, y :: x in a && y in b ==> x.Key() != y.Key()
    ensures Unique(a + b)
  {
    forall i, j | 0 <= i < j < |a + b|
      ensures (a + b)[i].Key() != (a + b)[j].Key()
    {
      if i < |a| <= j {
        assert (a + b)[i] in a && (a + b)[j] in b;
      }
    }
  }

  lemma MaterializedUnique(e: Edge, pair: KeyPair, entries: map<AclKey, DenyEntry>, addsOrder: seq<DenyEntry>)
    requires Holds(e.base, pair, entries) && Keyed(entries) && |e.base.entries| == |entries|
    requires Keyed(e.adds) && Lists(addsOrder, e.adds) && Unique(addsOrder)
    ensures Unique(Materialized(e, addsOrder))
  {
    ExpandedLists(e.base, pair, entries);
    UniqueListing(Expanded(e.base), entries);
    UncoveredUnique(Expanded(e.base), e.removes.Keys + e.adds.Keys);
    var kept := Uncovered(Expanded(e.base), e.removes.Keys + e.adds.Keys);
    hide Uncovered, Unique;
    forall x, y | x in kept && y in addsOrder
      ensures x.Key() != y.Key()
    {
      KeptMembers(e, pair, entries, x);
    }
    UniqueConcat(kept, addsOrder);
    hide Holds;
  }

  /** A snapshot of the edge lists its contents, every key once. */
  lemma MaterializedLists(e: Edge, pair: KeyPair, entries: map<AclKey, DenyEntry>, rules: map<RuleKey, RuleEntry>,
                          addsOrder: seq<DenyEntry>)
    requires Sound(e, pair, entries, rules) && Lists(addsOrder, e.adds)
    ensures Lists(Materialized(e, addsOrder), Contents(e, entries))
    ensures Unique(addsOrder) ==> |Materialized(e, addsOrder)| == |Contents(e, entries)|
  {
    KeptLists(e, pair, entries, addsOrder);
    if Unique(addsOrder) {
      MaterializedUnique(e, pair, entries, addsOrder);
      hide Holds, Lists, Unique, Materialized, RuleIndex.OverlayOf;
      UniqueListing(Materialized(e, addsOrder), Contents(e, entries));
    }
  }

  lemma {:induction false} UncoveredRuleMembers(rules: seq<RuleEntry>, hidden: set<RuleKey>, r: RuleEntry)
    ensures r in UncoveredRules(rules, hidden) <==> r in rules && r.Key() !in hidden
  {
    if rules != [] {
      UncoveredRuleMembers(rules[..|rules| - 1], hidden, r);
      assert rules == rules[..|rules| - 1] + [rules[|rules| - 1]];
    }
  }

  // the orders that the hash maps of an edge may yield
  ghost predicate OrdersOf(orders: Orders, e: Edge, rules: map<RuleKey, RuleEntry>) {
    && Lists(orders.adds, e.adds) && Unique(orders.adds)
    && RuleIndex.Lists(orders.baseRules, rules) && RuleIndex.Lists(orders.ruleAdds, e.rules.adds)
  }

  lemma MaterializedRulesList(o: RuleIndex.Overlay, rules: map<RuleKey, RuleEntry>,
                              baseOrder: seq<RuleEntry>, addsOrder: seq<RuleEntry>)
    requires RuleIndex.Keyed(rules) && RuleIndex.Keyed(o.adds)
    requires RuleIndex.Lists(baseOrder, rules) && RuleIndex.Lists(addsOrder, o.adds)
    ensures var all := MaterializedRules(o, baseOrder, addsOrder);
      RuleIndex.Lists(all, RuleIndex.LiveRules(o, rules)) && RuleIndex.AllIndexable(all)
  {
    var hidden := o.removes.Keys + o.adds.Keys;
    var kept := UncoveredRules(baseOrder, hidden);
    var live := RuleIndex.LiveRules(o, rules);
    forall r: RuleEntry
      ensures r in kept + addsOrder <==> r.Key() in live && live[r.Key()] == r
    {
      UncoveredRuleMembers(baseOrder, hidden, r);
    }
    forall i | 0 <= i < |kept + addsOrder|
      ensures Indexable((kept + addsOrder)[i])
    {
      assert (kept + addsOrder)[i] in kept + addsOrder;
    }
  }

  // ---------- compaction ----------

  lemma CompiledHolds(rules: seq<RuleEntry>, table: map<RuleKey, RuleEntry>)
    requires RuleIndex.AllIndexable(rules) && RuleIndex.Lists(rules, table) && KeyedRules(table)
    ensures RuleIndex.Files(RuleIndex.Compile(rules), table.Values)
  {
    RuleIndex.CompileFiles(rules);
    assert RuleIndex.Kept(rules) == table.Values by {
      forall r
        ensures r in RuleIndex.Kept(rules) <==> r in table.Values
      {
        if r in table.Values {
          var k :| k in table && table[k] == r;
          assert r.Key() == k;
        }
      }
    }
  }

  /** A base and an index built from listings of two tables, under an empty overlay, are sound. */
  lemma BuiltSound(n: nat, es: seq<DenyEntry>, rs: seq<RuleEntry>, watermarks: seq<nat>, pair: KeyPair,
                   entries: map<AclKey, DenyEntry>, rules: map<RuleKey, RuleEntry>)
    requires |watermarks| == n
    requires Lists(es, entries) && Keyed(entries)
    requires RuleIndex.AllIndexable(rs) && RuleIndex.Lists(rs, rules) && KeyedRules(rules)
    ensures Sound(Edge(n, BuildBase(es, pair), map[], map[], RuleIndex.Overlay(RuleIndex.Compile(rs), map[], map[]), watermarks),
                  pair, entries, rules)
  {
    BuildHolds(es, pair);
    ListedTable(es, entries);
    CompiledHolds(rs, rules);
    hide *;
    BareSound(n, BuildBase(es, pair), RuleIndex.Compile(rs), watermarks, pair, entries, rules);
  }

  lemma BareSound(n: nat, b: Base, c: RuleIndex.Compiled, watermarks: seq<nat>, pair: KeyPair,
                  entries: map<AclKey, DenyEntry>, rules: map<RuleKey, RuleEntry>)
    requires |watermarks| == n && Holds(b, pair, entries) && |b.entries| == |entries| && Keyed(entries)
    requires RuleIndex.Files(c, rules.Values) && KeyedRules(rules)
    ensures Sound(Edge(n, b, map[], map[], RuleIndex.Overlay(c, map[], map[]), watermarks), pair, entries, rules)
  {
    assert c.Valid();
    hide Holds, RuleIndex.Files;
  }

  /** f stands for the tables live and liveRules, all of them in its base. */
  ghost predicate StandsFor(f: Edge, pair: KeyPair, live: map<AclKey, DenyEntry>, liveRules: map<RuleKey, RuleEntry>) {
    Sound(f, pair, live, liveRules) && Contents(f, live) == live && RuleIndex.LiveRules(f.rules, liveRules) == liveRules
  }

  lemma NothingOverlaid(e: Edge, entries: map<AclKey, DenyEntry>, rules: map<RuleKey, RuleEntry>)
    requires e.adds == map[] && e.removes == map[] && e.rules.adds == map[] && e.rules.removes == map[]
    ensures Contents(e, entries) == entries && RuleIndex.LiveRules(e.rules, rules) == rules
  {
  }

  lemma LiveTablesKeyed(e: Edge, entries: map<AclKey, DenyEntry>, rules: map<RuleKey, RuleEntry>)
    requires Keyed(entries) && Keyed(e.adds) && KeyedRules(rules) && KeyedRules(e.rules.adds)
    ensures Keyed(Contents(e, entries)) && KeyedRules(RuleIndex.LiveRules(e.rules, rules))
  {
  }

  /** Compacting the overlay moves the contents into the base and changes nothing that can be seen:
      the contents, the live rules, the watermarks and every lookup stay. */
  lemma CompactionPreserves(e: Edge, pair: KeyPair, entries: map<AclKey, DenyEntry>, rules: map<RuleKey, RuleEntry>,
                            orders: Orders)
    requires Sound(e, pair, entries, rules) && OrdersOf(orders, e, rules)
    ensures AllIn(e.base.entries, e.base.symbols)
    ensures RuleIndex.AllIndexable(MaterializedRules(e.rules, orders.baseRules, orders.ruleAdds))
    ensures var f := Compacted(e, pair, orders);
      && StandsFor(f, pair, Contents(e, entries), RuleIndex.LiveRules(e.rules, rules))
      && f.watermarks == e.watermarks && f.shardCount == e.shardCount
  {
    MaterializedRulesList(e.rules, rules, orders.baseRules, orders.ruleAdds);
    MaterializedLists(e, pair, entries, rules, orders.adds);
    LiveTablesKeyed(e, entries, rules);
    var live, liveRules := Contents(e, entries), RuleIndex.LiveRules(e.rules, rules);
    hide OrdersOf, RuleIndex.Compile, BuildBase, MaterializedRules, Materialized, Lists, RuleIndex.Lists;
    hide Holds, Keyed, KeyedRules, RuleIndex.OverlayOf, RuleIndex.AllIndexable;
    if e.adds == map[] && e.removes == map[] && e.rules.adds == map[] && e.rules.removes == map[] {
      NothingOverlaid(e, entries, rules);
    } else {
      BuiltSound(e.shardCount, Materialized(e, orders.adds), MaterializedRules(e.rules, orders.baseRules, orders.ruleAdds),
                 e.watermarks, pair, live, liveRules);
      NothingOverlaid(Compacted(e, pair, orders), live, liveRules);
    }
  }

  lemma CompactionKeepsLookups(e: Edge, pair: KeyPair, entries: map<AclKey, DenyEntry>, rules: map<RuleKey, RuleEntry>,
                               orders: Orders, k: AclKey, now: nat)
    requires Sound(e, pair, entries, rules) && OrdersOf(orders, e, rules)
    requires AllIn(e.base.entries, e.base.symbols)
    requires RuleIndex.AllIndexable(MaterializedRules(e.rules, orders.baseRules, orders.ruleAdds))
    ensures Compacted(e, pair, orders).Shaped()
    ensures LookupKey(Compacted(e, pair, orders), pair, k, now) == LookupKey(e, pair, k, now)
  {
    CompactionPreserves(e, pair, entries, rules, orders);
    var live, liveRules := Contents(e, entries), RuleIndex.LiveRules(e.rules, rules);
    hide Compacted, Holds, RuleIndex.OverlayOf, LookupKey, Contents, OrdersOf;
    LookupReadsContents(e, pair, entries, rules, k, now);
    LookupReadsContents(Compacted(e, pair, orders), pair, live, liveRules, k, now);
  }

  // ---------- in place ----------

  /** The values of a table in the order that its iterator happens to choose. */
  method ValuesOf(table: map<AclKey, DenyEntry>) returns (es: seq<DenyEntry>)
    requires Keyed(table)
    ensures Lists(es, table) && Unique(es)
  {
    es := [];
    var rest := table.Keys;
    while rest != {}
      invariant rest <= table.Keys && Unique(es)
      invariant forall e :: e in es <==> e.Key() in table && e.Key() !in rest && table[e.Key()] == e
      decreases |rest|
    {
      var k :| k in rest;
      assert forall i :: 0 <= i < |es| ==> es[i] in es;
      es := es + [table[k]];
      rest := rest - {k};
    }
  }

  method RuleValuesOf(table: map<RuleKey, RuleEntry>) returns (rules: seq<RuleEntry>)
    requires RuleIndex.Keyed(table)
    ensures RuleIndex.Lists(rules, table)
  {
    rules := [];
    var rest := table.Keys;
    while rest != {}
      invariant rest <= table.Keys
      invariant forall r :: r in rules <==> r.Key() in table && r.Key() !in rest && table[r.Key()] == r
      decreases |rest|
    {
      var k :| k in rest;
      rules := rules + [table[k]];
      rest := rest - {k};
    }
  }

  ghost predicate InSome<K(!new)>(m: RuleIndex.Buckets<K>, r: RuleEntry) {
    exists k :: r in RuleIndex.Bucket(m, k)
  }

  method BucketRules<K(!new)>(m: RuleIndex.Buckets<K>) returns (rules: seq<RuleEntry>)
    ensures forall r :: r in rules <==> InSome(m, r)
  {
    rules := [];
    var rest := m.Keys;
    while rest != {}
      invariant rest <= m.Keys
      invariant forall r :: r in rules <==> exists k :: k !in rest && r in RuleIndex.Bucket(m, k)
      decreases |rest|
    {
      var k :| k in rest;
      ghost var before, was := rules, rest;
      rules := rules + m[k];
      rest := rest - {k};
      forall r
        ensures r in rules <==> exists j :: j !in rest && r in RuleIndex.Bucket(m, j)
      {
        assert r in rules <==> r in before || r in RuleIndex.Bucket(m, k);
        if r in before {
          var j :| j !in was && r in RuleIndex.Bucket(m, j);
          assert j !in rest;
        }
      }
    }
  }

  // all_rules
  method AllRules(c: RuleIndex.Compiled, ghost table: map<RuleKey, RuleEntry>) returns (rules: seq<RuleEntry>)
    requires RuleIndex.Files(c, table.Values) && RuleIndex.Keyed(table)
    ensures RuleIndex.Lists(rules, table)
  {
    rules := [];
    for p := 0 to 33
      invariant forall r :: r in rules <==> r in table.Values && r.kind == Ipv4Cidr && r.ipv4PrefixLen < p
    {
      var more := BucketRules(c.ipv4[p]);
      forall r
        ensures r in more <==> r in table.Values && r.kind == Ipv4Cidr && r.ipv4PrefixLen == p
      {
        assert r in RuleIndex.Bucket(c.ipv4[p], (r.tenantId, r.ipv4Network)) <==>
               r in table.Values && RuleIndex.InV4Bucket(r, p, (r.tenantId, r.ipv4Network));
      }
      rules := rules + more;
    }
    var more := BucketRules(c.domains);
    forall r
      ensures r in more <==> r in table.Values && r.kind == DomainSuffix
    {
      assert r in RuleIndex.Bucket(c.domains, (r.tenantId, r.domainSuffix)) <==>
             r in table.Values && RuleIndex.InDomainBucket(r, (r.tenantId, r.domainSuffix));
    }
    rules := rules + more;
    forall r: RuleEntry
      ensures r in rules <==> r.Key() in table && table[r.Key()] == r
    {
      ValueUnderKey(table, r);
    }
  }

  lemma ValueUnderKey(table: map<RuleKey, RuleEntry>, r: RuleEntry)
    requires RuleIndex.Keyed(table)
    ensures r in table.Values <==> r.Key() in table && table[r.Key()] == r
    ensures r in table.Values ==> Indexable(r)
  {
  }

  class ActiveState {
    const shardCount: nat
    var base: Base
    var adds: map<AclKey, DenyEntry>
    var removes: map<AclKey, nat>
    var ruleBase: RuleIndex.Compiled
    var ruleAdds: map<RuleKey, RuleEntry>
    var ruleRemoves: map<RuleKey, nat>
    var watermarks: seq<nat>

    ghost function Value(): Edge
      reads this
    {
      Edge(shardCount, base, adds, removes, RuleIndex.Overlay(ruleBase, ruleAdds, ruleRemoves), watermarks)
    }

    // from_snapshot, for a snapshot that validates
    constructor (snap: Snapshot, pair: KeyPair)
      requires snap.Validates() && RuleIndex.AllIndexable(snap.rules)
      ensures Value() == FromSnapshot(snap, pair)
    {
      var b := FromEntries(snap.entries, pair);
      var c := RuleIndex.CompileRules(snap.rules);
      shardCount, base, ruleBase, watermarks := snap.shardCount, b, c, snap.watermarks;
      adds, removes, ruleAdds, ruleRemoves := map[], map[], map[], map[];
    }

    // apply_mutation
    method ApplyMutation(m: Mutation) returns (r: Result<ApplyStatus>)
      requires Value().Shaped()
      modifies this
      ensures match Apply(old(Value()), m)
        case Ok((value, status)) => r == Ok(status) && Value() == value
        case Err(e) => r == Err(e) && Value() == old(Value())
    {
      var shard := m.commitId.shardId;
      if shard >= shardCount {
        return Err(InvalidData);
      }
      var current := watermarks[shard];
      if m.commitId.seqNo <= current {
        return Ok(DuplicateOrOld);
      }
      if m.commitId.seqNo != current + 1 {
        return Err(Gap(shard, current + 1, m.commitId.seqNo));
      }
      if m.rule.Some? {
        var k := m.rule.value.Key();
        if m.rule.value.action == Delete {
          ruleAdds := ruleAdds - {k};
          ruleRemoves := ruleRemoves[k := m.commitId.seqNo];
        } else {
          ruleRemoves := ruleRemoves - {k};
          ruleAdds := ruleAdds[k := m.rule.value];
        }
      } else {
        var k := m.entry.Key();
        if m.entry.action == Delete {
          adds := adds - {k};
          removes := removes[k := m.commitId.seqNo];
        } else {
          removes := removes - {k};
          adds := adds[k := m.entry];
        }
      }
      watermarks := watermarks[shard := m.commitId.seqNo];
      return Ok(Applied);
    }

    // lookup
    method LookupRaw(pair: KeyPair, hash: KeyHash, tenant: string, namespace: string, rawKey: string, now: nat)
      returns (d: Decision)
      requires Value().Shaped()
      ensures d == LookupKey(Value(), pair, AclKey(tenant, namespace, hash(tenant, namespace, rawKey)), now)
    {
      var k := AclKey(tenant, namespace, hash(tenant, namespace, rawKey));
      if adds != map[] || removes != map[] {
        if k in adds {
          return DecisionForEntry(Some(adds[k]), now);
        }
        if k in removes {
          return Allow;
        }
      }
      return DecisionForParts(base, pair, k, now);
    }

    // entries_len
    method EntriesLen(pair: KeyPair, ghost entries: map<AclKey, DenyEntry>, ghost rules: map<RuleKey, RuleEntry>)
      returns (len: nat)
      requires Sound(Value(), pair, entries, rules)
      ensures len == |Contents(Value(), entries)|
    {
      ContainsKeys(base, pair, entries);
      len := CountKept(base, entries.Keys, removes.Keys, adds.Keys);
      len := CountAdded(base, entries.Keys, removes.Keys, adds.Keys, len);
      hide Holds, RuleIndex.OverlayOf, KeyedRules;
      assert Contents(Value(), entries).Keys == (entries.Keys - removes.Keys) + adds.Keys;
      assert |Contents(Value(), entries)| == |Contents(Value(), entries).Keys|;
    }

    // compact_delta_overlay
    method CompactDeltaOverlay(pair: KeyPair, ghost entries: map<AclKey, DenyEntry>, ghost rules: map<RuleKey, RuleEntry>)
      returns (ghost orders: Orders)
      requires Sound(Value(), pair, entries, rules)
      modifies this
      ensures OrdersOf(orders, old(Value()), rules)
      ensures AllIn(old(base).entries, old(base).symbols)
      ensures RuleIndex.AllIndexable(MaterializedRules(old(Value()).rules, orders.baseRules, orders.ruleAdds))
      ensures Value() == Compacted(old(Value()), pair, orders)
    {
      var after;
      after, orders := CompactValue(Edge(shardCount, base, adds, removes,
                                         RuleIndex.Overlay(ruleBase, ruleAdds, ruleRemoves), watermarks),
                                    pair, entries, rules);
      hide *;
      base, adds, removes := after.base, after.adds, after.removes;
      ruleBase, ruleAdds, ruleRemoves := after.rules.base, after.rules.adds, after.rules.removes;
    }
  }

  method CompactValue(e: Edge, pair: KeyPair, ghost entries: map<AclKey, DenyEntry>, ghost rules: map<RuleKey, RuleEntry>)
    returns (after: Edge, ghost orders: Orders)
    requires Sound(e, pair, entries, rules)
    ensures OrdersOf(orders, e, rules) && AllIn(e.base.entries, e.base.symbols)
    ensures RuleIndex.AllIndexable(MaterializedRules(e.rules, orders.baseRules, orders.ruleAdds))
    ensures after == Compacted(e, pair, orders)
    ensures after.shardCount == e.shardCount && after.watermarks == e.watermarks
  {
    var es, addsOrder := MaterializeEntries(e.base, pair, entries, e.removes.Keys, e.adds);
    var rs, baseRules, ruleAddsOrder := MaterializeRules(e.rules, rules);
    orders := Orders(addsOrder, baseRules, ruleAddsOrder);
    assert es == Materialized(e, addsOrder) && OrdersOf(orders, e, rules);
    hide Sound, OrdersOf, AllIn, RuleIndex.AllIndexable, MaterializedRules, Materialized, BuildBase, RuleIndex.Compile;
    if e.adds == map[] && e.removes == map[] && e.rules.adds == map[] && e.rules.removes == map[] {
      after := e;
    } else {
      var base := FromEntries(es, pair);
      var index := RuleIndex.CompileRules(rs);
      after := Edge(e.shardCount, base, map[], map[], RuleIndex.Overlay(index, map[], map[]), e.watermarks);
    }
  }

  // usize::saturating_sub
  function SaturatingSub(a: nat, b: nat): nat {
    if a < b then 0 else a - b
  }

  // the first loop of entries_len
  method CountKept(b: Base, ghost keys: set<AclKey>, removes: set<AclKey>, adds: set<AclKey>) returns (len: nat)
    requires Contains(b, keys) && |b.entries| == |keys| && adds !! removes
    ensures len == |keys - removes|
  {
    hide LookupExact;
    len := |b.entries|;
    var rest := removes;
    while rest != {}
      invariant rest <= removes && len == |keys - (removes - rest)|
      decreases |rest|
    {
      var k :| k in rest;
      ghost var left := keys - (removes - rest);
      if LookupExact(b, k).Some? && k !in adds {
        len := SaturatingSub(len, 1);
      }
      rest := rest - {k};
      assert keys - (removes - rest) == left - {k};
    }
  }

  // the second loop of entries_len
  method CountAdded(b: Base, ghost keys: set<AclKey>, ghost removes: set<AclKey>, adds: set<AclKey>, start: nat)
    returns (len: nat)
    requires Contains(b, keys) && adds !! removes && start == |keys - removes|
    ensures len == |(keys - removes) + adds|
  {
    hide LookupExact;
    len := start;
    ghost var kept := keys - removes;
    var rest := adds;
    assert kept + (adds - rest) == kept;
    while rest != {}
      invariant rest <= adds && len == |kept + (adds - rest)|
      decreases |rest|
    {
      var k :| k in rest;
      ghost var held := kept + (adds - rest);
      assert k in held <==> LookupExact(b, k).Some?;
      assert k in held ==> held + {k} == held;
      if LookupExact(b, k).None? {
        len := len + 1;
      }
      rest := rest - {k};
      assert kept + (adds - rest) == held + {k};
    }
    assert adds - rest == adds;
  }

  // materialized_entries
  method MaterializeEntries(b: Base, pair: KeyPair, ghost entries: map<AclKey, DenyEntry>, removes: set<AclKey>,
                            adds: map<AclKey, DenyEntry>)
    returns (es: seq<DenyEntry>, addsOrder: seq<DenyEntry>)
    requires Holds(b, pair, entries) && Keyed(adds)
    ensures Lists(addsOrder, adds) && Unique(addsOrder) && AllIn(b.entries, b.symbols)
    ensures es == Uncovered(Expanded(b), removes + adds.Keys) + addsOrder
  {
    es := UncoveredLoop(Expanded(b), removes, adds.Keys);
    addsOrder := ValuesOf(adds);
    hide Holds, Expanded, Uncovered, Lists;
    es := es + addsOrder;
  }

  // its loop over the base
  method UncoveredLoop(all: seq<DenyEntry>, removes: set<AclKey>, adds: set<AclKey>) returns (es: seq<DenyEntry>)
    ensures es == Uncovered(all, removes + adds)
  {
    es := [];
    for i := 0 to |all|
      invariant es == Uncovered(all[..i], removes + adds)
    {
      hide Uncovered;
      assert all[..i + 1] == all[..i] + [all[i]];
      UncoveredPush(all[..i], all[i], removes + adds);
      if all[i].Key() !in removes && all[i].Key() !in adds {
        es := es + [all[i]];
      }
    }
    assert all[..|all|] == all;
  }

  lemma UncoveredPush(es: seq<DenyEntry>, e: DenyEntry, hidden: set<AclKey>)
    ensures Uncovered(es + [e], hidden) == if e.Key() in hidden then Uncovered(es, hidden) else Uncovered(es, hidden) + [e]
  {
    assert (es + [e])[..|es|] == es;
  }

  // materialized_rules
  method MaterializeRules(o: RuleIndex.Overlay, ghost rules: map<RuleKey, RuleEntry>)
    returns (rs: seq<RuleEntry>, baseOrder: seq<RuleEntry>, addsOrder: seq<RuleEntry>)
    requires RuleIndex.OverlayOf(o, rules)
    ensures RuleIndex.Lists(baseOrder, rules) && RuleIndex.Lists(addsOrder, o.adds)
    ensures rs == MaterializedRules(o, baseOrder, addsOrder) && RuleIndex.AllIndexable(rs)
  {
    baseOrder := AllRules(o.base, rules);
    rs := [];
    for i := 0 to |baseOrder|
      invariant rs == UncoveredRules(baseOrder[..i], o.removes.Keys + o.adds.Keys)
    {
      assert baseOrder[..i + 1][..i] == baseOrder[..i];
      if baseOrder[i].Key() !in o.removes && baseOrder[i].Key() !in o.adds {
        rs := rs + [baseOrder[i]];
      }
    }
    assert baseOrder[..|baseOrder|] == baseOrder;
    addsOrder := RuleValuesOf(o.adds);
    MaterializedRulesList(o, rules, baseOrder, addsOrder);
    rs := rs + addsOrder;
  }

  // contains_key tells which keys the base holds
  ghost predicate Contains(b: Base, keys: set<AclKey>) {
    forall k :: LookupExact(b, k).Some? <==> k in keys
  }

  lemma ContainsKeys(b: Base, pair: KeyPair, entries: map<AclKey, DenyEntry>)
    requires Holds(b, pair, entries)
    ensures Contains(b, entries.Keys) && |entries| == |entries.Keys|
  {
    hide Holds, LookupExact;
    forall k
      ensures LookupExact(b, k).Some? <==> k in entries
    {
      ExactAnswers(b, pair, entries, k);
    }
  }
}
