/** The edge refines the source. An edge that starts from a source's snapshot and takes the shard
    streams in any interleaving, with duplicates, stale and early deliveries, and with overlay
    compactions anywhere, answers every lookup as a source that has replayed each shard up to the
    edge's watermark. */
module EdgeRefinement {
  import opened Domain
  import opened SourceSpec
  import opened Replay
  import opened RulePatterns
  import opened NegativeFilter
  import opened EdgeBase
  import opened ActiveState
  import RuleIndex

  // every logged rule was compiled by the source
  ghost predicate RulesIndexable(logs: seq<seq<Mutation>>) {
    forall s, i {:trigger logs[s][i]} :: 0 <= s < |logs| && 0 <= i < |logs[s]| && logs[s][i].rule.Some? ==>
      Indexable(logs[s][i].rule.value)
  }

  /** The edge has applied exactly the first watermarks[s] mutations of every shard s. */
  ghost predicate Tracks(e: Edge, pair: KeyPair, entries: map<AclKey, DenyEntry>, rules: map<RuleKey, RuleEntry>,
                         logs: seq<seq<Mutation>>) {
    && Sound(e, pair, entries, rules)
    && |logs| == e.shardCount && Within(e.watermarks, logs)
    && Represents(Contents(e, entries), RuleIndex.LiveRules(e.rules, rules), logs, e.watermarks)
  }

  ghost predicate UpToDate(e: Edge, pair: KeyPair, logs: seq<seq<Mutation>>) {
    exists entries, rules :: Tracks(e, pair, entries, rules, logs)
  }

  // ---------- one mutation ----------

  lemma OverlayPut<K, V>(base: map<K, V>, adds: map<K, V>, removes: map<K, nat>, k: K, v: V)
    ensures (base - (removes - {k}).Keys) + adds[k := v] == ((base - removes.Keys) + adds)[k := v]
    ensures adds.Keys !! removes.Keys ==> adds[k := v].Keys !! (removes - {k}).Keys
  {
  }

  lemma OverlayDrop<K, V>(base: map<K, V>, adds: map<K, V>, removes: map<K, nat>, k: K, n: nat)
    ensures (base - removes[k := n].Keys) + (adds - {k}) == ((base - removes.Keys) + adds) - {k}
    ensures adds.Keys !! removes.Keys ==> (adds - {k}).Keys !! removes[k := n].Keys
  {
  }

  /** The overlay does to the contents what the source does to its tables. */
  lemma OverlaidContents(e: Edge, entries: map<AclKey, DenyEntry>, rules: map<RuleKey, RuleEntry>, m: Mutation)
    ensures Contents(Overlaid(e, m), entries) == EntriesAfter(Contents(e, entries), m)
    ensures RuleIndex.LiveRules(Overlaid(e, m).rules, rules) == RulesAfter(RuleIndex.LiveRules(e.rules, rules), m)
  {
    if m.rule.Some? {
      OverlayPut(rules, e.rules.adds, e.rules.removes, m.rule.value.Key(), m.rule.value);
      OverlayDrop(rules, e.rules.adds, e.rules.removes, m.rule.value.Key(), m.commitId.seqNo);
    } else {
      OverlayPut(entries, e.adds, e.removes, m.entry.Key(), m.entry);
      OverlayDrop(entries, e.adds, e.removes, m.entry.Key(), m.commitId.seqNo);
    }
  }

  lemma PutKeyed(table: map<AclKey, DenyEntry>, e: DenyEntry)
    requires Keyed(table)
    ensures Keyed(table[e.Key() := e]) && Keyed(table - {e.Key()})
  {
  }

  lemma PutKeyedRule(table: map<RuleKey, RuleEntry>, r: RuleEntry)
    requires KeyedRules(table) && Indexable(r)
    ensures r.action != Delete ==> KeyedRules(table[r.Key() := r])
    ensures KeyedRules(table - {r.Key()})
  {
  }

  lemma OverlaidSound(e: Edge, pair: KeyPair, entries: map<AclKey, DenyEntry>, rules: map<RuleKey, RuleEntry>,
                      m: Mutation, watermarks: seq<nat>)
    requires Sound(e, pair, entries, rules) && (m.rule.Some? ==> Indexable(m.rule.value))
    requires |watermarks| == e.shardCount
    ensures Sound(Overlaid(e, m).(watermarks := watermarks), pair, entries, rules)
  {
    if m.rule.Some? {
      var r := m.rule.value;
      OverlayPut(rules, e.rules.adds, e.rules.removes, r.Key(), r);
      OverlayDrop(rules, e.rules.adds, e.rules.removes, r.Key(), m.commitId.seqNo);
      PutKeyedRule(e.rules.adds, r);
    } else {
      OverlayPut(entries, e.adds, e.removes, m.entry.Key(), m.entry);
      OverlayDrop(entries, e.adds, e.removes, m.entry.Key(), m.commitId.seqNo);
      PutKeyed(e.adds, m.entry);
    }
    hide Holds, RuleIndex.Files, Keyed, RuleIndex.Keyed;
  }

  // the next mutation of a shard
  function Next(e: Edge, m: Mutation): Edge
    requires m.commitId.shardId < |e.watermarks|
  {
    Overlaid(e, m).(watermarks := e.watermarks[m.commitId.shardId := m.commitId.seqNo])
  }

  lemma NextContents(e: Edge, entries: map<AclKey, DenyEntry>, rules: map<RuleKey, RuleEntry>, m: Mutation)
    requires m.commitId.shardId < |e.watermarks|
    ensures Contents(Next(e, m), entries) == EntriesAfter(Contents(e, entries), m)
    ensures RuleIndex.LiveRules(Next(e, m).rules, rules) == RulesAfter(RuleIndex.LiveRules(e.rules, rules), m)
    ensures Next(e, m).shardCount == e.shardCount
  {
    OverlaidContents(e, entries, rules, m);
    hide EntriesAfter, RulesAfter;
  }

  lemma NextRepresents(e: Edge, entries: map<AclKey, DenyEntry>, rules: map<RuleKey, RuleEntry>,
                       logs: seq<seq<Mutation>>, m: Mutation)
    requires ValidLogs(logs) && Within(e.watermarks, logs) && m.commitId.shardId < |logs|
    requires Represents(Contents(e, entries), RuleIndex.LiveRules(e.rules, rules), logs, e.watermarks)
    requires var s := m.commitId.shardId; e.watermarks[s] < |logs[s]| && logs[s][e.watermarks[s]] == m
    ensures var f := Next(e, m);
      Within(f.watermarks, logs) && Represents(Contents(f, entries), RuleIndex.LiveRules(f.rules, rules), logs, f.watermarks)
  {
    assert m.commitId.seqNo == e.watermarks[m.commitId.shardId] + 1;
    hide Represents, Contents, RuleIndex.LiveRules, EntriesAfter, RulesAfter, Overlaid;
    StepRepresents(Contents(e, entries), RuleIndex.LiveRules(e.rules, rules), logs, e.watermarks, m.commitId.shardId);
    NextContents(e, entries, rules, m);
  }

  lemma NextTracks(e: Edge, pair: KeyPair, entries: map<AclKey, DenyEntry>, rules: map<RuleKey, RuleEntry>,
                   logs: seq<seq<Mutation>>, s: nat)
    requires Tracks(e, pair, entries, rules, logs) && ValidLogs(logs) && RulesIndexable(logs)
    requires s < |logs| && e.watermarks[s] < |logs[s]|
    ensures logs[s][e.watermarks[s]].commitId.shardId < |e.watermarks|
    ensures Tracks(Next(e, logs[s][e.watermarks[s]]), pair, entries, rules, logs)
  {
    var m := logs[s][e.watermarks[s]];
    assert m.commitId.shardId == s && m.commitId.seqNo == e.watermarks[s] + 1 && e.Shaped();
    hide Sound, Represents, Contents, RuleIndex.LiveRules, EntriesAfter, RulesAfter, Overlaid;
    OverlaidSound(e, pair, entries, rules, m, e.watermarks[s := e.watermarks[s] + 1]);
    hide ValidLogs, RulesIndexable;
    NextRepresents(e, entries, rules, logs, m);
  }

  lemma AppliedNext(e: Edge, m: Mutation)
    requires e.Shaped() && m.commitId.shardId < e.shardCount
    ensures var s, n := m.commitId.shardId, m.commitId.seqNo; var r := Apply(e, m);
      && (n == e.watermarks[s] + 1 ==> r == Ok((Next(e, m), Applied)))
      && (n <= e.watermarks[s] ==> r == Ok((e, DuplicateOrOld)))
      && (n > e.watermarks[s] + 1 ==> r == Err(Gap(s, e.watermarks[s] + 1, n)))
  {
    hide Overlaid;
  }

  /** Any delivery from the streams: the next one is applied, an old one and an early one change
      nothing. */
  lemma DeliveryTracks(e: Edge, pair: KeyPair, entries: map<AclKey, DenyEntry>, rules: map<RuleKey, RuleEntry>,
                       logs: seq<seq<Mutation>>, s: nat, i: nat)
    requires Tracks(e, pair, entries, rules, logs) && ValidLogs(logs) && RulesIndexable(logs)
    requires s < |logs| && i < |logs[s]|
    ensures e.Shaped()
    ensures var r := Apply(e, logs[s][i]);
      && (r.Ok? && r.value.1 == Applied <==> i == e.watermarks[s])
      && (r.Ok? ==> Tracks(r.value.0, pair, entries, rules, logs))
      && (i < e.watermarks[s] ==> r == Ok((e, DuplicateOrOld)))
      && (i > e.watermarks[s] ==> r == Err(Gap(s, e.watermarks[s] + 1, i + 1)))
  {
    assert e.Shaped() && e.shardCount == |logs| == |e.watermarks|;
    AppliedNext(e, logs[s][i]);
    if i == e.watermarks[s] {
      NextTracks(e, pair, entries, rules, logs, s);
    }
    hide Tracks, Apply, Next, RulesIndexable;
  }

  // ---------- runs ----------

  datatype Event =
    | Deliver(shard: nat, index: nat)
    | CompactOverlay(orders: Orders)

  // r is somewhere in the index
  predicate InIndex(c: RuleIndex.Compiled, r: RuleEntry)
    requires c.Valid()
  {
    match r.kind
    case Ipv4Cidr => r.ipv4PrefixLen <= 32 && r in RuleIndex.Bucket(c.ipv4[r.ipv4PrefixLen], (r.tenantId, r.ipv4Network))
    case DomainSuffix => r in RuleIndex.Bucket(c.domains, (r.tenantId, r.domainSuffix))
  }

  // the orders that the hash maps of e may yield, read off e itself
  ghost predicate PossibleOrders(orders: Orders, e: Edge)
    requires e.Shaped()
  {
    && AllIn(e.base.entries, e.base.symbols)
    && Lists(orders.adds, e.adds) && Unique(orders.adds)
    && (forall r :: r in orders.baseRules <==> InIndex(e.rules.base, r))
    && RuleIndex.Lists(orders.ruleAdds, e.rules.adds)
    && RuleIndex.AllIndexable(MaterializedRules(e.rules, orders.baseRules, orders.ruleAdds))
  }

  ghost predicate Possible(e: Edge, event: Event, logs: seq<seq<Mutation>>) {
    && e.Shaped()
    && match event
       case Deliver(s, i) => s < |logs| && i < |logs[s]|
       case CompactOverlay(orders) => PossibleOrders(orders, e)
  }

  // an agent or relay drops a delivery that fails
  ghost function After(e: Edge, pair: KeyPair, event: Event, logs: seq<seq<Mutation>>): Edge
    requires Possible(e, event, logs)
  {
    match event
    case Deliver(s, i) => var r := Apply(e, logs[s][i]); if r.Ok? then r.value.0 else e
    case CompactOverlay(orders) => Compacted(e, pair, orders)
  }

  lemma InIndexIffFiled(c: RuleIndex.Compiled, rs: set<RuleEntry>, r: RuleEntry)
    requires RuleIndex.Files(c, rs)
    ensures InIndex(c, r) <==> r in rs
  {
    if r.kind == Ipv4Cidr && r.ipv4PrefixLen <= 32 {
      assert r in RuleIndex.Bucket(c.ipv4[r.ipv4PrefixLen], (r.tenantId, r.ipv4Network)) <==>
             r in rs && RuleIndex.InV4Bucket(r, r.ipv4PrefixLen, (r.tenantId, r.ipv4Network));
    } else if r.kind == DomainSuffix {
      assert r in RuleIndex.Bucket(c.domains, (r.tenantId, r.domainSuffix)) <==>
             r in rs && RuleIndex.InDomainBucket(r, (r.tenantId, r.domainSuffix));
    } else {
      assert r in rs ==> Indexable(r);
    }
  }

  lemma PossibleOrdersFit(orders: Orders, e: Edge, pair: KeyPair, entries: map<AclKey, DenyEntry>, rules: map<RuleKey, RuleEntry>)
    requires Sound(e, pair, entries, rules) && PossibleOrders(orders, e)
    ensures OrdersOf(orders, e, rules)
  {
    hide Holds, AllIn, Lists, Unique, InIndex, RuleIndex.Files;
    forall r: RuleEntry
      ensures r in orders.baseRules <==> r.Key() in rules && rules[r.Key()] == r
    {
      InIndexIffFiled(e.rules.base, rules.Values, r);
      ValueUnderKey(rules, r);
    }
  }

  lemma EventKeepsUpToDate(e: Edge, pair: KeyPair, event: Event, logs: seq<seq<Mutation>>)
    requires ValidLogs(logs) && RulesIndexable(logs) && UpToDate(e, pair, logs) && Possible(e, event, logs)
    ensures UpToDate(After(e, pair, event, logs), pair, logs)
  {
    var entries, rules :| Tracks(e, pair, entries, rules, logs);
    match event
    case Deliver(s, i) =>
      DeliveryTracks(e, pair, entries, rules, logs, s, i);
      assert Tracks(After(e, pair, event, logs), pair, entries, rules, logs);
    case CompactOverlay(orders) =>
      PossibleOrdersFit(orders, e, pair, entries, rules);
      CompactionPreserves(e, pair, entries, rules, orders);
      hide Compacted, Sound, PossibleOrders, OrdersOf, Represents, Contents, RuleIndex.LiveRules;
      assert Tracks(After(e, pair, event, logs), pair, Contents(e, entries), RuleIndex.LiveRules(e.rules, rules), logs);
  }

  /** A snapshot that a source took after replaying w[s] mutations of every shard s: it lists the
      source's tables in some order. */
  ghost predicate SourceSnapshot(snap: Snapshot, logs: seq<seq<Mutation>>) {
    && snap.Validates() && snap.shardCount == |logs| && Within(snap.watermarks, logs)
    && exists entries: map<AclKey, DenyEntry>, rules: map<RuleKey, RuleEntry> ::
         Snapped(snap, entries, rules, logs)
  }

  ghost predicate Snapped(snap: Snapshot, entries: map<AclKey, DenyEntry>, rules: map<RuleKey, RuleEntry>,
                          logs: seq<seq<Mutation>>)
    requires Within(snap.watermarks, logs)
  {
    Lists(snap.entries, entries) && RuleIndex.Lists(snap.rules, rules) && Represents(entries, rules, logs, snap.watermarks)
  }

  lemma {:induction false} EntryOfKey(log: seq<Mutation>, k: AclKey)
    ensures EntryOf(log, k).Some? ==> EntryOf(log, k).value.Key() == k
  {
    if log != [] {
      EntryOfKey(log[..|log| - 1], k);
    }
  }

  lemma {:induction false} RuleOfKey(log: seq<Mutation>, k: RuleKey)
    requires forall i :: 0 <= i < |log| && log[i].rule.Some? ==> Indexable(log[i].rule.value)
    ensures RuleOf(log, k).Some? ==>
      RuleOf(log, k).value.Key() == k && RuleOf(log, k).value.action != Delete && Indexable(RuleOf(log, k).value)
  {
    if log != [] {
      RuleOfKey(log[..|log| - 1], k);
    }
  }

  /** Tables that logs give hold every record under its own key, and no Delete rule. */
  lemma RepresentedKeyed(entries: map<AclKey, DenyEntry>, rules: map<RuleKey, RuleEntry>,
                         logs: seq<seq<Mutation>>, w: seq<nat>)
    requires RulesIndexable(logs) && Within(w, logs) && Represents(entries, rules, logs, w)
    ensures Keyed(entries) && KeyedRules(rules)
  {
    forall k | k in entries
      ensures entries[k].Key() == k
    {
      var s := ShardOfEntry(k, |w|);
      assert Get(entries, k) == EntryOf(logs[s][..w[s]], k);
      EntryOfKey(logs[s][..w[s]], k);
    }
    forall k | k in rules
      ensures rules[k].Key() == k && rules[k].action != Delete && Indexable(rules[k])
    {
      var s := ShardOfRule(k, |w|);
      assert Get(rules, k) == RuleOf(logs[s][..w[s]], k);
      RuleOfKey(logs[s][..w[s]], k);
    }
  }

  lemma ListedIndexable(rs: seq<RuleEntry>, rules: map<RuleKey, RuleEntry>)
    requires RuleIndex.Lists(rs, rules) && KeyedRules(rules)
    ensures RuleIndex.AllIndexable(rs)
  {
    forall i | 0 <= i < |rs|
      ensures Indexable(rs[i])
    {
      assert rs[i] in rs;
    }
  }

  /** Loading a source's snapshot gives an edge at its watermarks. */
  lemma SnapshotUpToDate(snap: Snapshot, pair: KeyPair, logs: seq<seq<Mutation>>)
    requires RulesIndexable(logs) && SourceSnapshot(snap, logs)
    ensures RuleIndex.AllIndexable(snap.rules)
    ensures UpToDate(FromSnapshot(snap, pair), pair, logs)
  {
    var entries: map<AclKey, DenyEntry>, rules: map<RuleKey, RuleEntry> :| Snapped(snap, entries, rules, logs);
    RepresentedKeyed(entries, rules, logs, snap.watermarks);
    ListedIndexable(snap.rules, rules);
    BuiltSound(snap.shardCount, snap.entries, snap.rules, snap.watermarks, pair, entries, rules);
    hide Sound, Represents, BuildBase, RuleIndex.Compile, Lists, RuleIndex.Lists, KeyedRules, Keyed;
    var e := FromSnapshot(snap, pair);
    NothingOverlaid(e, entries, rules);
    assert Tracks(e, pair, entries, rules, logs);
  }

  /** An edge's life: a snapshot, then deliveries and compactions. */
  ghost predicate Life(states: seq<Edge>, events: seq<Event>, pair: KeyPair, logs: seq<seq<Mutation>>, snap: Snapshot) {
    && |states| == |events| + 1
    && ValidLogs(logs) && RulesIndexable(logs) && SourceSnapshot(snap, logs)
    && RuleIndex.AllIndexable(snap.rules) && states[0] == FromSnapshot(snap, pair)
    && forall i :: 0 <= i < |events| ==>
         Possible(states[i], events[i], logs) && states[i + 1] == After(states[i], pair, events[i], logs)
  }

  lemma {:induction false} UpToDateThroughout(
    states: seq<Edge>, events: seq<Event>, pair: KeyPair, logs: seq<seq<Mutation>>, snap: Snapshot, i: nat)
    requires Life(states, events, pair, logs, snap) && i < |states|
    ensures UpToDate(states[i], pair, logs)
  {
    hide UpToDate, Possible, After, SourceSnapshot, FromSnapshot, ValidLogs, RulesIndexable;
    if i == 0 {
      SnapshotUpToDate(snap, pair, logs);
    } else {
      UpToDateThroughout(states, events, pair, logs, snap, i - 1);
      EventKeepsUpToDate(states[i - 1], pair, events[i - 1], logs);
    }
  }

  /** The theorem, against any source at the edge's watermarks: same tables, so same lookups. */
  lemma UpToDateReadsSource(e: Edge, pair: KeyPair, logs: seq<seq<Mutation>>, src: Source, k: AclKey, now: nat)
    requires UpToDate(e, pair, logs) && Within(src.watermarks, logs) && src.watermarks == e.watermarks
    requires Represents(src.entries, src.rules, logs, src.watermarks)
    ensures e.Shaped() && LookupKey(e, pair, k, now) == DecisionForEntry(Get(src.entries, k), now)
  {
    var entries, rules :| Tracks(e, pair, entries, rules, logs);
    LookupReadsContents(e, pair, entries, rules, k, now);
    WatermarksDetermineTables(Contents(e, entries), RuleIndex.LiveRules(e.rules, rules), src.entries, src.rules, logs, e.watermarks);
    hide Holds, RuleIndex.OverlayOf, LookupKey, Represents;
  }

  /** At any point of any life, every lookup at the edge is the decision of a source that replayed,
      in any interleaving, each shard up to the edge's watermark. */
  lemma EdgeRefinesSource(
    states: seq<Edge>, events: seq<Event>, pair: KeyPair, logs: seq<seq<Mutation>>, snap: Snapshot, i: nat,
    ms: seq<Mutation>, region: string, hash: KeyHash, tenant: string, namespace: string, rawKey: string, now: nat)
    requires Life(states, events, pair, logs, snap) && i < |states|
    requires Within(states[i].watermarks, logs) && Interleaves(ms, logs, seq(|logs|, _ => 0), states[i].watermarks)
    requires InsertOps(map[], ms).Ok?
    ensures states[i].Shaped()
    ensures var r := ReplayLoaded(New(|logs|, region), ms);
      r.Ok? && LookupKey(states[i], pair, AclKey(tenant, namespace, hash(tenant, namespace, rawKey)), now)
               == Lookup(r.value, hash, tenant, namespace, rawKey, now)
  {
    UpToDateThroughout(states, events, pair, logs, snap, i);
    EmptyRepresents(logs);
    var src := New(|logs|, region);
    ReplayInterleaving(src, logs, src.watermarks, states[i].watermarks, ms);
    hide UpToDate, Represents, Interleaves, ValidLogs, RulesIndexable, SourceSnapshot, LookupKey;
    UpToDateReadsSource(states[i], pair, logs, ReplayLoaded(src, ms).value,
                        AclKey(tenant, namespace, hash(tenant, namespace, rawKey)), now);
  }
}
