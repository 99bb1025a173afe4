/** What the mutations of a rollback are, one by one: their records, their names, their priority and their
    time (restore_snapshot, commit_entry_direct and commit_rule_direct of
    crates/globacl-core/src/lib/source.rs). */
module RollbackRecords {
  import opened Domain
  import opened Text
  import opened SourceSpec
  import opened RulePatterns
  import opened Loading
  import opened Rollback
  import StableSort
  import EdgeBase

  // ---------- names ----------

  /** An index is written with at least six digits, and with more only if it needs them. */
  lemma SixDigitsAre(i: nat)
    ensures ValueOf(SixDigits(i)) == i && |SixDigits(i)| >= 6
    ensures |SixDigits(i)| > 6 ==> SixDigits(i) == Decimal(i)
  {
    SixDigitsValue(i);
  }

  // ---------- records ----------

  function Reason(i: Item): string {
    match i
    case EntryItem(e) => e.reasonCode
    case RuleItem(r) => r.reasonCode
  }

  function Creator(i: Item): string {
    match i
    case EntryItem(e) => e.createdBy
    case RuleItem(r) => r.createdBy
  }

  function Expiry(i: Item): nat {
    match i
    case EntryItem(e) => e.expiresAt
    case RuleItem(r) => r.expiresAt
  }

  // the number and the shard that a record carries
  function Stamp(i: Item): (nat, nat) {
    match i
    case EntryItem(e) => (e.commitSeq, e.shardId)
    case RuleItem(r) => (r.commitSeq, r.shardId)
  }

  /** The i-th mutation of a rollback: urgent, dated by the clock at its turn, stamped by the source, routed by
      its hash, named by an index from i on; it puts back what the target holds under its key,
      or else deletes, saying so. */
  ghost predicate Planned(s: Source, target: Tables, prefix: string, clock: Clock, m: Mutation, i: nat)
    requires s.Shaped()
  {
    var item := ItemOf(m);
    && m.deliveryPriority == P0 && m.committedAt == clock(i)
    && m.commitId.epoch == s.epoch && m.commitId.sourceRegion == s.region
    && m.commitId.shardId == item.Hash() % s.shardCount
    && Stamp(item) == (m.commitId.seqNo, m.commitId.shardId)
    && (m.rule.Some? ==> m.entry == EntryForRule(m.rule.value))
    && MayEmit(target, item) && NamedFrom(prefix, m.opId, i)
  }

  ghost predicate NamedFrom(prefix: string, op: string, i: nat) {
    exists j: nat :: j >= i && op == OpName(prefix, j)
  }

  // what every step of planning keeps
  ghost predicate AllPlanned(s: Source, target: Tables, prefix: string, clock: Clock, p: Plan)
    requires s.Shaped()
  {
    && p.source.Shaped() && p.source.shardCount == s.shardCount && p.source.epoch == s.epoch && p.source.region == s.region
    && forall i :: 0 <= i < |p.emitted| ==> Planned(s, target, prefix, clock, p.emitted[i], i)
  }

  // a record of the target, or a marked deletion of one that the target lacks
  predicate MayEmit(target: Tables, item: Item) {
    match target.At(item.Key())
    case Some(t) => Same(item, t)
    case None => item.Action() == Delete && Reason(item) == "rollback_delete" && Creator(item) == "globacl-rollback"
                 && Expiry(item) == 0
  }

  lemma EmitsPlanned(s: Source, target: Tables, prefix: string, clock: Clock, p: Plan, item: Item)
    requires s.Shaped() && AllPlanned(s, target, prefix, clock, p) && MayEmit(target, item)
    ensures AllPlanned(s, target, prefix, clock, Emit(p, prefix, item, clock(|p.emitted|)))
  {
    hide FreshIndex, OpName;
    var q := Emit(p, prefix, item, clock(|p.emitted|));
    var m := q.emitted[|p.emitted|];
    var j := FreshIndex(p.source.opIndex.Keys, prefix, |p.emitted|);
    assert m.opId == OpName(prefix, j) && j >= |p.emitted|;
    DirectPlanned(s, target, prefix, clock, p.source, m.opId, item, |p.emitted|);
    assert q.emitted == p.emitted + [m];
    hide Planned, MayEmit;
  }

  lemma DirectPlanned(s: Source, target: Tables, prefix: string, clock: Clock, src: Source, op: string, item: Item, i: nat)
    requires s.Shaped() && src.Shaped() && src.shardCount == s.shardCount && src.epoch == s.epoch && src.region == s.region
    requires MayEmit(target, item) && NamedFrom(prefix, op, i)
    ensures Planned(s, target, prefix, clock, DirectMutation(src, op, item, clock(i)), i)
  {
    hide OpName, NamedFrom;
    var t := target.At(item.Key());
    var shard := ShardForHash(item.Hash(), s.shardCount);
    var stamped := item.Stamped(src.watermarks[shard] + 1, shard);
    assert ItemOf(DirectMutation(src, op, item, clock(i))) == stamped;
    assert t.Some? ==> Same(stamped, t.value);
    assert Reason(stamped) == Reason(item) && Creator(stamped) == Creator(item) && Expiry(stamped) == Expiry(item);
  }

  lemma {:induction false} DeletesPlanned(s: Source, target: Tables, prefix: string, clock: Clock, p: Plan, items: seq<Item>)
    requires s.Shaped() && AllPlanned(s, target, prefix, clock, p)
    ensures p.source.Shaped() && AllPlanned(s, target, prefix, clock, Deletes(p, prefix, clock, target, items))
  {
    if items != [] {
      var last := items[|items| - 1];
      DeletesPlanned(s, target, prefix, clock, p, items[..|items| - 1]);
      var before := Deletes(p, prefix, clock, target, items[..|items| - 1]);
      if target.At(last.Key()).None? {
        assert MayEmit(target, last.Tombstone());
        hide AllPlanned, Emit, MayEmit;
        EmitsPlanned(s, target, prefix, clock, before, last.Tombstone());
      }
    }
    hide AllPlanned, Emit;
  }

  lemma {:induction false} PutsPlanned(s: Source, target: Tables, prefix: string, clock: Clock, p: Plan, items: seq<Item>)
    requires s.Shaped() && AllPlanned(s, target, prefix, clock, p)
    requires forall i :: 0 <= i < |items| ==> target.At(items[i].Key()) == Some(items[i])
    ensures p.source.Shaped() && AllPlanned(s, target, prefix, clock, Puts(p, prefix, clock, items))
  {
    if items != [] {
      var init, last := items[..|items| - 1], items[|items| - 1];
      assert forall i :: 0 <= i < |init| ==> init[i] == items[i];
      PutsPlanned(s, target, prefix, clock, p, init);
      assert MayEmit(target, last);
      hide AllPlanned, Emit, MayEmit;
      EmitsPlanned(s, target, prefix, clock, Puts(p, prefix, clock, init), last);
    }
    hide AllPlanned, Emit;
  }

  // the lists that the loops go through
  function SortedEntries(es: seq<DenyEntry>): seq<Item> {
    EntryItems(StableSort.Sort(EdgeBase.EntryLeq, es))
  }

  function SortedRules(rs: seq<RuleEntry>): seq<Item> {
    RuleItems(StableSort.Sort(RuleKeyLeq, rs))
  }

  lemma TargetItems(snap: Snapshot, orders: Orders)
    requires Listing(orders.targetEntries, EntryKeyOf, TargetOf(snap).entries)
    requires Listing(orders.targetRules, RuleKeyOf, TargetOf(snap).rules)
    ensures var target, es, rs := TargetOf(snap), SortedEntries(orders.targetEntries), SortedRules(orders.targetRules);
      && (forall i :: 0 <= i < |es| ==> target.At(es[i].Key()) == Some(es[i]))
      && (forall i :: 0 <= i < |rs| ==> target.At(rs[i].Key()) == Some(rs[i]))
  {
    var target := TargetOf(snap);
    TargetKeyedEntries(snap.entries);
    TargetKeyedRules(snap.rules);
    assert Keyed(target);
    EdgeBase.EntryLeqPreorder();
    RuleKeyLeqPreorder();
    hide Listing, StableSort.Sort, StableSort.Preorder, TargetOf, Keyed;
    SortedListing(EdgeBase.EntryLeq, orders.targetEntries, EntryKeyOf, target.entries);
    SortedListing(RuleKeyLeq, orders.targetRules, RuleKeyOf, target.rules);
    EntryItemsListed(StableSort.Sort(EdgeBase.EntryLeq, orders.targetEntries), target);
    RuleItemsListed(StableSort.Sort(RuleKeyLeq, orders.targetRules), target);
  }

  // the four loops of a rollback
  lemma RestoreIsLoops(s: Source, snap: Snapshot, prefix: string, clock: Clock, orders: Orders)
    requires s.Shaped() && Restore(s, snap, prefix, clock, orders).Ok?
    ensures var target := TargetOf(snap);
      var p1 := Deletes(Plan(s, []), prefix, clock, target, SortedEntries(orders.entries));
      var p2 := Puts(p1, prefix, clock, SortedEntries(orders.targetEntries));
      var p3 := Deletes(p2, prefix, clock, target, SortedRules(orders.rules));
      Restore(s, snap, prefix, clock, orders).value == Puts(p3, prefix, clock, SortedRules(orders.targetRules))
  {
    hide Deletes, Puts, TargetOf, StableSort.Sort;
  }

  /** Every mutation of every rollback is as planned: a record of the target, or a marked deletion of one that
      the target lacks. */
  lemma RestorePlanned(s: Source, snap: Snapshot, prefix: string, clock: Clock, orders: Orders, i: nat)
    requires s.Shaped() && OrdersOf(orders, TablesOf(s), TargetOf(snap)) && Restore(s, snap, prefix, clock, orders).Ok?
    requires i < |Restore(s, snap, prefix, clock, orders).value.emitted|
    ensures Planned(s, TargetOf(snap), prefix, clock, Restore(s, snap, prefix, clock, orders).value.emitted[i], i)
  {
    var target := TargetOf(snap);
    RestoreIsLoops(s, snap, prefix, clock, orders);
    TargetItems(snap, orders);
    assert AllPlanned(s, target, prefix, clock, Plan(s, []));
    hide Deletes, Puts, Restore, TargetOf, OrdersOf, AllPlanned, SortedEntries, SortedRules, Planned;
    DeletesPlanned(s, target, prefix, clock, Plan(s, []), SortedEntries(orders.entries));
    var p1 := Deletes(Plan(s, []), prefix, clock, target, SortedEntries(orders.entries));
    PutsPlanned(s, target, prefix, clock, p1, SortedEntries(orders.targetEntries));
    var p2 := Puts(p1, prefix, clock, SortedEntries(orders.targetEntries));
    DeletesPlanned(s, target, prefix, clock, p2, SortedRules(orders.rules));
    var p3 := Deletes(p2, prefix, clock, target, SortedRules(orders.rules));
    PutsPlanned(s, target, prefix, clock, p3, SortedRules(orders.targetRules));
    PlannedAt(s, target, prefix, clock, Puts(p3, prefix, clock, SortedRules(orders.targetRules)), i);
  }

  lemma PlannedAt(s: Source, target: Tables, prefix: string, clock: Clock, p: Plan, i: nat)
    requires s.Shaped() && AllPlanned(s, target, prefix, clock, p) && i < |p.emitted|
    ensures Planned(s, target, prefix, clock, p.emitted[i], i)
  {
    hide Planned;
  }

  // ---------- numbering ----------

  /** No name beyond the plan's own is used, and the plan's are used in order. */
  ghost predicate Numbered(prefix: string, p: Plan) {
    && p.source.Shaped()
    && (forall j: nat :: OpName(prefix, j) in p.source.opIndex <==> j < |p.emitted|)
    && (forall i :: 0 <= i < |p.emitted| ==> p.emitted[i].opId == OpName(prefix, i))
  }

  lemma EmitsNumbered(prefix: string, p: Plan, item: Item, now: nat)
    requires Numbered(prefix, p)
    ensures Numbered(prefix, Emit(p, prefix, item, now))
  {
    EmitApplies(p, prefix, item, now);
    var q := Emit(p, prefix, item, now);
    var n := |p.emitted|;
    var f := FreshIndex(p.source.opIndex.Keys, prefix, n);
    assert f == n;
    assert q.emitted[n].opId == OpName(prefix, n);
    hide FreshIndex, OpName, Emit;
    forall j: nat
      ensures OpName(prefix, j) in q.source.opIndex <==> j < n + 1
    {
      if OpName(prefix, j) == OpName(prefix, n) {
        OpNamesDiffer(prefix, j, n);
      }
    }
  }

  lemma {:induction false} DeletesNumbered(prefix: string, clock: Clock, target: Tables, p: Plan, items: seq<Item>)
    requires Numbered(prefix, p)
    ensures Numbered(prefix, Deletes(p, prefix, clock, target, items))
  {
    if items != [] {
      DeletesNumbered(prefix, clock, target, p, items[..|items| - 1]);
      var before := Deletes(p, prefix, clock, target, items[..|items| - 1]);
      var last := items[|items| - 1];
      assert before.source.Shaped();
      hide Numbered, Emit;
      EmitsNumbered(prefix, before, last.Tombstone(), clock(|before.emitted|));
    }
    hide Numbered, Emit;
  }

  lemma {:induction false} PutsNumbered(prefix: string, clock: Clock, p: Plan, items: seq<Item>)
    requires Numbered(prefix, p)
    ensures Numbered(prefix, Puts(p, prefix, clock, items))
  {
    if items != [] {
      PutsNumbered(prefix, clock, p, items[..|items| - 1]);
      var before := Puts(p, prefix, clock, items[..|items| - 1]);
      assert before.source.Shaped();
      hide Numbered, Emit;
      EmitsNumbered(prefix, before, items[|items| - 1], clock(|before.emitted|));
    }
    hide Numbered, Emit;
  }

  /** Under a prefix that no op id uses yet, the mutations of a rollback are named in order from zero. */
  lemma RestoreNumbered(s: Source, snap: Snapshot, prefix: string, clock: Clock, orders: Orders, i: nat)
    requires s.Shaped() && Restore(s, snap, prefix, clock, orders).Ok?
    requires forall j: nat :: OpName(prefix, j) !in s.opIndex
    requires i < |Restore(s, snap, prefix, clock, orders).value.emitted|
    ensures Restore(s, snap, prefix, clock, orders).value.emitted[i].opId == OpName(prefix, i)
  {
    var target := TargetOf(snap);
    RestoreIsLoops(s, snap, prefix, clock, orders);
    assert Numbered(prefix, Plan(s, []));
    hide Deletes, Puts, Restore, TargetOf, SortedEntries, SortedRules, OpName;
    DeletesNumbered(prefix, clock, target, Plan(s, []), SortedEntries(orders.entries));
    var p1 := Deletes(Plan(s, []), prefix, clock, target, SortedEntries(orders.entries));
    PutsNumbered(prefix, clock, p1, SortedEntries(orders.targetEntries));
    var p2 := Puts(p1, prefix, clock, SortedEntries(orders.targetEntries));
    DeletesNumbered(prefix, clock, target, p2, SortedRules(orders.rules));
    var p3 := Deletes(p2, prefix, clock, target, SortedRules(orders.rules));
    PutsNumbered(prefix, clock, p3, SortedRules(orders.targetRules));
  }
}
