/** Forward-only rollback: restore_snapshot of crates/globacl-core/src/lib/source.rs plans the
    mutations that bring the live tables to those of a snapshot, never lowering a watermark. Entries
    and rules are treated alike here, as items under item keys. */
module Rollback {
  import opened Domain
  import opened Text
  import opened SourceSpec
  import opened Replay
  import opened RulePatterns
  import opened Loading
  import StableSort
  import EdgeBase

  datatype Item = EntryItem(entry: DenyEntry) | RuleItem(rule: RuleEntry)
  {
    function Key(): ItemKey {
      match this
      case EntryItem(e) => EntryKey(e.Key())
      case RuleItem(r) => RuleItemKey(r.Key())
    }

    function Action(): Action {
      match this
      case EntryItem(e) => e.action
      case RuleItem(r) => r.action
    }

    // the hash that routes it
    function Hash(): nat {
      match this
      case EntryItem(e) => e.keyHash
      case RuleItem(r) => r.ruleHash
    }

    function Stamped(seqNo: nat, shard: nat): (i: Item)
      ensures i.Key() == Key() && i.Action() == Action() && i.Hash() == Hash() && Same(i, this)
    {
      match this
      case EntryItem(e) => EntryItem(e.(commitSeq := seqNo, shardId := shard))
      case RuleItem(r) => RuleItem(r.(commitSeq := seqNo, shardId := shard))
    }

    // what restore_snapshot commits to delete it
    function Tombstone(): (i: Item)
      ensures i.Key() == Key() && i.Action() == Delete
    {
      match this
      case EntryItem(e) =>
        EntryItem(e.(action := Delete, reasonCode := "rollback_delete", expiresAt := 0, createdBy := "globacl-rollback"))
      case RuleItem(r) =>
        RuleItem(r.(action := Delete, reasonCode := "rollback_delete", expiresAt := 0, createdBy := "globacl-rollback"))
    }
  }

  datatype ItemKey = EntryKey(key: AclKey) | RuleItemKey(ruleKey: RuleKey)

  // entry_semantically_equal and rule_semantically_equal: all but the commit stamp
  predicate Same(a: Item, b: Item) {
    match (a, b)
    case (EntryItem(x), EntryItem(y)) => x.(commitSeq := y.commitSeq, shardId := y.shardId) == y
    case (RuleItem(x), RuleItem(y)) => x.(commitSeq := y.commitSeq, shardId := y.shardId) == y
    case _ => false
  }

  // the tables that a snapshot or a source holds
  datatype Tables = Tables(entries: map<AclKey, DenyEntry>, rules: map<RuleKey, RuleEntry>)
  {
    function At(k: ItemKey): Option<Item> {
      match k
      case EntryKey(a) => if a in entries then Some(EntryItem(entries[a])) else None
      case RuleItemKey(r) => if r in rules then Some(RuleItem(rules[r])) else None
    }
  }

  function TablesOf(s: Source): Tables {
    Tables(s.entries, s.rules)
  }

  // ---------- fresh op ids ----------

  // {index:06}
  function SixDigits(i: nat): (s: string)
    ensures AllDigits(s)
  {
    var d := Decimal(i);
    if |d| < 6 then Zeros(6 - |d|) + d else d
  }

  function OpName(prefix: string, i: nat): string {
    prefix + "-" + SixDigits(i)
  }

  lemma SixDigitsValue(i: nat)
    ensures ValueOf(SixDigits(i)) == i
  {
    var d := Decimal(i);
    DecimalValue(i);
    if |d| < 6 {
      LeadingZeros(Zeros(6 - |d|), d);
    }
  }

  /** Different indices name different op ids. */
  lemma OpNamesDiffer(prefix: string, i: nat, j: nat)
    requires OpName(prefix, i) == OpName(prefix, j)
    ensures i == j
  {
    SixDigitsValue(i);
    SixDigitsValue(j);
    assert OpName(prefix, i)[|prefix| + 1..] == SixDigits(i);
    assert OpName(prefix, j)[|prefix| + 1..] == SixDigits(j);
  }

  function Tried(prefix: string, n: nat): set<string> {
    if n == 0 then {} else Tried(prefix, n - 1) + {OpName(prefix, n - 1)}
  }

  lemma {:induction false} NotTried(prefix: string, n: nat, i: nat)
    requires n <= i
    ensures OpName(prefix, i) !in Tried(prefix, n)
  {
    if n > 0 {
      NotTried(prefix, n - 1, i);
      if OpName(prefix, i) == OpName(prefix, n - 1) {
        OpNamesDiffer(prefix, i, n - 1);
      }
    }
  }

  lemma SubsetSmaller<T>(a: set<T>, b: set<T>)
    requires a < b
    ensures |a| < |b|
  {
    assert b == a + (b - a);
    var x :| x in b - a;
    assert |b - a| > 0;
  }

  // every name tried is one fewer left
  lemma TriedShrinks(used: set<string>, prefix: string, i: nat)
    requires OpName(prefix, i) in used
    ensures |used - Tried(prefix, i + 1)| < |used - Tried(prefix, i)|
  {
    NotTried(prefix, i, i);
    var next := Tried(prefix, i) + {OpName(prefix, i)};
    assert Tried(prefix, i + 1) == next;
    hide OpName, Tried;
    assert OpName(prefix, i) in used - Tried(prefix, i) && OpName(prefix, i) !in used - next;
    SubsetSmaller(used - next, used - Tried(prefix, i));
  }

  lemma LaterNameDiffers(prefix: string, i: nat, j: nat)
    requires i < j
    ensures OpName(prefix, i) != OpName(prefix, j)
  {
    if OpName(prefix, i) == OpName(prefix, j) {
      OpNamesDiffer(prefix, i, j);
    }
  }

  // next_restore_op_id: the first index from start on whose name is unused
  function FreshIndex(used: set<string>, prefix: string, start: nat): (i: nat)
    ensures start <= i && OpName(prefix, i) !in used
    ensures forall j :: start <= j < i ==> OpName(prefix, j) in used
    decreases used
  {
    var name := OpName(prefix, start);
    if name !in used then start
    else
      var i := FreshIndex(used - {name}, prefix, start + 1);
      LaterNameDiffers(prefix, start, i);
      i
  }

  lemma FreshSkips(used: set<string>, prefix: string, i: nat)
    requires OpName(prefix, i) in used
    ensures FreshIndex(used, prefix, i + 1) == FreshIndex(used, prefix, i)
  {
    var a, b := FreshIndex(used, prefix, i), FreshIndex(used, prefix, i + 1);
    assert a != i;
    hide OpName;
    assert a < b ==> OpName(prefix, a) in used;
    assert b < a ==> OpName(prefix, b) in used;
  }

  /** The search ends because names differ and the op index is finite. */
  method NextRestoreOpId(index: map<string, Mutation>, prefix: string, start: nat) returns (op: string)
    ensures op == OpName(prefix, FreshIndex(index.Keys, prefix, start)) && op !in index
  {
    var i := start;
    while OpName(prefix, i) in index
      invariant FreshIndex(index.Keys, prefix, i) == FreshIndex(index.Keys, prefix, start)
      decreases |index.Keys - Tried(prefix, i)|
    {
      TriedShrinks(index.Keys, prefix, i);
      FreshSkips(index.Keys, prefix, i);
      hide FreshIndex, OpName, Tried;
      i := i + 1;
    }
    op := OpName(prefix, i);
  }

  // ---------- planning ----------

  datatype Plan = Plan(source: Source, emitted: seq<Mutation>)

  // the mutation of commit_entry_direct and commit_rule_direct
  function DirectMutation(s: Source, op: string, item: Item, now: nat): Mutation
    requires s.Shaped()
  {
    var shard := ShardForHash(item.Hash(), s.shardCount);
    var seqNo := s.watermarks[shard] + 1;
    var id := CommitId(shard, seqNo, s.epoch, s.region);
    match item.Stamped(seqNo, shard)
    case EntryItem(e) => Mutation(op, id, e, None, P0, now)
    case RuleItem(r) => Mutation(op, id, EntryForRule(r), Some(r), P0, now)
  }

  // next_restore_op_id, then a direct commit; now is the clock when it does
  function Emit(p: Plan, prefix: string, item: Item, now: nat): (q: Plan)
    requires p.source.Shaped()
    ensures q.source.Shaped() && q.source.shardCount == p.source.shardCount
  {
    var op := OpName(prefix, FreshIndex(p.source.opIndex.Keys, prefix, |p.emitted|));
    var m := DirectMutation(p.source, op, item, now);
    Plan(CommitDirect(p.source, m).value, p.emitted + [m])
  }

  type Clock = nat -> nat

  // delete what the target does not have
  function DeleteStep(p: Plan, prefix: string, clock: Clock, target: Tables, item: Item): (q: Plan)
    requires p.source.Shaped()
    ensures q.source.Shaped()
  {
    if target.At(item.Key()).Some? then p else Emit(p, prefix, item.Tombstone(), clock(|p.emitted|))
  }

  // put back what differs
  function PutStep(p: Plan, prefix: string, clock: Clock, item: Item): (q: Plan)
    requires p.source.Shaped()
    ensures q.source.Shaped()
  {
    var held := TablesOf(p.source).At(item.Key());
    if held.Some? && Same(held.value, item) then p else Emit(p, prefix, item, clock(|p.emitted|))
  }

  function Deletes(p: Plan, prefix: string, clock: Clock, target: Tables, items: seq<Item>): (q: Plan)
    requires p.source.Shaped()
    ensures q.source.Shaped()
  {
    if items == [] then p
    else DeleteStep(Deletes(p, prefix, clock, target, items[..|items| - 1]), prefix, clock, target, items[|items| - 1])
  }

  function Puts(p: Plan, prefix: string, clock: Clock, items: seq<Item>): (q: Plan)
    requires p.source.Shaped()
    ensures q.source.Shaped()
  {
    if items == [] then p
    else PutStep(Puts(p, prefix, clock, items[..|items| - 1]), prefix, clock, items[|items| - 1])
  }

  // compare_rules_by_key, as "not greater"
  predicate RuleKeyLeq(a: RuleEntry, b: RuleEntry) {
    if a.tenantId != b.tenantId then StringLeq(a.tenantId, b.tenantId)
    else if a.kind != b.kind then StringLeq(KindName(a.kind), KindName(b.kind))
    else a.ruleHash <= b.ruleHash
  }

  function EntryItems(es: seq<DenyEntry>): (r: seq<Item>)
    ensures |r| == |es|
  {
    seq(|es|, i requires 0 <= i < |es| => EntryItem(es[i]))
  }

  function RuleItems(rs: seq<RuleEntry>): (r: seq<Item>)
    ensures |r| == |rs|
  {
    seq(|rs|, i requires 0 <= i < |rs| => RuleItem(rs[i]))
  }

  /** The orders in which the four hash maps yield their values, before they are sorted by key. */
  datatype Orders = Orders(
    entries: seq<DenyEntry>, targetEntries: seq<DenyEntry>, rules: seq<RuleEntry>, targetRules: seq<RuleEntry>)

  function TargetOf(snap: Snapshot): Tables {
    Tables(EntryTable(snap.entries), RuleTable(snap.rules))
  }

  // restore_snapshot
  function Restore(s: Source, snap: Snapshot, prefix: string, clock: Clock, orders: Orders): (r: Result<Plan>)
    requires s.Shaped()
    ensures r.Ok? ==> r.value.source.Shaped()
    ensures r.Ok? <==> snap.shardCount == s.shardCount && snap.Validates()
  {
    if snap.shardCount != s.shardCount || !snap.Validates() then Err(InvalidData)
    else
      var target := TargetOf(snap);
      var p1 := Deletes(Plan(s, []), prefix, clock, target, EntryItems(StableSort.Sort(EdgeBase.EntryLeq, orders.entries)));
      var p2 := Puts(p1, prefix, clock, EntryItems(StableSort.Sort(EdgeBase.EntryLeq, orders.targetEntries)));
      var p3 := Deletes(p2, prefix, clock, target, RuleItems(StableSort.Sort(RuleKeyLeq, orders.rules)));
      Ok(Puts(p3, prefix, clock, RuleItems(StableSort.Sort(RuleKeyLeq, orders.targetRules))))
  }

  method EmitItem(p: Plan, prefix: string, item: Item, now: nat) returns (q: Plan)
    requires p.source.Shaped()
    ensures q == Emit(p, prefix, item, now)
  {
    var op := NextRestoreOpId(p.source.opIndex, prefix, |p.emitted|);
    var m := DirectMutation(p.source, op, item, now);
    q := Plan(CommitDirect(p.source, m).value, p.emitted + [m]);
  }

  // the deleting loops
  method DeleteLoop(start: Plan, prefix: string, clock: Clock, target: Tables, items: seq<Item>) returns (p: Plan)
    requires start.source.Shaped()
    ensures p == Deletes(start, prefix, clock, target, items)
  {
    hide Emit;
    p := start;
    for i := 0 to |items|
      invariant p == Deletes(start, prefix, clock, target, items[..i])
    {
      assert items[..i + 1][..i] == items[..i];
      if target.At(items[i].Key()).None? {
        p := EmitItem(p, prefix, items[i].Tombstone(), clock(|p.emitted|));
      }
    }
    assert items[..|items|] == items;
  }

  // the putting loops
  method PutLoop(start: Plan, prefix: string, clock: Clock, items: seq<Item>) returns (p: Plan)
    requires start.source.Shaped()
    ensures p == Puts(start, prefix, clock, items)
  {
    hide Emit;
    p := start;
    for i := 0 to |items|
      invariant p == Puts(start, prefix, clock, items[..i])
    {
      assert items[..i + 1][..i] == items[..i];
      var held := TablesOf(p.source).At(items[i].Key());
      if held.None? || !Same(held.value, items[i]) {
        p := EmitItem(p, prefix, items[i], clock(|p.emitted|));
      }
    }
    assert items[..|items|] == items;
  }

  method RestoreSnapshot(s: Source, snap: Snapshot, prefix: string, clock: Clock, orders: Orders) returns (r: Result<Plan>)
    requires s.Shaped()
    ensures r == Restore(s, snap, prefix, clock, orders)
  {
    if snap.shardCount != s.shardCount || !snap.Validates() {
      return Err(InvalidData);
    }
    hide Deletes, Puts, StableSort.Sort, EdgeBase.EntryLeq, RuleKeyLeq;
    var target := TargetOf(snap);
    var p := DeleteLoop(Plan(s, []), prefix, clock, target, EntryItems(StableSort.Sort(EdgeBase.EntryLeq, orders.entries)));
    p := PutLoop(p, prefix, clock, EntryItems(StableSort.Sort(EdgeBase.EntryLeq, orders.targetEntries)));
    p := DeleteLoop(p, prefix, clock, target, RuleItems(StableSort.Sort(RuleKeyLeq, orders.rules)));
    p := PutLoop(p, prefix, clock, RuleItems(StableSort.Sort(RuleKeyLeq, orders.targetRules)));
    return Ok(p);
  }

  // ---------- what a plan does ----------

  // applying the plan's mutations as a peer does, every one of them new
  function ReplayPlan(s: Source, ms: seq<Mutation>): (r: Result<Source>)
    requires s.Shaped()
    ensures r.Ok? ==> r.value.Shaped() && r.value.shardCount == s.shardCount
  {
    if ms == [] then Ok(s)
    else
      match ReplayPlan(s, ms[..|ms| - 1])
      case Err(e) => Err(e)
      case Ok(mid) =>
        match ApplyReplicated(mid, ms[|ms| - 1])
        case Ok((after, Applied)) => Ok(after)
        case _ => Err(InvalidData)
  }

  // the item a mutation commits
  function ItemOf(m: Mutation): Item {
    match m.rule
    case Some(r) => RuleItem(r)
    case None => EntryItem(m.entry)
  }

  function KeysOf(ms: seq<Mutation>): (r: seq<ItemKey>)
    ensures |r| == |ms|
  {
    seq(|ms|, i requires 0 <= i < |ms| => ItemOf(ms[i]).Key())
  }

  /** One emitted mutation: a peer applies it as the next of its shard under a new op id; it
      changes the item's key and no other, and the item keeps its meaning. */
  lemma EmitApplies(p: Plan, prefix: string, item: Item, now: nat)
    requires p.source.Shaped()
    ensures var q := Emit(p, prefix, item, now); var m := q.emitted[|p.emitted|];
      && q.emitted == p.emitted + [m]
      && ApplyReplicated(p.source, m) == Ok((q.source, Applied))
      && m.opId !in p.source.opIndex && q.source.opIndex == p.source.opIndex[m.opId := m]
      && ItemOf(m).Key() == item.Key() && Same(ItemOf(m), item)
  {
    var op := OpName(prefix, FreshIndex(p.source.opIndex.Keys, prefix, |p.emitted|));
    hide FreshIndex, OpName;
  }

  // the item that a mutation leaves under its key
  function Kept(m: Mutation): Option<Item> {
    if ItemOf(m).Action() == Delete then None else Some(ItemOf(m))
  }

  lemma ApplyChangesOneKey(s: Source, m: Mutation, k: ItemKey)
    requires s.Shaped() && ApplyReplicated(s, m).Ok? && ApplyReplicated(s, m).value.1 == Applied
    ensures TablesOf(ApplyReplicated(s, m).value.0).At(k) ==
      if k == ItemOf(m).Key() then Kept(m) else TablesOf(s).At(k)
  {
  }

  /** Where a plan stands: D and U are the keys that the deleting and the putting loops have dealt
      with so far. */
  ghost predicate Progress(s: Source, target: Tables, p: Plan, D: iset<ItemKey>, U: iset<ItemKey>)
    requires s.Shaped()
  {
    && p.source.Shaped() && ReplayPlan(s, p.emitted) == Ok(p.source)
    && forall k :: KeyProgress(TablesOf(s).At(k), target.At(k), TablesOf(p.source).At(k), k in D, k in U,
                               multiset(KeysOf(p.emitted))[k])
  }

  // what s held, the target and the plan hold under a key, and how many mutations the plan has for it
  predicate KeyProgress(was: Option<Item>, target: Option<Item>, held: Option<Item>, deleted: bool, put: bool, count: nat) {
    if put && target.Some? then
      if was.Some? && Same(was.value, target.value) then held == was && count == 0
      else count == 1 && (if target.value.Action() == Delete then held == None
                          else held.Some? && Same(held.value, target.value))
    else if deleted && target.None? && was.Some? then held == None && count == 1
    else held == was && count == 0
  }

  lemma EmittedCounts(p: Plan, prefix: string, item: Item, now: nat, k: ItemKey)
    requires p.source.Shaped()
    ensures multiset(KeysOf(Emit(p, prefix, item, now).emitted))[k]
         == multiset(KeysOf(p.emitted))[k] + if k == item.Key() then 1 else 0
  {
    EmitApplies(p, prefix, item, now);
    var q := Emit(p, prefix, item, now);
    hide Emit;
    assert KeysOf(q.emitted) == KeysOf(p.emitted) + [item.Key()];
  }

  lemma EmitHeld(p: Plan, prefix: string, item: Item, now: nat, k: ItemKey)
    requires p.source.Shaped()
    ensures var held := TablesOf(Emit(p, prefix, item, now).source).At(k);
      if k != item.Key() then held == TablesOf(p.source).At(k)
      else if item.Action() == Delete then held == None
      else held.Some? && Same(held.value, item)
  {
    EmitApplies(p, prefix, item, now);
    var q := Emit(p, prefix, item, now);
    var m := q.emitted[|p.emitted|];
    hide Emit;
    ApplyChangesOneKey(p.source, m, k);
    hide ApplyReplicated, TablesOf;
  }

  lemma EmitReplays(s: Source, p: Plan, prefix: string, item: Item, now: nat)
    requires s.Shaped() && p.source.Shaped() && ReplayPlan(s, p.emitted) == Ok(p.source)
    ensures var q := Emit(p, prefix, item, now); ReplayPlan(s, q.emitted) == Ok(q.source)
  {
    EmitApplies(p, prefix, item, now);
    var q := Emit(p, prefix, item, now);
    assert q.emitted[..|q.emitted| - 1] == p.emitted;
    hide Emit, ApplyReplicated;
  }

  lemma DeleteKeyProgress(s: Source, target: Tables, p: Plan, D: iset<ItemKey>, U: iset<ItemKey>,
                          prefix: string, clock: Clock, item: Item, k: ItemKey)
    requires s.Shaped() && Progress(s, target, p, D, U)
    requires TablesOf(s).At(item.Key()) == Some(item) && item.Key() !in D
    ensures var q := DeleteStep(p, prefix, clock, target, item);
      KeyProgress(TablesOf(s).At(k), target.At(k), TablesOf(q.source).At(k), k in D + iset{item.Key()}, k in U,
                  multiset(KeysOf(q.emitted))[k])
  {
    assert p.source.Shaped();
    assert KeyProgress(TablesOf(s).At(k), target.At(k), TablesOf(p.source).At(k), k in D, k in U,
                       multiset(KeysOf(p.emitted))[k]);
    var q := DeleteStep(p, prefix, clock, target, item);
    var tombstone, now := item.Tombstone(), clock(|p.emitted|);
    assert q == if target.At(item.Key()).Some? then p else Emit(p, prefix, tombstone, now);
    hide *;
    if target.At(item.Key()).None? {
      EmitHeld(p, prefix, tombstone, now, k);
      EmittedCounts(p, prefix, tombstone, now, k);
    }
    DeleteAt(TablesOf(s).At(k), target.At(k), TablesOf(p.source).At(k), TablesOf(q.source).At(k), k in D, k in U,
             multiset(KeysOf(p.emitted))[k], multiset(KeysOf(q.emitted))[k], k == item.Key());
    assert (k in D || k == item.Key()) <==> k in D + iset{item.Key()};
  }

  // a deleting step, at its own key and at any other
  lemma DeleteAt(was: Option<Item>, target: Option<Item>, held: Option<Item>, after: Option<Item>,
                 deleted: bool, put: bool, count: nat, countAfter: nat, here: bool)
    requires KeyProgress(was, target, held, deleted, put, count)
    requires if here && target.None? then after == None && countAfter == count + 1 && was.Some? && !deleted
             else after == held && countAfter == count
    ensures KeyProgress(was, target, after, deleted || here, put, countAfter)
  {
  }

  lemma DeleteProgress(s: Source, target: Tables, p: Plan, D: iset<ItemKey>, U: iset<ItemKey>,
                       prefix: string, clock: Clock, item: Item)
    requires s.Shaped() && Progress(s, target, p, D, U)
    requires TablesOf(s).At(item.Key()) == Some(item) && item.Key() !in D
    ensures Progress(s, target, DeleteStep(p, prefix, clock, target, item), D + iset{item.Key()}, U)
  {
    if target.At(item.Key()).None? {
      EmitReplays(s, p, prefix, item.Tombstone(), clock(|p.emitted|));
    }
    hide Emit, TablesOf, KeysOf, ReplayPlan, KeyProgress;
    var q := DeleteStep(p, prefix, clock, target, item);
    forall k
      ensures KeyProgress(TablesOf(s).At(k), target.At(k), TablesOf(q.source).At(k), k in D + iset{item.Key()}, k in U,
                          multiset(KeysOf(q.emitted))[k])
    {
      DeleteKeyProgress(s, target, p, D, U, prefix, clock, item, k);
    }
  }

  lemma PutKeyProgress(s: Source, target: Tables, p: Plan, D: iset<ItemKey>, U: iset<ItemKey>,
                       prefix: string, clock: Clock, item: Item, k: ItemKey)
    requires s.Shaped() && Progress(s, target, p, D, U)
    requires target.At(item.Key()) == Some(item) && item.Key() !in U
    ensures var q := PutStep(p, prefix, clock, item);
      KeyProgress(TablesOf(s).At(k), target.At(k), TablesOf(q.source).At(k), k in D, k in U + iset{item.Key()},
                  multiset(KeysOf(q.emitted))[k])
  {
    var held := TablesOf(p.source).At(item.Key());
    assert p.source.Shaped();
    assert KeyProgress(TablesOf(s).At(k), target.At(k), TablesOf(p.source).At(k), k in D, k in U,
                       multiset(KeysOf(p.emitted))[k]);
    var q, now := PutStep(p, prefix, clock, item), clock(|p.emitted|);
    var emits := held.None? || !Same(held.value, item);
    assert q == if emits then Emit(p, prefix, item, now) else p;
    hide *;
    if emits {
      EmitHeld(p, prefix, item, now, k);
      EmittedCounts(p, prefix, item, now, k);
    }
    PutAt(TablesOf(s).At(k), target.At(k), TablesOf(p.source).At(k), TablesOf(q.source).At(k), k in D, k in U,
          multiset(KeysOf(p.emitted))[k], multiset(KeysOf(q.emitted))[k], k == item.Key(), emits, item);
    assert (k in U || k == item.Key()) <==> k in U + iset{item.Key()};
  }

  // a putting step, at its own key and at any other
  lemma PutAt(was: Option<Item>, target: Option<Item>, held: Option<Item>, after: Option<Item>,
              deleted: bool, put: bool, count: nat, countAfter: nat, here: bool, emits: bool, item: Item)
    requires KeyProgress(was, target, held, deleted, put, count)
    requires here ==> target == Some(item) && !put && (emits <==> held.None? || !Same(held.value, item))
    requires if here && emits then
               && countAfter == count + 1
               && (if item.Action() == Delete then after == None else after.Some? && Same(after.value, item))
             else after == held && countAfter == count
    ensures KeyProgress(was, target, after, deleted, put || here, countAfter)
  {
  }

  lemma PutProgress(s: Source, target: Tables, p: Plan, D: iset<ItemKey>, U: iset<ItemKey>,
                    prefix: string, clock: Clock, item: Item)
    requires s.Shaped() && Progress(s, target, p, D, U)
    requires target.At(item.Key()) == Some(item) && item.Key() !in U
    ensures Progress(s, target, PutStep(p, prefix, clock, item), D, U + iset{item.Key()})
  {
    var held := TablesOf(p.source).At(item.Key());
    if held.None? || !Same(held.value, item) {
      EmitReplays(s, p, prefix, item, clock(|p.emitted|));
    }
    hide Emit, TablesOf, KeysOf, ReplayPlan, KeyProgress;
    var q := PutStep(p, prefix, clock, item);
    forall k
      ensures KeyProgress(TablesOf(s).At(k), target.At(k), TablesOf(q.source).At(k), k in D, k in U + iset{item.Key()},
                          multiset(KeysOf(q.emitted))[k])
    {
      PutKeyProgress(s, target, p, D, U, prefix, clock, item, k);
    }
  }

  // ---------- the loops ----------

  ghost function ItemKeys(items: seq<Item>): iset<ItemKey> {
    iset k | IsKeyOf(items, k)
  }

  predicate IsKeyOf(items: seq<Item>, k: ItemKey) {
    exists i :: 0 <= i < |items| && items[i].Key() == k
  }

  ghost predicate UniqueItems(items: seq<Item>) {
    forall i, j :: 0 <= i < j < |items| ==> items[i].Key() != items[j].Key()
  }

  lemma ItemKeysPush(items: seq<Item>)
    requires items != []
    ensures ItemKeys(items) == ItemKeys(items[..|items| - 1]) + iset{items[|items| - 1].Key()}
    ensures UniqueItems(items) ==>
      UniqueItems(items[..|items| - 1]) && items[|items| - 1].Key() !in ItemKeys(items[..|items| - 1])
  {
    var init, last := items[..|items| - 1], items[|items| - 1];
    forall k
      ensures k in ItemKeys(items) <==> k in ItemKeys(init) || k == last.Key()
    {
      if k in ItemKeys(items) {
        var i :| 0 <= i < |items| && items[i].Key() == k;
        assert i < |init| ==> init[i].Key() == k;
      }
      if k in ItemKeys(init) {
        var i :| 0 <= i < |init| && init[i].Key() == k;
        assert items[i].Key() == k;
      }
    }
  }

  lemma {:induction false} DeletesProgress(s: Source, target: Tables, p: Plan, D: iset<ItemKey>, U: iset<ItemKey>,
                                           prefix: string, clock: Clock, items: seq<Item>)
    requires s.Shaped() && Progress(s, target, p, D, U) && UniqueItems(items) && D !! ItemKeys(items)
    requires forall i :: 0 <= i < |items| ==> TablesOf(s).At(items[i].Key()) == Some(items[i])
    ensures Progress(s, target, Deletes(p, prefix, clock, target, items), D + ItemKeys(items), U)
  {
    assert p.source.Shaped();
    hide Progress, DeleteStep, TablesOf, UniqueItems;
    if items == [] {
      assert D + ItemKeys(items) == D;
    } else {
      var init, last := items[..|items| - 1], items[|items| - 1];
      ItemKeysPush(items);
      DeletesProgress(s, target, p, D, U, prefix, clock, init);
      assert last.Key() !in D;
      DeleteProgress(s, target, Deletes(p, prefix, clock, target, init), D + ItemKeys(init), U, prefix, clock, last);
      assert D + ItemKeys(items) == (D + ItemKeys(init)) + iset{last.Key()};
    }
  }

  lemma {:induction false} PutsProgress(s: Source, target: Tables, p: Plan, D: iset<ItemKey>, U: iset<ItemKey>,
                                        prefix: string, clock: Clock, items: seq<Item>)
    requires s.Shaped() && Progress(s, target, p, D, U) && UniqueItems(items) && U !! ItemKeys(items)
    requires forall i :: 0 <= i < |items| ==> target.At(items[i].Key()) == Some(items[i])
    ensures Progress(s, target, Puts(p, prefix, clock, items), D, U + ItemKeys(items))
  {
    assert p.source.Shaped();
    hide Progress, PutStep, UniqueItems;
    if items == [] {
      assert U + ItemKeys(items) == U;
    } else {
      var init, last := items[..|items| - 1], items[|items| - 1];
      ItemKeysPush(items);
      PutsProgress(s, target, p, D, U, prefix, clock, init);
      assert last.Key() !in U;
      PutProgress(s, target, Puts(p, prefix, clock, init), D, U + ItemKeys(init), prefix, clock, last);
      assert U + ItemKeys(items) == (U + ItemKeys(init)) + iset{last.Key()};
    }
  }

  // ---------- listings ----------

  function EntryKeyOf(e: DenyEntry): AclKey { e.Key() }

  function RuleKeyOf(r: RuleEntry): RuleKey { r.Key() }

  ghost predicate UniqueBy<T, K>(key: T -> K, xs: seq<T>) {
    forall i, j :: 0 <= i < j < |xs| ==> key(xs[i]) != key(xs[j])
  }

  /** The values of a keyed table, each once, in whatever order the hash map yields them. */
  ghost predicate Listing<K(!new), V(!new)>(xs: seq<V>, key: V -> K, table: map<K, V>) {
    (forall x :: x in xs <==> key(x) in table && table[key(x)] == x) && UniqueBy(key, xs)
  }

  lemma TwiceIn<T>(xs: seq<T>, i: nat, j: nat)
    requires i < j < |xs| && xs[i] == xs[j]
    ensures multiset(xs)[xs[i]] >= 2
  {
    assert xs == xs[..j] + [xs[j]] + xs[j + 1..];
    assert xs[..j][i] == xs[i];
    assert xs[i] in multiset(xs[..j]);
  }

  lemma OnlyOnce<T, K>(key: T -> K, xs: seq<T>, i: nat)
    requires UniqueBy(key, xs) && i < |xs|
    ensures multiset(xs)[xs[i]] == 1
  {
    var a, b := xs[..i], xs[i + 1..];
    assert xs == a + [xs[i]] + b;
    forall k | 0 <= k < |a|
      ensures a[k] != xs[i]
    {
      assert key(xs[k]) != key(xs[i]);
    }
    forall k | 0 <= k < |b|
      ensures b[k] != xs[i]
    {
      assert key(xs[i]) != key(xs[i + 1 + k]);
    }
    assert xs[i] !in a && xs[i] !in b;
  }

  lemma PermutedUnique<T, K>(key: T -> K, xs: seq<T>, ys: seq<T>)
    requires UniqueBy(key, xs) && multiset(xs) == multiset(ys)
    ensures UniqueBy(key, ys)
  {
    forall i, j | 0 <= i < j < |ys|
      ensures key(ys[i]) != key(ys[j])
    {
      assert ys[i] in multiset(ys) && ys[j] in multiset(ys);
      var a :| 0 <= a < |xs| && xs[a] == ys[i];
      var b :| 0 <= b < |xs| && xs[b] == ys[j];
      if a == b {
        TwiceIn(ys, i, j);
        OnlyOnce(key, xs, a);
      }
    }
  }

  lemma SortedListing<K(!new), V(!new)>(leq: (V, V) -> bool, xs: seq<V>, key: V -> K, table: map<K, V>)
    requires StableSort.Preorder(leq) && Listing(xs, key, table)
    ensures Listing(StableSort.Sort(leq, xs), key, table)
  {
    StableSort.SortOrders(leq, xs);
    PermutedUnique(key, xs, StableSort.Sort(leq, xs));
    forall x
      ensures x in StableSort.Sort(leq, xs) <==> x in xs
    {
      StableSort.SortMembers(leq, xs, x);
    }
  }

  lemma RuleKeyLeqPreorder()
    ensures StableSort.Preorder(RuleKeyLeq)
  {
    forall a: RuleEntry, b: RuleEntry
      ensures RuleKeyLeq(a, b) || RuleKeyLeq(b, a)
    {
      StringTotal(a.tenantId, b.tenantId);
      StringTotal(KindName(a.kind), KindName(b.kind));
    }
    forall a: RuleEntry, b: RuleEntry, c: RuleEntry | RuleKeyLeq(a, b) && RuleKeyLeq(b, c)
      ensures RuleKeyLeq(a, c)
    {
      RuleKeyTransitive(a, b, c);
    }
  }

  lemma RuleKeyTransitive(a: RuleEntry, b: RuleEntry, c: RuleEntry)
    requires RuleKeyLeq(a, b) && RuleKeyLeq(b, c)
    ensures RuleKeyLeq(a, c)
  {
    StringTotal(a.tenantId, b.tenantId);
    StringTotal(b.tenantId, c.tenantId);
    if StringLeq(a.tenantId, b.tenantId) && StringLeq(b.tenantId, c.tenantId) {
      StringTransitive(a.tenantId, b.tenantId, c.tenantId);
    }
    StringTotal(KindName(a.kind), KindName(b.kind));
    StringTotal(KindName(b.kind), KindName(c.kind));
    if StringLeq(KindName(a.kind), KindName(b.kind)) && StringLeq(KindName(b.kind), KindName(c.kind)) {
      StringTransitive(KindName(a.kind), KindName(b.kind), KindName(c.kind));
    }
  }

  predicate Keyed(t: Tables) {
    && (forall k :: k in t.entries ==> t.entries[k].Key() == k)
    && (forall k :: k in t.rules ==> t.rules[k].Key() == k)
  }

  ghost function EntryKeys(t: Tables): iset<ItemKey> {
    iset k: ItemKey | k.EntryKey? && k.key in t.entries
  }

  ghost function RuleKeys(t: Tables): iset<ItemKey> {
    iset k: ItemKey | k.RuleItemKey? && k.ruleKey in t.rules
  }

  lemma EntryItemsListed(es: seq<DenyEntry>, t: Tables)
    requires Listing(es, EntryKeyOf, t.entries) && Keyed(t)
    ensures var items := EntryItems(es);
      && UniqueItems(items) && ItemKeys(items) == EntryKeys(t)
      && forall i :: 0 <= i < |items| ==> t.At(items[i].Key()) == Some(items[i])
  {
    var items := EntryItems(es);
    forall i | 0 <= i < |items|
      ensures t.At(items[i].Key()) == Some(items[i]) && items[i].Key() in EntryKeys(t)
    {
      assert es[i] in es && EntryKeyOf(es[i]) == es[i].Key();
    }
    forall i, j | 0 <= i < j < |items|
      ensures items[i].Key() != items[j].Key()
    {
      assert EntryKeyOf(es[i]) != EntryKeyOf(es[j]);
    }
    forall k | k in EntryKeys(t)
      ensures k in ItemKeys(items)
    {
      assert EntryKeyOf(t.entries[k.key]) == k.key;
      assert t.entries[k.key] in es;
      var i :| 0 <= i < |es| && es[i] == t.entries[k.key];
      assert items[i].Key() == k;
    }
  }

  lemma RuleItemsListed(rs: seq<RuleEntry>, t: Tables)
    requires Listing(rs, RuleKeyOf, t.rules) && Keyed(t)
    ensures var items := RuleItems(rs);
      && UniqueItems(items) && ItemKeys(items) == RuleKeys(t)
      && forall i :: 0 <= i < |items| ==> t.At(items[i].Key()) == Some(items[i])
  {
    var items := RuleItems(rs);
    forall i | 0 <= i < |items|
      ensures t.At(items[i].Key()) == Some(items[i]) && items[i].Key() in RuleKeys(t)
    {
      assert rs[i] in rs && RuleKeyOf(rs[i]) == rs[i].Key();
    }
    forall i, j | 0 <= i < j < |items|
      ensures items[i].Key() != items[j].Key()
    {
      assert RuleKeyOf(rs[i]) != RuleKeyOf(rs[j]);
    }
    forall k | k in RuleKeys(t)
      ensures k in ItemKeys(items)
    {
      assert RuleKeyOf(t.rules[k.ruleKey]) == k.ruleKey;
      assert t.rules[k.ruleKey] in rs;
      var i :| 0 <= i < |rs| && rs[i] == t.rules[k.ruleKey];
      assert items[i].Key() == k;
    }
  }

  // ---------- the whole rollback ----------

  ghost predicate OrdersOf(orders: Orders, held: Tables, target: Tables) {
    && Listing(orders.entries, EntryKeyOf, held.entries) && Listing(orders.targetEntries, EntryKeyOf, target.entries)
    && Listing(orders.rules, RuleKeyOf, held.rules) && Listing(orders.targetRules, RuleKeyOf, target.rules)
  }

  lemma {:induction false} TargetKeyedEntries(es: seq<DenyEntry>)
    ensures forall k :: k in EntryTable(es) ==> EntryTable(es)[k].Key() == k
  {
    if es != [] {
      TargetKeyedEntries(es[..|es| - 1]);
    }
  }

  lemma {:induction false} TargetKeyedRules(rs: seq<RuleEntry>)
    ensures forall k :: k in RuleTable(rs) ==> RuleTable(rs)[k].Key() == k
  {
    if rs != [] {
      TargetKeyedRules(rs[..|rs| - 1]);
    }
  }

  // what a finished rollback leaves under a key, and how many mutations it took
  predicate KeyOutcome(was: Option<Item>, target: Option<Item>, held: Option<Item>, count: nat) {
    match target
    case Some(t) =>
      if was.Some? && Same(was.value, t) then held == was && count == 0
      else count == 1 && (if t.Action() == Delete then held == None else held.Some? && Same(held.value, t))
    case None => held == None && count == if was.Some? then 1 else 0
  }

  /** A rollback, key by key: one forward mutation for every key whose live record differs from the
      target, none for the others. Applying the plan to the state before, as a peer does, gives the
      planned state, every mutation being new. */
  lemma RestoreOutcome(s: Source, snap: Snapshot, prefix: string, clock: Clock, orders: Orders)
    requires s.Shaped() && Keyed(TablesOf(s)) && OrdersOf(orders, TablesOf(s), TargetOf(snap))
    requires Restore(s, snap, prefix, clock, orders).Ok?
    ensures var p := Restore(s, snap, prefix, clock, orders).value;
      && ReplayPlan(s, p.emitted) == Ok(p.source)
      && forall k :: KeyOutcome(TablesOf(s).At(k), TargetOf(snap).At(k), TablesOf(p.source).At(k),
                                multiset(KeysOf(p.emitted))[k])
  {
    var target := TargetOf(snap);
    TargetKeyedEntries(snap.entries);
    TargetKeyedRules(snap.rules);
    EdgeBase.EntryLeqPreorder();
    RuleKeyLeqPreorder();
    SortedListing(EdgeBase.EntryLeq, orders.entries, EntryKeyOf, s.entries);
    SortedListing(EdgeBase.EntryLeq, orders.targetEntries, EntryKeyOf, target.entries);
    SortedListing(RuleKeyLeq, orders.rules, RuleKeyOf, s.rules);
    SortedListing(RuleKeyLeq, orders.targetRules, RuleKeyOf, target.rules);
    var a := StableSort.Sort(EdgeBase.EntryLeq, orders.entries);
    var b := StableSort.Sort(EdgeBase.EntryLeq, orders.targetEntries);
    var c := StableSort.Sort(RuleKeyLeq, orders.rules);
    var d := StableSort.Sort(RuleKeyLeq, orders.targetRules);
    assert Keyed(target);
    hide Listing, StableSort.Sort, StableSort.Preorder, Deletes, Puts, Progress, TargetOf, TablesOf, Keyed, OrdersOf;
    FourLoops(s, target, prefix, clock, a, b, c, d);
  }

  lemma FourLoops(s: Source, target: Tables, prefix: string, clock: Clock,
                  a: seq<DenyEntry>, b: seq<DenyEntry>, c: seq<RuleEntry>, d: seq<RuleEntry>)
    requires s.Shaped() && Keyed(TablesOf(s)) && Keyed(target)
    requires Listing(a, EntryKeyOf, s.entries) && Listing(b, EntryKeyOf, target.entries)
    requires Listing(c, RuleKeyOf, s.rules) && Listing(d, RuleKeyOf, target.rules)
    ensures var p1 := Deletes(Plan(s, []), prefix, clock, target, EntryItems(a));
      var p2 := Puts(p1, prefix, clock, EntryItems(b));
      var p3 := Deletes(p2, prefix, clock, target, RuleItems(c));
      var p := Puts(p3, prefix, clock, RuleItems(d));
      && ReplayPlan(s, p.emitted) == Ok(p.source)
      && forall k :: KeyOutcome(TablesOf(s).At(k), target.At(k), TablesOf(p.source).At(k), multiset(KeysOf(p.emitted))[k])
  {
    var held := TablesOf(s);
    EntryItemsListed(a, held);
    EntryItemsListed(b, target);
    RuleItemsListed(c, held);
    RuleItemsListed(d, target);
    assert Progress(s, target, Plan(s, []), iset{}, iset{}) by { assert KeysOf([]) == []; }
    hide Listing, Deletes, Puts, Progress, TablesOf, Keyed, UniqueItems, ItemKeys;
    DeletesProgress(s, target, Plan(s, []), iset{}, iset{}, prefix, clock, EntryItems(a));
    var p1 := Deletes(Plan(s, []), prefix, clock, target, EntryItems(a));
    PutsProgress(s, target, p1, iset{} + EntryKeys(held), iset{}, prefix, clock, EntryItems(b));
    var p2 := Puts(p1, prefix, clock, EntryItems(b));
    DeletesProgress(s, target, p2, iset{} + EntryKeys(held), iset{} + EntryKeys(target), prefix, clock, RuleItems(c));
    var p3 := Deletes(p2, prefix, clock, target, RuleItems(c));
    var D := iset{} + EntryKeys(held) + RuleKeys(held);
    PutsProgress(s, target, p3, D, iset{} + EntryKeys(target), prefix, clock, RuleItems(d));
    var p := Puts(p3, prefix, clock, RuleItems(d));
    FinishedProgress(s, target, p, D, iset{} + EntryKeys(target) + RuleKeys(target));
  }

  lemma FinishedProgress(s: Source, target: Tables, p: Plan, D: iset<ItemKey>, U: iset<ItemKey>)
    requires s.Shaped() && Progress(s, target, p, D, U)
    requires forall k :: k in D <==> k in EntryKeys(TablesOf(s)) || k in RuleKeys(TablesOf(s))
    requires forall k :: k in U <==> k in EntryKeys(target) || k in RuleKeys(target)
    ensures ReplayPlan(s, p.emitted) == Ok(p.source)
    ensures forall k :: KeyOutcome(TablesOf(s).At(k), target.At(k), TablesOf(p.source).At(k), multiset(KeysOf(p.emitted))[k])
  {
    forall k
      ensures KeyOutcome(TablesOf(s).At(k), target.At(k), TablesOf(p.source).At(k), multiset(KeysOf(p.emitted))[k])
    {
      assert KeyProgress(TablesOf(s).At(k), target.At(k), TablesOf(p.source).At(k), k in D, k in U,
                         multiset(KeysOf(p.emitted))[k]);
    }
  }

  // ---------- what follows ----------

  ghost predicate NoDeletes(t: Tables) {
    forall k :: t.At(k).Some? ==> t.At(k).value.Action() != Delete
  }

  /** The same keys, each with a semantically equal record. */
  ghost predicate SameTables(a: Tables, b: Tables) {
    forall k :: SameAt(a.At(k), b.At(k))
  }

  predicate SameAt(a: Option<Item>, b: Option<Item>) {
    (a.Some? <==> b.Some?) && (a.Some? ==> Same(a.value, b.value))
  }

  /** Every Delete record of the target is there already. A committed Delete removes a record, so a
      rollback cannot put one back. */
  ghost predicate DeletesLive(was: Tables, target: Tables) {
    forall k :: target.At(k).Some? && target.At(k).value.Action() == Delete ==> SameAt(was.At(k), target.At(k))
  }

  /** A rollback reaches its target exactly when every Delete record of the target is live already. */
  lemma RestoresIff(s: Source, snap: Snapshot, prefix: string, clock: Clock, orders: Orders)
    requires s.Shaped() && Keyed(TablesOf(s))
    requires OrdersOf(orders, TablesOf(s), TargetOf(snap)) && Restore(s, snap, prefix, clock, orders).Ok?
    ensures SameTables(TablesOf(Restore(s, snap, prefix, clock, orders).value.source), TargetOf(snap))
       <==> DeletesLive(TablesOf(s), TargetOf(snap))
  {
    RestoreOutcome(s, snap, prefix, clock, orders);
    var was, target := TablesOf(s), TargetOf(snap);
    var p := Restore(s, snap, prefix, clock, orders).value;
    var now := TablesOf(p.source);
    hide TablesOf, TargetOf, Restore, OrdersOf, Keyed, KeysOf, ReplayPlan;
    forall k
      ensures SameAt(now.At(k), target.At(k)) <==>
        (target.At(k).Some? && target.At(k).value.Action() == Delete ==> SameAt(was.At(k), target.At(k)))
    {
      assert KeyOutcome(was.At(k), target.At(k), now.At(k), multiset(KeysOf(p.emitted))[k]);
    }
  }

  // tables without a Delete record reach every target without one, and no other
  lemma CleanDeletes(was: Tables, target: Tables)
    requires NoDeletes(was)
    ensures DeletesLive(was, target) <==> NoDeletes(target)
  {
    forall k | target.At(k).Some? && target.At(k).value.Action() == Delete
      ensures !SameAt(was.At(k), target.At(k))
    {
    }
  }

  lemma SilentIffSame(was: Tables, target: Tables, ms: seq<Mutation>)
    requires forall k :: multiset(KeysOf(ms))[k] == 0 <==> SameAt(was.At(k), target.At(k))
    ensures ms == [] <==> SameTables(was, target)
  {
    if ms != [] {
      var k := KeysOf(ms)[0];
      assert k in multiset(KeysOf(ms));
    }
    hide KeysOf;
    assert ms == [] ==> KeysOf(ms) == [];
  }

  /** A rollback emits nothing exactly when the live tables already are the target's. */
  lemma EmitsNothingIffSame(s: Source, snap: Snapshot, prefix: string, clock: Clock, orders: Orders)
    requires s.Shaped() && Keyed(TablesOf(s))
    requires OrdersOf(orders, TablesOf(s), TargetOf(snap)) && Restore(s, snap, prefix, clock, orders).Ok?
    ensures Restore(s, snap, prefix, clock, orders).value.emitted == [] <==> SameTables(TablesOf(s), TargetOf(snap))
  {
    RestoreOutcome(s, snap, prefix, clock, orders);
    var was, target := TablesOf(s), TargetOf(snap);
    var p := Restore(s, snap, prefix, clock, orders).value;
    hide TablesOf, TargetOf, Restore, OrdersOf, Keyed, KeysOf, ReplayPlan;
    forall k
      ensures multiset(KeysOf(p.emitted))[k] == 0 <==> SameAt(was.At(k), target.At(k))
    {
      assert KeyOutcome(was.At(k), target.At(k), TablesOf(p.source).At(k), multiset(KeysOf(p.emitted))[k]);
    }
    SilentIffSame(was, target, p.emitted);
  }

  // a rollback leaves keyed tables in a source of the same shape
  lemma RestoredKeyed(s: Source, snap: Snapshot, prefix: string, clock: Clock, orders: Orders)
    requires s.Shaped() && Keyed(TablesOf(s))
    requires OrdersOf(orders, TablesOf(s), TargetOf(snap)) && Restore(s, snap, prefix, clock, orders).Ok?
    ensures var t := Restore(s, snap, prefix, clock, orders).value.source;
      t.Shaped() && t.shardCount == s.shardCount && Keyed(TablesOf(t))
  {
    RestoreOutcome(s, snap, prefix, clock, orders);
    TargetKeyedEntries(snap.entries);
    TargetKeyedRules(snap.rules);
    var was, target := TablesOf(s), TargetOf(snap);
    var p := Restore(s, snap, prefix, clock, orders).value;
    var now := TablesOf(p.source);
    KeyedAt(was);
    KeyedAt(target);
    hide TablesOf, TargetOf, Restore, OrdersOf, Keyed, KeysOf, KeyOutcome;
    forall k | now.At(k).Some?
      ensures now.At(k).value.Key() == k
    {
      OutcomeKeyed(was.At(k), target.At(k), now.At(k), multiset(KeysOf(p.emitted))[k], k);
    }
    KeyedAt(now);
  }

  lemma OutcomeKeyed(was: Option<Item>, target: Option<Item>, held: Option<Item>, count: nat, k: ItemKey)
    requires KeyOutcome(was, target, held, count) && held.Some?
    requires (was.Some? ==> was.value.Key() == k) && (target.Some? ==> target.value.Key() == k)
    ensures held.value.Key() == k
  {
  }

  lemma KeyedAt(t: Tables)
    ensures Keyed(t) <==> forall k :: t.At(k).Some? ==> t.At(k).value.Key() == k
  {
    if forall k :: t.At(k).Some? ==> t.At(k).value.Key() == k {
      forall k | k in t.entries
        ensures t.entries[k].Key() == k
      {
        assert t.At(EntryKey(k)).value.Key() == EntryKey(k);
      }
      forall k | k in t.rules
        ensures t.rules[k].Key() == k
      {
        assert t.At(RuleItemKey(k)).value.Key() == RuleItemKey(k);
      }
    }
  }

  /** A second rollback to the same target succeeds too; it emits nothing exactly when every Delete
      record of the target was live before the first. */
  lemma SecondRestoreSilentIff(s: Source, snap: Snapshot, prefix: string, clock: Clock, orders: Orders,
                               again: string, later: Clock, orders2: Orders)
    requires s.Shaped() && Keyed(TablesOf(s))
    requires OrdersOf(orders, TablesOf(s), TargetOf(snap)) && Restore(s, snap, prefix, clock, orders).Ok?
    requires OrdersOf(orders2, TablesOf(Restore(s, snap, prefix, clock, orders).value.source), TargetOf(snap))
    ensures var r := Restore(Restore(s, snap, prefix, clock, orders).value.source, snap, again, later, orders2);
      r.Ok? && (r.value.emitted == [] <==> DeletesLive(TablesOf(s), TargetOf(snap)))
  {
    RestoresIff(s, snap, prefix, clock, orders);
    RestoredKeyed(s, snap, prefix, clock, orders);
    hide Keyed, DeletesLive, OrdersOf, SameTables, Deletes, Puts, StableSort.Sort, TargetOf, TablesOf;
    EmitsNothingIffSame(Restore(s, snap, prefix, clock, orders).value.source, snap, again, later, orders2);
  }

  ghost predicate FreshDistinctOps(s: Source, ms: seq<Mutation>) {
    && (forall i :: 0 <= i < |ms| ==> ms[i].opId !in s.opIndex)
    && (forall i, j :: 0 <= i < j < |ms| ==> ms[i].opId != ms[j].opId)
  }

  function OpsOf(ms: seq<Mutation>): set<string> {
    set i: nat | i < |ms| :: ms[i].opId
  }

  // the last mutation of a plan
  lemma PlanLast(s: Source, ms: seq<Mutation>)
    requires s.Shaped() && ms != [] && ReplayPlan(s, ms).Ok?
    ensures var init, m := ms[..|ms| - 1], ms[|ms| - 1];
      && ReplayPlan(s, init).Ok?
      && var mid, t := ReplayPlan(s, init).value, ReplayPlan(s, ms).value; var shard := m.commitId.shardId;
      && m.opId !in mid.opIndex && t.opIndex == mid.opIndex[m.opId := m]
      && shard < s.shardCount && m.commitId.seqNo == mid.watermarks[shard] + 1
      && t.watermarks == mid.watermarks[shard := m.commitId.seqNo]
      && t.history == mid.history + [m]
  {
    var init, m := ms[..|ms| - 1], ms[|ms| - 1];
    ApplyReplicatedApplied(ReplayPlan(s, init).value, m);
    hide ApplyReplicated;
  }

  lemma FreshPush(s: Source, ms: seq<Mutation>, m: Mutation)
    requires FreshDistinctOps(s, ms) && m.opId !in s.opIndex && m.opId !in OpsOf(ms)
    ensures FreshDistinctOps(s, ms + [m]) && OpsOf(ms + [m]) == OpsOf(ms) + {m.opId}
  {
    forall i | 0 <= i < |ms|
      ensures ms[i].opId != m.opId && ms[i].opId in OpsOf(ms)
    {
    }
    var all := ms + [m];
    forall op
      ensures op in OpsOf(all) <==> op in OpsOf(ms) || op == m.opId
    {
      if op in OpsOf(ms) {
        var i: nat :| i < |ms| && ms[i].opId == op;
        assert all[i].opId == op;
      }
      assert all[|ms|].opId == m.opId;
    }
  }

  lemma {:induction false} PlanOpsFresh(s: Source, ms: seq<Mutation>)
    requires s.Shaped() && ReplayPlan(s, ms).Ok?
    ensures FreshDistinctOps(s, ms) && ReplayPlan(s, ms).value.opIndex.Keys == s.opIndex.Keys + OpsOf(ms)
  {
    if ms == [] {
      assert OpsOf(ms) == {};
    } else {
      var init, m := ms[..|ms| - 1], ms[|ms| - 1];
      PlanLast(s, ms);
      assert ms == init + [m];
      hide *;
      PlanOpsFresh(s, init);
      FreshPush(s, init, m);
      var mid, t := ReplayPlan(s, init).value, ReplayPlan(s, ms).value;
      assert t.opIndex.Keys == mid.opIndex.Keys + {m.opId};
      assert s.opIndex.Keys + (OpsOf(init) + {m.opId}) == (s.opIndex.Keys + OpsOf(init)) + {m.opId};
    }
  }

  /** Whatever a plan is, applying it numbers each shard's mutations upwards from its watermark and
      never lowers one; the plan joins the history. */
  lemma {:induction false} PlanMovesForward(s: Source, ms: seq<Mutation>)
    requires s.Shaped() && ReplayPlan(s, ms).Ok?
    ensures var t := ReplayPlan(s, ms).value;
      && (forall shard :: 0 <= shard < s.shardCount ==>
            t.watermarks[shard] == s.watermarks[shard] + |Project(ms, shard)|)
      && t.history == s.history + ms
  {
    if ms == [] {
      assert s.history + ms == s.history;
    } else {
      var init, m := ms[..|ms| - 1], ms[|ms| - 1];
      PlanLast(s, ms);
      PlanMovesForward(s, init);
      hide ReplayPlan;
      assert ms == init + [m];
      assert s.history + ms == s.history + init + [m];
    }
  }

  /** In particular a rollback's op ids are fresh and distinct, and no watermark falls. */
  lemma RestoreMovesForward(s: Source, snap: Snapshot, prefix: string, clock: Clock, orders: Orders)
    requires s.Shaped() && Keyed(TablesOf(s))
    requires OrdersOf(orders, TablesOf(s), TargetOf(snap)) && Restore(s, snap, prefix, clock, orders).Ok?
    ensures var p := Restore(s, snap, prefix, clock, orders).value;
      && FreshDistinctOps(s, p.emitted)
      && |p.source.watermarks| == s.shardCount
      && forall shard :: 0 <= shard < s.shardCount ==> s.watermarks[shard] <= p.source.watermarks[shard]
  {
    RestoreOutcome(s, snap, prefix, clock, orders);
    PlanMovesForward(s, Restore(s, snap, prefix, clock, orders).value.emitted);
    PlanOpsFresh(s, Restore(s, snap, prefix, clock, orders).value.emitted);
    hide Restore, ReplayPlan, TablesOf, TargetOf, OrdersOf, Keyed, FreshDistinctOps;
  }
}
