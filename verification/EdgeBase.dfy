/** The immutable base of the edge's table (ImmutableBase, SymbolTable, CompactDenyEntry and
    NegativeFilter in crates/globacl-core/src/lib/active_state.rs): sorted, deduplicated, interned,
    sorted again by symbol id, and guarded by a Bloom-style filter. It answers every key as the plain
    table of its entries does. */
module EdgeBase {
  import opened Domain
  import opened Text
  import opened NegativeFilter
  import StableSort

  // ---------- symbols ----------

  datatype Symbols = Symbols(values: seq<string>, ids: map<string, nat>)
  {
    predicate Valid() {
      && (forall i :: 0 <= i < |values| ==> values[i] in ids && ids[values[i]] == i)
      && (forall v :: v in ids ==> ids[v] < |values| && values[ids[v]] == v)
    }

    // SymbolTable::id
    function Id(v: string): Option<nat> {
      Get(ids, v)
    }
  }

  const NO_SYMBOLS := Symbols([], map[])

  // SymbolTable::intern
  function Intern(t: Symbols, v: string): (r: (Symbols, nat))
    requires t.Valid()
    ensures r.0.Valid() && t.values <= r.0.values
    ensures r.1 < |r.0.values| && r.0.values[r.1] == v
  {
    if v in t.ids then (t, t.ids[v])
    else (Symbols(t.values + [v], t.ids[v := |t.values|]), |t.values|)
  }

  class SymbolTable {
    var values: seq<string>
    var ids: map<string, nat>

    function Value(): Symbols
      reads this
    {
      Symbols(values, ids)
    }

    constructor ()
      ensures Value() == NO_SYMBOLS
    {
      values, ids := [], map[];
    }

    // SymbolTable::intern
    method InternValue(v: string) returns (id: nat)
      requires Value().Valid()
      modifies this
      ensures (Value(), id) == Intern(old(Value()), v)
    {
      if v in ids {
        return ids[v];
      }
      id := |values|;
      values := values + [v];
      ids := ids[v := id];
    }
  }

  // ---------- compact entries ----------

  datatype CompactEntry = CompactEntry(
    keyHash: nat, expiresAt: nat, commitSeq: nat, priority: nat,
    tenant: nat, namespace: nat, reason: nat, createdBy: nat, shardId: nat, action: Action)
  {
    predicate In(t: Symbols) {
      tenant < |t.values| && namespace < |t.values| && reason < |t.values| && createdBy < |t.values|
    }

    // to_deny_entry
    function Expand(t: Symbols): DenyEntry
      requires In(t)
    {
      DenyEntry(t.values[tenant], t.values[namespace], keyHash, action, priority, t.values[reason],
                expiresAt, t.values[createdBy], commitSeq, shardId)
    }
  }

  // CompactDenyEntry::from_entry
  function Shrink(e: DenyEntry, t: Symbols): (r: (CompactEntry, Symbols))
    requires t.Valid()
    ensures r.1.Valid() && t.values <= r.1.values && r.0.In(r.1) && r.0.Expand(r.1) == e
  {
    var (t1, tenant) := Intern(t, e.tenantId);
    var (t2, namespace) := Intern(t1, e.namespace);
    var (t3, reason) := Intern(t2, e.reasonCode);
    var (t4, createdBy) := Intern(t3, e.createdBy);
    (CompactEntry(e.keyHash, e.expiresAt, e.commitSeq, e.priority, tenant, namespace, reason, createdBy,
                  e.shardId, e.action), t4)
  }

  lemma ExpandInLarger(c: CompactEntry, t: Symbols, u: Symbols)
    requires c.In(t) && t.values <= u.values
    ensures c.In(u) && c.Expand(u) == c.Expand(t)
  {
  }

  // the compact entries stand for es
  predicate Expands(cs: seq<CompactEntry>, t: Symbols, es: seq<DenyEntry>) {
    t.Valid() && |cs| == |es| && forall i :: 0 <= i < |cs| ==> cs[i].In(t) && cs[i].Expand(t) == es[i]
  }

  lemma ShrinkExpands(cs: seq<CompactEntry>, t: Symbols, es: seq<DenyEntry>, e: DenyEntry)
    requires Expands(cs, t, es)
    ensures Expands(cs + [Shrink(e, t).0], Shrink(e, t).1, es + [e])
  {
    var (c, u) := Shrink(e, t);
    hide Shrink;
    forall i | 0 <= i < |cs|
      ensures cs[i].In(u) && cs[i].Expand(u) == es[i]
    {
      ExpandInLarger(cs[i], t, u);
    }
    hide CompactEntry.In, CompactEntry.Expand, Symbols.Valid;
  }

  // one round of the interning loop of from_entries
  function ShrinkNext(cs: seq<CompactEntry>, t: Symbols, ghost es: seq<DenyEntry>, e: DenyEntry)
    : (r: (seq<CompactEntry>, Symbols))
    requires Expands(cs, t, es)
    ensures Expands(r.0, r.1, es + [e])
  {
    ShrinkExpands(cs, t, es, e);
    (cs + [Shrink(e, t).0], Shrink(e, t).1)
  }

  // the interning loop of from_entries
  function ShrinkAll(es: seq<DenyEntry>): (r: (seq<CompactEntry>, Symbols))
    ensures Expands(r.0, r.1, es)
  {
    if es == [] then ([], NO_SYMBOLS)
    else
      var init, last := es[..|es| - 1], es[|es| - 1];
      var (cs, t) := ShrinkAll(init);
      assert init + [last] == es;
      ShrinkNext(cs, t, init, last)
  }

  // ---------- sorting and deduplicating ----------

  // compare_entries_by_key, as "not greater"
  predicate EntryLeq(a: DenyEntry, b: DenyEntry) {
    if a.tenantId != b.tenantId then StringLeq(a.tenantId, b.tenantId)
    else if a.namespace != b.namespace then StringLeq(a.namespace, b.namespace)
    else a.keyHash <= b.keyHash
  }

  lemma EntryLeqPreorder()
    ensures StableSort.Preorder(EntryLeq)
    ensures forall a, b :: EntryLeq(a, b) && EntryLeq(b, a) ==> a.Key() == b.Key()
  {
    forall a: DenyEntry, b: DenyEntry
      ensures EntryLeq(a, b) || EntryLeq(b, a)
      ensures EntryLeq(a, b) && EntryLeq(b, a) ==> a.Key() == b.Key()
    {
      StringTotal(a.tenantId, b.tenantId);
      StringTotal(a.namespace, b.namespace);
    }
    forall a: DenyEntry, b: DenyEntry, c: DenyEntry | EntryLeq(a, b) && EntryLeq(b, c)
      ensures EntryLeq(a, c)
    {
      EntryTransitive(a, b, c);
    }
  }

  lemma EntryTransitive(a: DenyEntry, b: DenyEntry, c: DenyEntry)
    requires EntryLeq(a, b) && EntryLeq(b, c)
    ensures EntryLeq(a, c)
  {
    StringTotal(a.tenantId, b.tenantId);
    StringTotal(b.tenantId, c.tenantId);
    StringTotal(a.namespace, b.namespace);
    StringTotal(b.namespace, c.namespace);
    if StringLeq(a.tenantId, b.tenantId) && StringLeq(b.tenantId, c.tenantId) {
      StringTransitive(a.tenantId, b.tenantId, c.tenantId);
    }
    if StringLeq(a.namespace, b.namespace) && StringLeq(b.namespace, c.namespace) {
      StringTransitive(a.namespace, b.namespace, c.namespace);
    }
  }

  // one round of the dedupe loop of from_entries
  function DedupeNext(kept: seq<DenyEntry>, e: DenyEntry): seq<DenyEntry> {
    if kept != [] && kept[|kept| - 1].Key() == e.Key() then
      if e.commitSeq >= kept[|kept| - 1].commitSeq then kept[..|kept| - 1] + [e] else kept
    else kept + [e]
  }

  function Dedupe(es: seq<DenyEntry>): seq<DenyEntry> {
    if es == [] then [] else DedupeNext(Dedupe(es[..|es| - 1]), es[|es| - 1])
  }

  /** What a list of entries says about a key: the greatest sequence number wins, the later one on a
      tie. */
  function NewestIn(es: seq<DenyEntry>): Option<DenyEntry> {
    if es == [] then None
    else
      var last := es[|es| - 1];
      match NewestIn(es[..|es| - 1])
      case None => Some(last)
      case Some(e) => if last.commitSeq >= e.commitSeq then Some(last) else Some(e)
  }

  function HasKey(k: AclKey): DenyEntry -> bool {
    (e: DenyEntry) => e.Key() == k
  }

  function NewestOf(es: seq<DenyEntry>, k: AclKey): Option<DenyEntry> {
    NewestIn(StableSort.Filter(HasKey(k), es))
  }

  lemma {:induction false} FilterConcat<T>(p: T -> bool, a: seq<T>, b: seq<T>)
    ensures StableSort.Filter(p, a + b) == StableSort.Filter(p, a) + StableSort.Filter(p, b)
  {
    if a == [] {
      assert a + b == b;
    } else {
      assert (a + b)[1..] == a[1..] + b;
      FilterConcat(p, a[1..], b);
      var head := if p(a[0]) then [a[0]] else [];
      assert head + (StableSort.Filter(p, a[1..]) + StableSort.Filter(p, b))
          == (head + StableSort.Filter(p, a[1..])) + StableSort.Filter(p, b);
    }
  }

  lemma NewestOfPush(es: seq<DenyEntry>, e: DenyEntry, k: AclKey)
    ensures NewestOf(es + [e], k) ==
      if e.Key() != k then NewestOf(es, k)
      else match NewestOf(es, k)
           case None => Some(e)
           case Some(held) => if e.commitSeq >= held.commitSeq then Some(e) else Some(held)
  {
    FilterConcat(HasKey(k), es, [e]);
    var own := StableSort.Filter(HasKey(k), es);
    assert StableSort.Filter(HasKey(k), [e]) == if e.Key() == k then [e] else [];
    assert own + [] == own && (own + [e])[..|own|] == own;
  }

  ghost predicate StrictlyAscending(d: seq<DenyEntry>) {
    forall i, j :: 0 <= i < j < |d| ==> EntryLeq(d[i], d[j]) && d[i].Key() != d[j].Key()
  }

  // d holds the newest entry of every key
  ghost predicate NewestKept(d: seq<DenyEntry>, es: seq<DenyEntry>, k: AclKey) {
    match NewestOf(es, k)
    case None => forall i :: 0 <= i < |d| ==> d[i].Key() != k
    case Some(e) => e in d && e.Key() == k
  }

  ghost predicate Deduped(d: seq<DenyEntry>, es: seq<DenyEntry>) {
    && StrictlyAscending(d) && (d == [] <==> es == [])
    && (es != [] ==> d[|d| - 1].Key() == es[|es| - 1].Key())
    && (forall k :: NewestKept(d, es, k))
  }

  /** Deduplicating an ordered list leaves exactly the newest entry of every key, in strict order. */
  lemma {:induction false} DedupeKeepsNewest(es: seq<DenyEntry>)
    requires StableSort.Ordered(EntryLeq, es)
    ensures Deduped(Dedupe(es), es)
  {
    if es == [] {
      assert forall k :: NewestOf([], k) == None;
    } else {
      hide Deduped, EntryLeq;
      var init, e := es[..|es| - 1], es[|es| - 1];
      DedupeKeepsNewest(init);
      DedupeStep(Dedupe(init), init, e);
      assert init + [e] == es;
    }
  }

  lemma DedupeStep(d: seq<DenyEntry>, es: seq<DenyEntry>, e: DenyEntry)
    requires Deduped(d, es) && (es != [] ==> EntryLeq(es[|es| - 1], e))
    ensures Deduped(DedupeNext(d, e), es + [e])
  {
    var d' := DedupeNext(d, e);
    if es != [] {
      SameKeyLeq(d[|d| - 1], es[|es| - 1]);
      EntryTransitive(d[|d| - 1], es[|es| - 1], e);
    }
    AscendingNext(d, e);
    hide EntryLeq, NewestOf, DedupeNext;
    forall k
      ensures NewestKept(d', es + [e], k)
    {
      assert NewestKept(d, es, k);
      KeptNext(d, es, e, k);
    }
  }

  lemma AscendingNext(d: seq<DenyEntry>, e: DenyEntry)
    requires StrictlyAscending(d) && (d != [] ==> EntryLeq(d[|d| - 1], e))
    ensures var d' := DedupeNext(d, e); StrictlyAscending(d') && d'[|d'| - 1].Key() == e.Key()
    ensures d != [] && d[|d| - 1].Key() != e.Key() ==> forall i :: 0 <= i < |d| ==> d[i].Key() != e.Key()
  {
    EntryLeqPreorder();
    hide EntryLeq;
    if d != [] {
      var last := d[|d| - 1];
      forall i | 0 <= i < |d|
        ensures EntryLeq(d[i], e) && (last.Key() != e.Key() ==> d[i].Key() != e.Key())
        ensures i < |d| - 1 ==> d[i].Key() != last.Key()
      {
        assert EntryLeq(d[i], last) && EntryLeq(last, e);
        SameKeyLeq(e, d[i]);
      }
    }
  }

  lemma SameKeyLeq(a: DenyEntry, b: DenyEntry)
    ensures a.Key() == b.Key() ==> EntryLeq(a, b)
  {
  }

  lemma KeptNext(d: seq<DenyEntry>, es: seq<DenyEntry>, e: DenyEntry, k: AclKey)
    requires StrictlyAscending(d) && NewestKept(d, es, k)
    requires d != [] && d[|d| - 1].Key() != e.Key() ==> forall i :: 0 <= i < |d| ==> d[i].Key() != e.Key()
    ensures NewestKept(DedupeNext(d, e), es + [e], k)
  {
    hide EntryLeq, NewestOf;
    NewestOfPush(es, e, k);
    var d' := DedupeNext(d, e);
    if d != [] && d[|d| - 1].Key() == e.Key() {
      assert forall i :: 0 <= i < |d| - 1 ==> d[i].Key() != e.Key();
      assert e.Key() != k ==> forall x :: x in d && x.Key() == k ==> x in d[..|d| - 1];
    }
  }

  // ---------- the base ----------

  // compare_compact_entries_by_key, as "not greater"
  predicate CompactLeq(a: CompactEntry, b: CompactEntry) {
    if a.tenant != b.tenant then a.tenant < b.tenant
    else if a.namespace != b.namespace then a.namespace < b.namespace
    else a.keyHash <= b.keyHash
  }

  predicate At(c: CompactEntry, tenant: nat, namespace: nat, keyHash: nat) {
    c.tenant == tenant && c.namespace == namespace && c.keyHash == keyHash
  }

  // compare_compact_entry_to_key is Less
  predicate Before(c: CompactEntry, tenant: nat, namespace: nat, keyHash: nat) {
    if c.tenant != tenant then c.tenant < tenant
    else if c.namespace != namespace then c.namespace < namespace
    else c.keyHash < keyHash
  }

  datatype Base = Base(entries: seq<CompactEntry>, symbols: Symbols, filter: Filter)

  function KeyOf(c: CompactEntry, t: Symbols): AclKey
    requires c.In(t)
  {
    c.Expand(t).Key()
  }

  function PairOf(pair: KeyPair, k: AclKey): (nat, nat) {
    pair(k.tenantId, k.namespace, k.keyHash)
  }

  predicate AllIn(cs: seq<CompactEntry>, t: Symbols) {
    forall i :: 0 <= i < |cs| ==> cs[i].In(t)
  }

  function Pairs(cs: seq<CompactEntry>, t: Symbols, pair: KeyPair): (r: seq<(nat, nat)>)
    requires AllIn(cs, t)
    ensures |r| == |cs| && forall i :: 0 <= i < |cs| ==> r[i] == PairOf(pair, KeyOf(cs[i], t))
  {
    seq(|cs|, i requires 0 <= i < |cs| => PairOf(pair, KeyOf(cs[i], t)))
  }

  // from_entries, once the list is ordered and deduplicated
  function CompactBase(d: seq<DenyEntry>, pair: KeyPair): (b: Base)
    ensures b.filter.Valid() && b.symbols.Valid()
  {
    var (cs, t) := ShrinkAll(d);
    SortedIn(cs, t);
    var sorted := StableSort.Sort(CompactLeq, cs);
    Base(sorted, t, BuildFilter(Pairs(sorted, t, pair)))
  }

  // ImmutableBase::from_entries
  function BuildBase(es: seq<DenyEntry>, pair: KeyPair): Base {
    CompactBase(Dedupe(StableSort.Sort(EntryLeq, es)), pair)
  }

  lemma CompactLeqPreorder()
    ensures StableSort.Preorder(CompactLeq)
  {
  }

  lemma SortedIn(cs: seq<CompactEntry>, t: Symbols)
    requires AllIn(cs, t)
    ensures AllIn(StableSort.Sort(CompactLeq, cs), t)
  {
    var sorted := StableSort.Sort(CompactLeq, cs);
    CompactLeqPreorder();
    forall i | 0 <= i < |sorted|
      ensures sorted[i].In(t)
    {
      StableSort.SortMembers(CompactLeq, cs, sorted[i]);
    }
  }

  // the dedupe loop of from_entries
  method DedupeLoop(ordered: seq<DenyEntry>) returns (kept: seq<DenyEntry>)
    ensures kept == Dedupe(ordered)
  {
    kept := [];
    for i := 0 to |ordered|
      invariant kept == Dedupe(ordered[..i])
    {
      assert ordered[..i + 1][..i] == ordered[..i];
      if kept != [] && kept[|kept| - 1].Key() == ordered[i].Key() {
        if ordered[i].commitSeq >= kept[|kept| - 1].commitSeq {
          kept := kept[..|kept| - 1] + [ordered[i]];
        }
      } else {
        kept := kept + [ordered[i]];
      }
    }
    assert ordered[..|ordered|] == ordered;
  }

  // CompactDenyEntry::from_entry
  method ShrinkEntry(e: DenyEntry, symbols: SymbolTable) returns (c: CompactEntry)
    requires symbols.Value().Valid()
    modifies symbols
    ensures (c, symbols.Value()) == Shrink(e, old(symbols.Value()))
  {
    var tenant := symbols.InternValue(e.tenantId);
    var namespace := symbols.InternValue(e.namespace);
    var reason := symbols.InternValue(e.reasonCode);
    var createdBy := symbols.InternValue(e.createdBy);
    c := CompactEntry(e.keyHash, e.expiresAt, e.commitSeq, e.priority, tenant, namespace, reason, createdBy,
                      e.shardId, e.action);
  }

  // ImmutableBase::from_entries
  method FromEntries(es: seq<DenyEntry>, pair: KeyPair) returns (b: Base)
    ensures b == BuildBase(es, pair)
  {
    var kept := DedupeLoop(StableSort.Sort(EntryLeq, es));
    var compact, symbols := ShrinkLoop(kept);
    hide ShrinkAll, Dedupe, StableSort.Sort;
    SortedIn(compact, symbols);
    var sorted := StableSort.Sort(CompactLeq, compact);
    var filter := FromPairs(Pairs(sorted, symbols, pair));
    return Base(sorted, symbols, filter);
  }

  // its interning loop
  method ShrinkLoop(kept: seq<DenyEntry>) returns (compact: seq<CompactEntry>, symbols: Symbols)
    ensures (compact, symbols) == ShrinkAll(kept)
  {
    var table := new SymbolTable();
    compact := [];
    for i := 0 to |kept|
      invariant fresh(table) && (compact, table.Value()) == ShrinkAll(kept[..i])
    {
      ShrinkAllPush(kept, i);
      hide Shrink, ShrinkAll, Symbols.Valid, CompactEntry.In, CompactEntry.Expand;
      var c := ShrinkEntry(kept[i], table);
      compact := compact + [c];
    }
    assert kept[..|kept|] == kept;
    symbols := table.Value();
  }

  lemma ShrinkAllPush(es: seq<DenyEntry>, i: nat)
    requires i < |es|
    ensures var (cs, t) := ShrinkAll(es[..i]);
      && t.Valid()
      && ShrinkAll(es[..i + 1]) == (cs + [Shrink(es[i], t).0], Shrink(es[i], t).1)
  {
    assert es[..i + 1][..i] == es[..i];
    hide Shrink;
  }

  // slice::binary_search_by
  function BinarySearch(cs: seq<CompactEntry>, tenant: nat, namespace: nat, keyHash: nat, lo: nat, hi: nat): (r: Option<nat>)
    requires lo <= hi <= |cs|
    ensures r.Some? ==> lo <= r.value < hi && At(cs[r.value], tenant, namespace, keyHash)
    decreases hi - lo
  {
    if lo == hi then None
    else
      var mid := (lo + hi) / 2;
      if At(cs[mid], tenant, namespace, keyHash) then Some(mid)
      else if Before(cs[mid], tenant, namespace, keyHash) then BinarySearch(cs, tenant, namespace, keyHash, mid + 1, hi)
      else BinarySearch(cs, tenant, namespace, keyHash, lo, mid)
  }

  lemma {:induction false} BinarySearchMisses(
    cs: seq<CompactEntry>, tenant: nat, namespace: nat, keyHash: nat, lo: nat, hi: nat, i: nat)
    requires StableSort.Ordered(CompactLeq, cs) && lo <= i < hi <= |cs|
    requires BinarySearch(cs, tenant, namespace, keyHash, lo, hi) == None
    ensures !At(cs[i], tenant, namespace, keyHash)
    decreases hi - lo
  {
    var mid := (lo + hi) / 2;
    if Before(cs[mid], tenant, namespace, keyHash) {
      if i > mid { BinarySearchMisses(cs, tenant, namespace, keyHash, mid + 1, hi, i); }
    } else {
      if i < mid { BinarySearchMisses(cs, tenant, namespace, keyHash, lo, mid, i); }
    }
  }

  // lookup_exact_parts
  function LookupExact(b: Base, k: AclKey): Option<CompactEntry> {
    match (b.symbols.Id(k.tenantId), b.symbols.Id(k.namespace))
    case (Some(tenant), Some(namespace)) =>
      (match BinarySearch(b.entries, tenant, namespace, k.keyHash, 0, |b.entries|)
       case Some(i) => Some(b.entries[i])
       case None => None)
    case _ => None
  }

  // lookup_parts
  function LookupParts(b: Base, pair: KeyPair, k: AclKey): Option<CompactEntry>
    requires b.filter.Valid()
  {
    if MayContain(b.filter, PairOf(pair, k)) then LookupExact(b, k) else None
  }

  /** The base stands for a table. */
  ghost predicate Holds(b: Base, pair: KeyPair, table: map<AclKey, DenyEntry>) {
    && b.symbols.Valid() && b.filter.Valid() && AllIn(b.entries, b.symbols)
    && StableSort.Ordered(CompactLeq, b.entries)
    && (forall i :: 0 <= i < |b.entries| ==> Filed(b, pair, table, b.entries[i]))
    && (forall k :: k in table ==> Covers(b, k))
  }

  predicate Covers(b: Base, k: AclKey) {
    exists c :: c in b.entries && c.In(b.symbols) && KeyOf(c, b.symbols) == k
  }

  predicate Filed(b: Base, pair: KeyPair, table: map<AclKey, DenyEntry>, c: CompactEntry)
    requires b.filter.Valid()
  {
    && c.In(b.symbols)
    && Get(table, KeyOf(c, b.symbols)) == Some(c.Expand(b.symbols))
    && MayContain(b.filter, PairOf(pair, KeyOf(c, b.symbols)))
  }

  // what a lookup in the base means
  predicate Answers(b: Base, found: Option<CompactEntry>, entry: Option<DenyEntry>) {
    match found
    case None => entry == None
    case Some(c) => c.In(b.symbols) && entry == Some(c.Expand(b.symbols))
  }

  // an entry of the table is in the compact list, under its symbols
  lemma FiledUnder(b: Base, pair: KeyPair, table: map<AclKey, DenyEntry>, k: AclKey) returns (i: nat)
    requires Holds(b, pair, table) && k in table
    ensures i < |b.entries| && Filed(b, pair, table, b.entries[i]) && KeyOf(b.entries[i], b.symbols) == k
    ensures b.symbols.Id(k.tenantId) == Some(b.entries[i].tenant)
    ensures b.symbols.Id(k.namespace) == Some(b.entries[i].namespace)
  {
    hide MayContain, StableSort.Ordered;
    assert Covers(b, k);
    var c :| c in b.entries && c.In(b.symbols) && KeyOf(c, b.symbols) == k;
    i :| 0 <= i < |b.entries| && b.entries[i] == c;
    assert Filed(b, pair, table, b.entries[i]);
  }

  lemma ExactAnswers(b: Base, pair: KeyPair, table: map<AclKey, DenyEntry>, k: AclKey)
    requires Holds(b, pair, table)
    ensures Answers(b, LookupExact(b, k), Get(table, k))
  {
    if k in table {
      var i := FiledUnder(b, pair, table, k);
      if LookupExact(b, k) == None {
        BinarySearchMisses(b.entries, b.entries[i].tenant, b.entries[i].namespace, k.keyHash, 0, |b.entries|, i);
      }
    }
    FoundIsFiled(b, pair, table, k);
    hide Holds, LookupExact, BinarySearch;
  }

  lemma FoundIsFiled(b: Base, pair: KeyPair, table: map<AclKey, DenyEntry>, k: AclKey)
    requires Holds(b, pair, table)
    ensures var found := LookupExact(b, k);
      found.Some? ==> found.value.In(b.symbols) && Get(table, k) == Some(found.value.Expand(b.symbols))
  {
    hide MayContain, StableSort.Ordered;
    var found := LookupExact(b, k);
    if found.Some? {
      assert found.value in b.entries;
      var i :| 0 <= i < |b.entries| && b.entries[i] == found.value;
      assert Filed(b, pair, table, b.entries[i]);
      assert KeyOf(found.value, b.symbols) == k;
    }
  }

  /** A lookup through the filter, the symbols and the binary search answers as the table does. */
  lemma LookupAnswers(b: Base, pair: KeyPair, table: map<AclKey, DenyEntry>, k: AclKey)
    requires Holds(b, pair, table)
    ensures Answers(b, LookupParts(b, pair, k), Get(table, k))
  {
    ExactAnswers(b, pair, table, k);
    if k in table {
      var i := FiledUnder(b, pair, table, k);
    }
    hide LookupExact, MayContain, Symbols.Valid, StableSort.Ordered;
  }

  // decision_for_parts
  function DecisionForParts(b: Base, pair: KeyPair, k: AclKey, now: nat): Decision
    requires b.filter.Valid()
  {
    match LookupParts(b, pair, k)
    case None => Allow
    case Some(c) =>
      if c.expiresAt != 0 && c.expiresAt <= now then Allow
      else if c.action != Deny then Allow
      else Denied(if c.reason < |b.symbols.values| then b.symbols.values[c.reason] else "",
                  c.priority, CommitId(c.shardId, c.commitSeq, 1, ""))
  }

  lemma DecisionAnswers(b: Base, pair: KeyPair, table: map<AclKey, DenyEntry>, k: AclKey, now: nat)
    requires Holds(b, pair, table)
    ensures DecisionForParts(b, pair, k, now) == DecisionForEntry(Get(table, k), now)
  {
    LookupAnswers(b, pair, table, k);
    hide Holds, LookupParts;
  }

  // ---------- building it ----------

  function KeysOf(es: seq<DenyEntry>): set<AclKey> {
    set e | e in es :: e.Key()
  }

  /** What a list of entries stands for. */
  function TableOf(es: seq<DenyEntry>): map<AclKey, DenyEntry> {
    map k | k in KeysOf(es) && NewestOf(es, k).Some? :: NewestOf(es, k).value
  }

  lemma {:induction false} NewestInMember(es: seq<DenyEntry>)
    ensures es != [] ==> NewestIn(es).Some? && NewestIn(es).value in es
  {
    if es != [] {
      NewestInMember(es[..|es| - 1]);
    }
  }

  lemma {:induction false} FilterMembers<T>(p: T -> bool, xs: seq<T>, x: T)
    ensures x in StableSort.Filter(p, xs) <==> x in xs && p(x)
  {
    if xs != [] {
      FilterMembers(p, xs[1..], x);
      assert xs == [xs[0]] + xs[1..];
    }
  }

  lemma NewestOfMember(es: seq<DenyEntry>, k: AclKey)
    ensures match NewestOf(es, k)
      case Some(e) => e in es && e.Key() == k
      case None => forall e :: e in es ==> e.Key() != k
  {
    var own := StableSort.Filter(HasKey(k), es);
    NewestInMember(own);
    forall e
      ensures e in own <==> e in es && e.Key() == k
    {
      FilterMembers(HasKey(k), es, e);
    }
  }

  lemma TableOfGet(es: seq<DenyEntry>, k: AclKey)
    ensures Get(TableOf(es), k) == NewestOf(es, k)
  {
    NewestOfMember(es, k);
  }

  // the entries of a table, in whatever order the hash map yields them
  ghost predicate Lists(es: seq<DenyEntry>, table: map<AclKey, DenyEntry>) {
    forall e :: e in es <==> e.Key() in table && table[e.Key()] == e
  }

  predicate Keyed(table: map<AclKey, DenyEntry>) {
    forall k :: k in table ==> table[k].Key() == k
  }

  lemma ListedTable(es: seq<DenyEntry>, table: map<AclKey, DenyEntry>)
    requires Lists(es, table) && Keyed(table)
    ensures TableOf(es) == table
  {
    forall k
      ensures Get(TableOf(es), k) == Get(table, k)
    {
      TableOfGet(es, k);
      NewestOfMember(es, k);
    }
    MapsEqualByGet(TableOf(es), table);
  }

  // sorting first does not change which entry of a key is newest
  lemma SortKeepsNewest(es: seq<DenyEntry>, k: AclKey)
    ensures NewestOf(StableSort.Sort(EntryLeq, es), k) == NewestOf(es, k)
  {
    EntryLeqPreorder();
    forall a, b | HasKey(k)(a) && HasKey(k)(b)
      ensures EntryLeq(a, b)
    {
      SameKeyLeq(a, b);
    }
    StableSort.SortStable(EntryLeq, HasKey(k), es);
  }

  // d lists the table, each key once and in order
  ghost predicate Tabled(d: seq<DenyEntry>, table: map<AclKey, DenyEntry>) {
    StrictlyAscending(d) && forall k :: ListedAs(d, k, Get(table, k))
  }

  ghost predicate ListedAs(d: seq<DenyEntry>, k: AclKey, entry: Option<DenyEntry>) {
    match entry
    case None => forall i :: 0 <= i < |d| ==> d[i].Key() != k
    case Some(e) => e in d && e.Key() == k
  }

  /** from_entries builds a base that stands for exactly the newest entry of every key. */
  lemma BuildHolds(es: seq<DenyEntry>, pair: KeyPair)
    ensures Holds(BuildBase(es, pair), pair, TableOf(es))
    ensures |BuildBase(es, pair).entries| == |TableOf(es)|
  {
    EntryLeqPreorder();
    var ordered := StableSort.Sort(EntryLeq, es);
    StableSort.SortOrders(EntryLeq, es);
    DedupeKeepsNewest(ordered);
    var d := Dedupe(ordered);
    forall k
      ensures ListedAs(d, k, Get(TableOf(es), k))
    {
      assert NewestKept(d, ordered, k);
      SortKeepsNewest(es, k);
      TableOfGet(es, k);
    }
    hide EntryLeq, NewestOf, TableOf, Dedupe, Holds;
    CompactHolds(d, TableOf(es), pair);
    SameSize(d, TableOf(es));
  }

  // the compact list of d, sorted again
  lemma CompactMember(d: seq<DenyEntry>, c: CompactEntry) returns (j: nat)
    requires c in StableSort.Sort(CompactLeq, ShrinkAll(d).0)
    ensures j < |d| && c.In(ShrinkAll(d).1) && c.Expand(ShrinkAll(d).1) == d[j]
  {
    CompactLeqPreorder();
    var (cs, t) := ShrinkAll(d);
    StableSort.SortMembers(CompactLeq, cs, c);
    j :| 0 <= j < |cs| && cs[j] == c;
  }

  lemma CompactCovers(d: seq<DenyEntry>, j: nat) returns (c: CompactEntry)
    requires j < |d|
    ensures c in StableSort.Sort(CompactLeq, ShrinkAll(d).0)
    ensures c.In(ShrinkAll(d).1) && c.Expand(ShrinkAll(d).1) == d[j]
  {
    CompactLeqPreorder();
    c := ShrinkAll(d).0[j];
    StableSort.SortMembers(CompactLeq, ShrinkAll(d).0, c);
  }

  lemma CompactFiled(d: seq<DenyEntry>, table: map<AclKey, DenyEntry>, pair: KeyPair, i: nat)
    requires Tabled(d, table) && i < |CompactBase(d, pair).entries|
    ensures Filed(CompactBase(d, pair), pair, table, CompactBase(d, pair).entries[i])
  {
    var t := ShrinkAll(d).1;
    var sorted := StableSort.Sort(CompactLeq, ShrinkAll(d).0);
    SortedIn(ShrinkAll(d).0, t);
    NoFalseNegatives(Pairs(sorted, t, pair), i);
    var j := CompactMember(d, sorted[i]);
    DistinctEntry(d, table, j);
    hide ShrinkAll, StableSort.Sort, CompactLeq, EntryLeq, BuildFilter, MayContain, Tabled;
  }

  lemma CompactCoversKey(d: seq<DenyEntry>, table: map<AclKey, DenyEntry>, pair: KeyPair, k: AclKey)
    requires Tabled(d, table) && k in table
    ensures Covers(CompactBase(d, pair), k)
  {
    assert ListedAs(d, k, Get(table, k));
    var j :| 0 <= j < |d| && d[j] == table[k];
    var c := CompactCovers(d, j);
    hide ShrinkAll, StableSort.Sort, CompactLeq, EntryLeq, BuildFilter;
    assert KeyOf(c, CompactBase(d, pair).symbols) == k;
  }

  lemma CompactShape(d: seq<DenyEntry>, pair: KeyPair)
    ensures var b := CompactBase(d, pair);
      |b.entries| == |d| && AllIn(b.entries, b.symbols) && StableSort.Ordered(CompactLeq, b.entries)
  {
    var (cs, t) := ShrinkAll(d);
    SortedIn(cs, t);
    CompactLeqPreorder();
    StableSort.SortOrders(CompactLeq, cs);
    var sorted := StableSort.Sort(CompactLeq, cs);
    assert |sorted| == |multiset(sorted)| == |multiset(cs)| == |cs|;
  }

  lemma CompactHolds(d: seq<DenyEntry>, table: map<AclKey, DenyEntry>, pair: KeyPair)
    requires Tabled(d, table)
    ensures Holds(CompactBase(d, pair), pair, table) && |CompactBase(d, pair).entries| == |d|
  {
    CompactShape(d, pair);
    hide CompactBase, Tabled, AllIn, StableSort.Ordered, Filed, Covers;
    var b := CompactBase(d, pair);
    forall i | 0 <= i < |b.entries|
      ensures Filed(b, pair, table, b.entries[i])
    {
      CompactFiled(d, table, pair, i);
    }
    forall k | k in table
      ensures Covers(b, k)
    {
      CompactCoversKey(d, table, pair, k);
    }
  }

  lemma DistinctEntry(d: seq<DenyEntry>, table: map<AclKey, DenyEntry>, j: nat)
    requires Tabled(d, table) && j < |d|
    ensures Get(table, d[j].Key()) == Some(d[j])
  {
    hide EntryLeq;
    var k := d[j].Key();
    assert ListedAs(d, k, Get(table, k));
    var i :| 0 <= i < |d| && d[i] == Get(table, k).value;
    assert i < j ==> d[i].Key() != d[j].Key();
    assert j < i ==> d[j].Key() != d[i].Key();
  }

  // keys of d, one each
  lemma SameSize(d: seq<DenyEntry>, table: map<AclKey, DenyEntry>)
    requires Tabled(d, table)
    ensures |d| == |table|
  {
    hide EntryLeq;
    var keys := FirstKeys(d, |d|);
    forall k
      ensures k in keys <==> k in table
    {
      assert ListedAs(d, k, Get(table, k));
    }
    assert keys == table.Keys;
    KeyCount(d, |d|);
  }

  function FirstKeys(d: seq<DenyEntry>, n: nat): set<AclKey>
    requires n <= |d|
  {
    set i: nat | i < n :: d[i].Key()
  }

  lemma FirstKeysPush(d: seq<DenyEntry>, n: nat)
    requires n < |d|
    ensures FirstKeys(d, n + 1) == FirstKeys(d, n) + {d[n].Key()}
  {
  }

  lemma {:induction false} KeyCount(d: seq<DenyEntry>, n: nat)
    requires StrictlyAscending(d) && n <= |d|
    ensures |FirstKeys(d, n)| == n
  {
    hide EntryLeq;
    if n == 0 {
      assert FirstKeys(d, n) == {};
    } else {
      KeyCount(d, n - 1);
      FirstKeysPush(d, n - 1);
      assert d[n - 1].Key() !in FirstKeys(d, n - 1);
      hide FirstKeys, StrictlyAscending;
    }
  }
}
