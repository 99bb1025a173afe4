/** The relay's cache of recent mutations (RelayCache in crates/globacl-relay/src/app/sources.rs): a
    window above the watermarks of the snapshot it started from, fed by a stream and repaired from
    the bootstrap server. */
module Relay {
  import opened Domain
  import opened SourceSpec
  import opened Replay

  datatype Cache = Cache(base: seq<nat>, watermarks: seq<nat>, mutations: seq<seq<Mutation>>)
  {
    predicate Shaped() {
      |base| == |watermarks| && |mutations| == if |base| == 0 then 1 else |base|
    }
  }

  // RelayCache::new
  function NewCache(base: seq<nat>): (c: Cache)
    ensures c.Shaped()
  {
    Cache(base, base, seq(if |base| == 0 then 1 else |base|, _ => []))
  }

  // RelayCache::apply
  function ApplyToCache(c: Cache, m: Mutation): (r: Result<(Cache, bool)>)
    requires c.Shaped()
    ensures r.Ok? ==> r.value.0.Shaped()
  {
    var s, n := m.commitId.shardId, m.commitId.seqNo;
    if s >= |c.watermarks| then Err(InvalidData)
    else if n <= c.watermarks[s] then Ok((c, false))
    else if n != c.watermarks[s] + 1 then Err(Gap(s, c.watermarks[s] + 1, n))
    else Ok((c.(watermarks := c.watermarks[s := n], mutations := c.mutations[s := c.mutations[s] + [m]]), true))
  }

  function Selected(ms: seq<Mutation>, from: nat, priority: Option<DeliveryPriority>): seq<Mutation> {
    if ms == [] then []
    else
      var last := ms[|ms| - 1];
      Selected(ms[..|ms| - 1], from, priority)
      + if last.commitId.seqNo > from && (priority.Some? ==> last.deliveryPriority == priority.value) then [last] else []
  }

  // RelayCache::mutations_for_shard
  function Serve(c: Cache, s: nat, from: nat, priority: Option<DeliveryPriority>): Result<Option<seq<Mutation>>>
    requires c.Shaped()
  {
    if s >= |c.watermarks| then Err(InvalidData)
    else if from < c.base[s] then Ok(None)
    else Ok(Some(Selected(c.mutations[s], from, priority)))
  }

  function Between(ms: seq<Mutation>, from: nat, upper: nat): seq<Mutation> {
    if ms == [] then []
    else
      var last := ms[|ms| - 1];
      Between(ms[..|ms| - 1], from, upper) + if from < last.commitId.seqNo <= upper then [last] else []
  }

  // RelayCache::delta_bundle
  function Bundle(c: Cache, s: nat, from: nat, to: nat): Result<Option<seq<Mutation>>>
    requires c.Shaped()
  {
    if s >= |c.watermarks| then Err(InvalidData)
    else if from < c.base[s] then Ok(None)
    else
      var upper := if to < c.watermarks[s] then to else c.watermarks[s];
      var ms := Between(c.mutations[s], from, upper);
      if upper > from && |ms| != upper - from then Ok(None) else Ok(Some(ms))
  }

  // what the bootstrap server answers to a repair: a bundle, a snapshot's watermarks, or neither
  datatype Answer = BundleOf(ms: seq<Mutation>) | SnapshotAt(watermarks: seq<nat>) | Refused

  // the loop of repair_gap, which keeps what it applied before an error
  function ApplyAll(c: Cache, ms: seq<Mutation>): (r: (Cache, bool))
    requires c.Shaped()
    ensures r.0.Shaped()
    decreases |ms|
  {
    if ms == [] then (c, true)
    else
      match ApplyToCache(c, ms[0])
      case Err(_) => (c, false)
      case Ok((d, _)) => ApplyAll(d, ms[1..])
  }

  // repair_gap, and rebuild_cache_from_snapshot
  function Repair(c: Cache, answer: Answer): (r: (Cache, bool))
    requires c.Shaped()
    ensures r.0.Shaped()
  {
    match answer
    case BundleOf(ms) => ApplyAll(c, ms)
    case SnapshotAt(w) => (NewCache(w), true)
    case Refused => (c, false)
  }

  // apply_or_repair
  function ApplyOrRepair(c: Cache, m: Mutation, answer: Answer): (d: Cache)
    requires c.Shaped()
    ensures d.Shaped()
  {
    match ApplyToCache(c, m)
    case Ok((d, _)) => d
    case Err(Gap(_, _, _)) =>
      var (repaired, ok) := Repair(c, answer);
      if !ok then repaired
      else
        (match ApplyToCache(repaired, m)
         case Ok((d, _)) => d
         case Err(_) => repaired)
    case Err(_) => c
  }

  // ---------- the window ----------

  /** Every shard's cache is exactly the committed mutations from its base to its watermark. */
  ghost predicate Window(c: Cache, logs: seq<seq<Mutation>>) {
    && c.Shaped() && |c.watermarks| == |logs|
    && forall s :: 0 <= s < |logs| ==> ShardWindow(c.mutations[s], logs[s], c.base[s], c.watermarks[s])
  }

  ghost predicate ShardWindow(cached: seq<Mutation>, log: seq<Mutation>, base: nat, watermark: nat) {
    base <= watermark <= |log| && cached == log[base..watermark]
  }

  // the mutation is one of the committed ones
  predicate Committed(m: Mutation, logs: seq<seq<Mutation>>) {
    var s, n := m.commitId.shardId, m.commitId.seqNo;
    s < |logs| && 1 <= n <= |logs[s]| && logs[s][n - 1] == m
  }

  ghost predicate Numbered(logs: seq<seq<Mutation>>) {
    forall s, i {:trigger logs[s][i]} :: 0 <= s < |logs| && 0 <= i < |logs[s]| ==>
      logs[s][i].commitId.shardId == s && logs[s][i].commitId.seqNo == i + 1
  }

  lemma NewWindow(w: seq<nat>, logs: seq<seq<Mutation>>)
    requires Within(w, logs)
    ensures Window(NewCache(w), logs)
  {
  }

  lemma ApplyKeepsWindow(c: Cache, m: Mutation, logs: seq<seq<Mutation>>)
    requires Window(c, logs) && Committed(m, logs)
    ensures var r := ApplyToCache(c, m); r.Ok? ==> Window(r.value.0, logs)
  {
    var s, n := m.commitId.shardId, m.commitId.seqNo;
    assert ShardWindow(c.mutations[s], logs[s], c.base[s], c.watermarks[s]);
    if n == c.watermarks[s] + 1 {
      assert logs[s][c.base[s]..n] == logs[s][c.base[s]..n - 1] + [m];
    }
  }

  lemma {:induction false} ApplyAllKeepsWindow(c: Cache, ms: seq<Mutation>, logs: seq<seq<Mutation>>)
    requires Window(c, logs) && forall i :: 0 <= i < |ms| ==> Committed(ms[i], logs)
    ensures Window(ApplyAll(c, ms).0, logs)
    decreases |ms|
  {
    if ms != [] {
      ApplyKeepsWindow(c, ms[0], logs);
      if ApplyToCache(c, ms[0]).Ok? {
        ApplyAllKeepsWindow(ApplyToCache(c, ms[0]).value.0, ms[1..], logs);
      }
    }
  }

  // the bootstrap server answers from the committed logs
  ghost predicate Honest(answer: Answer, logs: seq<seq<Mutation>>) {
    match answer
    case BundleOf(ms) => forall i :: 0 <= i < |ms| ==> Committed(ms[i], logs)
    case SnapshotAt(w) => Within(w, logs)
    case Refused => true
  }

  /** Whatever committed mutation arrives, and however the repair goes, the cache stays a window. */
  lemma DeliveryKeepsWindow(c: Cache, m: Mutation, answer: Answer, logs: seq<seq<Mutation>>)
    requires Window(c, logs) && Committed(m, logs) && Honest(answer, logs)
    ensures Window(ApplyOrRepair(c, m, answer), logs)
  {
    assert c.Shaped();
    hide Window, ApplyToCache;
    ApplyKeepsWindow(c, m, logs);
    match answer
    case BundleOf(ms) =>
      ApplyAllKeepsWindow(c, ms, logs);
      ApplyKeepsWindow(ApplyAll(c, ms).0, m, logs);
    case SnapshotAt(w) =>
      NewWindow(w, logs);
      ApplyKeepsWindow(NewCache(w), m, logs);
    case Refused =>
  }

  datatype Delivery = Delivery(m: Mutation, answer: Answer)

  /** A relay's life: it starts from a snapshot's watermarks and takes one delivery after another. */
  ghost predicate Life(states: seq<Cache>, deliveries: seq<Delivery>, w: seq<nat>, logs: seq<seq<Mutation>>) {
    && |states| == |deliveries| + 1 && Within(w, logs) && states[0] == NewCache(w)
    && forall i :: 0 <= i < |deliveries| ==>
         && states[i].Shaped() && Committed(deliveries[i].m, logs) && Honest(deliveries[i].answer, logs)
         && states[i + 1] == ApplyOrRepair(states[i], deliveries[i].m, deliveries[i].answer)
  }

  lemma {:induction false} WindowThroughout(states: seq<Cache>, deliveries: seq<Delivery>, w: seq<nat>,
                                            logs: seq<seq<Mutation>>, i: nat)
    requires Life(states, deliveries, w, logs) && i < |states|
    ensures Window(states[i], logs)
  {
    if i == 0 {
      NewWindow(w, logs);
    } else {
      hide Window, ApplyOrRepair, Honest, Committed;
      WindowThroughout(states, deliveries, w, logs, i - 1);
      DeliveryKeepsWindow(states[i - 1], deliveries[i - 1].m, deliveries[i - 1].answer, logs);
    }
  }

  // ---------- serving ----------

  // the cached run of a shard: its numbers are consecutive from first
  predicate Consecutive(ms: seq<Mutation>, first: nat) {
    forall i :: 0 <= i < |ms| ==> ms[i].commitId.seqNo == first + 1 + i
  }

  // what is left of a list from position k on
  function Suffix(ms: seq<Mutation>, k: nat): seq<Mutation> {
    if k <= |ms| then ms[k..] else []
  }

  lemma SuffixPush(init: seq<Mutation>, last: Mutation, k: nat)
    ensures Suffix(init + [last], k) == if k <= |init| then Suffix(init, k) + [last] else Suffix(init, k)
  {
  }

  lemma SelectedPush(init: seq<Mutation>, last: Mutation, from: nat)
    ensures Selected(init + [last], from, None)
      == if last.commitId.seqNo > from then Selected(init, from, None) + [last] else Selected(init, from, None)
  {
    assert (init + [last])[..|init|] == init;
  }

  lemma {:induction false} SelectedIsSuffix(ms: seq<Mutation>, first: nat, from: nat)
    requires Consecutive(ms, first) && first <= from
    ensures Selected(ms, from, None) == Suffix(ms, from - first)
  {
    if ms != [] {
      var init, last := ms[..|ms| - 1], ms[|ms| - 1];
      assert Consecutive(init, first) && last.commitId.seqNo == first + 1 + |init|;
      assert ms == init + [last];
      hide *;
      SelectedIsSuffix(init, first, from);
      SelectedPush(init, last, from);
      SuffixPush(init, last, from - first);
    }
  }

  lemma {:induction false} BetweenConcat(a: seq<Mutation>, b: seq<Mutation>, from: nat, upper: nat)
    ensures Between(a + b, from, upper) == Between(a, from, upper) + Between(b, from, upper)
    decreases |b|
  {
    if b == [] {
      assert a + b == a;
    } else {
      assert (a + b)[..|a + b| - 1] == a + b[..|b| - 1];
      BetweenConcat(a, b[..|b| - 1], from, upper);
    }
  }

  lemma {:induction false} BetweenNone(ms: seq<Mutation>, from: nat, upper: nat)
    requires forall i :: 0 <= i < |ms| ==> ms[i].commitId.seqNo > upper
    ensures Between(ms, from, upper) == []
  {
    if ms != [] {
      BetweenNone(ms[..|ms| - 1], from, upper);
    }
  }

  lemma BetweenIsSlice(ms: seq<Mutation>, first: nat, from: nat, upper: nat)
    requires Consecutive(ms, first) && first <= from && upper <= first + |ms|
    ensures Between(ms, from, upper) == if from <= upper then ms[from - first..upper - first] else []
  {
    var k := if upper < first then 0 else upper - first;
    var low, high := ms[..k], ms[k..];
    assert ms == low + high;
    assert forall i :: 0 <= i < |high| ==> high[i] == ms[k + i];
    hide Between;
    BetweenConcat(low, high, from, upper);
    BetweenNone(high, from, upper);
    assert Between(low, from, upper) + [] == Between(low, from, upper);
    if first <= upper {
      BetweenAll(low, first, from, upper);
      assert from <= upper ==> low[from - first..] == ms[from - first..upper - first];
    } else {
      BetweenNone(low, from, upper);
    }
  }

  lemma BetweenPush(init: seq<Mutation>, last: Mutation, from: nat, upper: nat)
    ensures Between(init + [last], from, upper)
      == if from < last.commitId.seqNo <= upper then Between(init, from, upper) + [last] else Between(init, from, upper)
  {
    assert (init + [last])[..|init|] == init;
  }

  lemma {:induction false} BetweenAll(ms: seq<Mutation>, first: nat, from: nat, upper: nat)
    requires Consecutive(ms, first) && first <= from && first + |ms| <= upper
    ensures Between(ms, from, upper) == Suffix(ms, from - first)
  {
    if ms != [] {
      var init, last := ms[..|ms| - 1], ms[|ms| - 1];
      assert Consecutive(init, first) && last.commitId.seqNo == first + 1 + |init|;
      assert ms == init + [last];
      hide *;
      BetweenAll(init, first, from, upper);
      BetweenPush(init, last, from, upper);
      SuffixPush(init, last, from - first);
    }
  }

  lemma CachedRun(c: Cache, s: nat, logs: seq<seq<Mutation>>)
    requires Window(c, logs) && Numbered(logs) && s < |logs|
    ensures Consecutive(c.mutations[s], c.base[s])
  {
    assert ShardWindow(c.mutations[s], logs[s], c.base[s], c.watermarks[s]);
    forall i | 0 <= i < |c.mutations[s]|
      ensures c.mutations[s][i].commitId.seqNo == c.base[s] + 1 + i
    {
      assert c.mutations[s][i] == logs[s][c.base[s] + i];
    }
  }

  /** An unfiltered answer is withheld exactly below the base; otherwise it is the run of committed
      mutations after from_seq, up to the watermark. */
  lemma ServesRun(c: Cache, s: nat, from: nat, logs: seq<seq<Mutation>>)
    requires Window(c, logs) && Numbered(logs) && s < |logs|
    ensures Serve(c, s, from, None) ==
      Ok(if from < c.base[s] then None
         else if from <= c.watermarks[s] then Some(logs[s][from..c.watermarks[s]]) else Some([]))
  {
    assert ShardWindow(c.mutations[s], logs[s], c.base[s], c.watermarks[s]);
    if c.base[s] <= from {
      CachedRun(c, s, logs);
      SelectedIsSuffix(c.mutations[s], c.base[s], from);
      if from <= c.watermarks[s] {
        assert logs[s][c.base[s]..c.watermarks[s]][from - c.base[s]..] == logs[s][from..c.watermarks[s]];
      }
    }
  }

  lemma SliceOfSlice<T>(xs: seq<T>, a: nat, b: nat, from: nat, upper: nat)
    requires a <= from <= upper <= b <= |xs|
    ensures xs[a..b][from - a..upper - a] == xs[from..upper]
  {
    forall i | 0 <= i < upper - from
      ensures xs[a..b][from - a..upper - a][i] == xs[from..upper][i]
    {
      assert xs[a..b][from - a + i] == xs[from + i];
    }
  }

  /** The length check of a bundle never fails: a bundle is withheld exactly below the base, and
      otherwise holds the committed mutations from from_seq to to_seq, or to the watermark if less. */
  lemma BundleIsComplete(c: Cache, s: nat, from: nat, to: nat, logs: seq<seq<Mutation>>)
    requires Window(c, logs) && Numbered(logs) && s < |logs|
    ensures var upper := if to < c.watermarks[s] then to else c.watermarks[s];
      Bundle(c, s, from, to) ==
        Ok(if from < c.base[s] then None else if from <= upper then Some(logs[s][from..upper]) else Some([]))
  {
    assert ShardWindow(c.mutations[s], logs[s], c.base[s], c.watermarks[s]);
    if c.base[s] <= from {
      var upper := if to < c.watermarks[s] then to else c.watermarks[s];
      CachedRun(c, s, logs);
      BetweenIsSlice(c.mutations[s], c.base[s], from, upper);
      hide Between;
      var ms := Between(c.mutations[s], from, upper);
      if from <= upper {
        SliceOfSlice(logs[s], c.base[s], c.watermarks[s], from, upper);
        assert ms == logs[s][from..upper];
      } else {
        assert ms == [];
      }
    }
  }

  // ---------- in place ----------

  class RelayCache {
    var base: seq<nat>
    var watermarks: seq<nat>
    var mutations: seq<seq<Mutation>>

    ghost function Value(): Cache
      reads this
    {
      Cache(base, watermarks, mutations)
    }

    constructor (baseWatermarks: seq<nat>)
      ensures Value() == NewCache(baseWatermarks)
    {
      base, watermarks := baseWatermarks, baseWatermarks;
      mutations := seq(if |baseWatermarks| == 0 then 1 else |baseWatermarks|, _ => []);
    }

    // RelayCache::apply
    method Apply(m: Mutation) returns (r: Result<bool>)
      requires Value().Shaped()
      modifies this
      ensures match ApplyToCache(old(Value()), m)
        case Ok((value, applied)) => r == Ok(applied) && Value() == value
        case Err(e) => r == Err(e) && Value() == old(Value())
      ensures r == Ok(true) <==>
        m.commitId.shardId < |old(watermarks)| && m.commitId.seqNo == old(watermarks)[m.commitId.shardId] + 1
      ensures r == Ok(true) ==>
        && base == old(base) && watermarks == old(watermarks)[m.commitId.shardId := m.commitId.seqNo]
        && mutations == old(mutations)[m.commitId.shardId := old(mutations)[m.commitId.shardId] + [m]]
    {
      var s := m.commitId.shardId;
      if s >= |watermarks| {
        return Err(InvalidData);
      }
      var current := watermarks[s];
      if m.commitId.seqNo <= current {
        return Ok(false);
      }
      if m.commitId.seqNo != current + 1 {
        return Err(Gap(s, current + 1, m.commitId.seqNo));
      }
      watermarks := watermarks[s := m.commitId.seqNo];
      mutations := mutations[s := mutations[s] + [m]];
      return Ok(true);
    }

    // the loop of repair_gap
    method ApplyBundle(ms: seq<Mutation>) returns (ok: bool)
      requires Value().Shaped()
      modifies this
      ensures Value().Shaped()
      ensures (Value(), ok) == ApplyAll(old(Value()), ms)
    {
      hide ApplyToCache;
      var i := 0;
      while i < |ms|
        invariant i <= |ms| && Value().Shaped()
        invariant ApplyAll(Value(), ms[i..]) == ApplyAll(old(Value()), ms)
      {
        assert ms[i..][1..] == ms[i + 1..];
        var r := Apply(ms[i]);
        if r.Err? {
          return false;
        }
        i := i + 1;
      }
      return true;
    }

    // rebuild_cache_from_snapshot
    method Rebuild(w: seq<nat>)
      modifies this
      ensures Value() == NewCache(w)
    {
      base, watermarks := w, w;
      mutations := seq(if |w| == 0 then 1 else |w|, _ => []);
    }

    // mutations_for_shard
    method ServeShard(s: nat, from: nat, priority: Option<DeliveryPriority>) returns (r: Result<Option<seq<Mutation>>>)
      requires Value().Shaped()
      ensures r == Serve(Value(), s, from, priority)
    {
      if s >= |watermarks| {
        return Err(InvalidData);
      }
      if from < base[s] {
        return Ok(None);
      }
      var all := mutations[s];
      var ms: seq<Mutation> := [];
      for i := 0 to |all|
        invariant ms == Selected(all[..i], from, priority)
      {
        assert all[..i + 1][..i] == all[..i];
        if all[i].commitId.seqNo > from && (priority.Some? ==> all[i].deliveryPriority == priority.value) {
          ms := ms + [all[i]];
        }
      }
      assert all[..|all|] == all;
      return Ok(Some(ms));
    }
  }
}
