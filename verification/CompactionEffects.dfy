/** What compaction, publishing and failed publishing do, beyond what they keep: a compaction cuts exactly
    what is published, or everything without a publisher, and a batch goes out in order, again if it failed
    (crates/globacl-commitd/src/app/storage.rs and propagation.rs). */
module CompactionEffects {
  import opened Domain
  import opened SourceSpec
  import opened Replay
  import opened Loading
  import opened History
  import Recovery
  import opened Publisher
  import StableSort

  // ---------- the filter ----------

  /** Filtering a log that starts above `kept` leaves what is above the floor. */
  lemma {:induction false} AboveOneDrops(log: seq<Mutation>, kept: nat, floor: nat)
    requires RunsFrom(log, kept)
    ensures AboveOne(log, floor) == DropTo(log, kept, floor)
  {
    if log != [] {
      var init, last := log[..|log| - 1], log[|log| - 1];
      assert log == init + [last];
      RunsFromInit(init, last, kept);
      AboveOneDrops(init, kept, floor);
      DropToPush(init, last, kept, floor);
    }
    hide DropTo;
  }

  // ---------- without a publisher ----------

  lemma KeptRuns(x: Recovery.Machine, base: seq<nat>, s: nat)
    requires Recovery.MemoryCurrent(x) && Recovery.DiskKeeps(x, base) && s < |base|
    ensures RunsFrom(x.disk.logs[s], base[s]) && base[s] + |x.disk.logs[s]| == x.memory.watermarks[s]
  {
    assert Recovery.ShardKept(x.disk.logs[s], x.logged[s], base[s]);
    forall i | 0 <= i < |x.disk.logs[s]|
      ensures x.disk.logs[s][i].commitId.seqNo == base[s] + 1 + i
    {
      assert x.disk.logs[s][i] == x.logged[s][base[s] + i];
    }
    hide Represents, Indexes;
  }

  /** Each rewrite of a compaction without a publisher empties a log; the last step raises the compacted
      watermarks to the watermarks. */
  lemma TrimEmpties(x: Recovery.Machine)
    requires Recovery.Inv(x) && x.phase.Trimming? && Recovery.Enabled(x, Recovery.TrimLog)
    ensures var y := Recovery.Exec(x, Recovery.TrimLog); var n := x.memory.shardCount;
      if x.phase.next < n then
        && y.disk.logs == x.disk.logs[x.phase.next := []] && y.memory == x.memory
        && y.phase == Recovery.Trimming(x.phase.next + 1)
      else
        && |y.memory.compacted| == n && y.phase == Recovery.Idle && y.disk == x.disk
        && forall i :: 0 <= i < n ==> y.memory.compacted[i] == AtLeast(x.memory.compacted[i], x.memory.watermarks[i])
  {
    assert Recovery.MemoryCurrent(x);
    hide Represents, Indexes, Recovery.CompactionReady, Recovery.MemoryCurrent;
    var s := x.phase.next;
    if s < x.memory.shardCount {
      var base: seq<nat> :| Recovery.DiskKeeps(x, base);
      KeptShard(x, base, s);
      AboveOneDrops(x.disk.logs[s], base[s], x.memory.watermarks[s]);
      assert DropTo(x.disk.logs[s], base[s], x.memory.watermarks[s]) == [];
    } else {
      CompactedToFloor(x.memory, x.memory.watermarks);
    }
    hide AboveOne, CompactHistory;
  }

  lemma KeptShard(x: Recovery.Machine, base: seq<nat>, s: nat)
    requires Recovery.MemoryCurrent(x) && Recovery.DiskKeeps(x, base) && s < x.memory.shardCount
    ensures s < |base| == |x.disk.logs| && RunsFrom(x.disk.logs[s], base[s])
    ensures base[s] + |x.disk.logs[s]| == x.memory.watermarks[s]
  {
    assert |base| == |x.logged| == |x.disk.logs| && x.memory.shardCount == |x.logged|;
    KeptRuns(x, base, s);
    hide Recovery.MemoryCurrent, Recovery.DiskKeeps;
  }

  /** A compaction of the history that is not refused raises the compacted watermarks to the floor, never
      lowers one, and is refused only for a floor above a watermark or of another shape. */
  lemma CompactedToFloor(s: Source, floor: seq<nat>)
    requires s.Shaped() && InShards(s.history, s.shardCount)
    ensures CompactHistory(s, floor).Ok? <==>
      |floor| == s.shardCount && forall i :: 0 <= i < |floor| ==> floor[i] <= s.watermarks[i]
    ensures CompactHistory(s, floor).Ok? ==>
      var t := CompactHistory(s, floor).value;
      && (forall i :: 0 <= i < s.shardCount ==>
            t.compacted[i] == if s.compacted[i] <= floor[i] then floor[i] else s.compacted[i])
      && ((forall i :: 0 <= i < s.shardCount ==> s.compacted[i] <= floor[i]) ==> t.compacted == floor)
      && t == s.(history := t.history, compacted := t.compacted)
  {
    hide Above;
  }

  // ---------- with a publisher ----------

  lemma PublishedBetween(x: Node, s: nat)
    requires Inv(x) && s < |x.published|
    ensures x.machine.memory.compacted[s] <= x.published[s] <= x.machine.memory.watermarks[s]
  {
    assert At(x, s);
    hide Stored, BatchSafe, FloorSafe, Project;
  }

  /** A compaction never goes back, and forward at most to the snapshot and the published offset, but that
      far. */
  lemma FloorIs(snapshot: seq<nat>, published: Option<seq<nat>>, compacted: seq<nat>, s: nat)
    requires s < |snapshot| == |compacted|
    ensures var w := CompactionFloor(snapshot, published, compacted)[s];
      var offset := if published.None? then snapshot[s] else if s < |published.value| then published.value[s] else 0;
      && w >= compacted[s]
      && (w > compacted[s] ==> w <= snapshot[s] && w <= offset && (w == snapshot[s] || w == offset))
      && (snapshot[s] > compacted[s] && offset > compacted[s] ==> w > compacted[s])
  {
  }

  /** A compaction decides to cut exactly what is published when it saves its snapshot. */
  lemma CutsPublished(x: Node, snap: Snapshot)
    requires Inv(x) && Enabled(x, Store(Recovery.SaveCompactionSnapshot(snap)))
    ensures Exec(x, Store(Recovery.SaveCompactionSnapshot(snap))).floor == x.published
  {
    var w, c := x.machine.memory.watermarks, x.machine.memory.compacted;
    forall s | 0 <= s < |x.published|
      ensures CompactionFloor(w, Some(x.published), c)[s] == x.published[s]
    {
      PublishedBetween(x, s);
    }
    hide Inv, Recovery.Exec;
  }

  /** Each of its rewrites leaves of a log what is above that floor, and its last step the same of the
      history. */
  lemma TrimsToFloor(x: Node)
    requires Inv(x) && Enabled(x, TrimShard)
    ensures var y := Exec(x, TrimShard).machine; var m := x.machine; var s := m.phase.next;
      if s < m.memory.shardCount then
        && y.disk.logs == m.disk.logs[s := m.logged[s][AtLeast(KeptOf(m)[s], x.floor[s])..]]
        && y.memory == m.memory && y.phase == Recovery.Trimming(s + 1)
      else
        && y.memory.compacted == x.floor && y.disk == m.disk && y.phase == Recovery.Idle
        && forall k :: 0 <= k < m.memory.shardCount ==> Project(y.memory.history, k) == m.logged[k][x.floor[k]..]
  {
    var m := x.machine;
    var s := m.phase.next;
    if s < m.memory.shardCount {
      StoredRuns(x, s);
      AboveOneDrops(m.disk.logs[s], KeptOf(m)[s], x.floor[s]);
      hide Inv, KeptOf, CompactHistory, AboveOne;
    } else {
      forall k | 0 <= k < m.memory.shardCount
        ensures m.memory.compacted[k] <= x.floor[k]
        ensures Project(Above(m.memory.history, x.floor), k) == m.logged[k][x.floor[k]..]
      {
        HistoryAbove(x, k);
      }
      CompactedToFloor(m.memory, x.floor);
      hide Inv, KeptOf, Project, Above;
    }
  }

  lemma StoredRuns(x: Node, s: nat)
    requires Inv(x) && s < x.machine.memory.shardCount && x.machine.phase.Trimming?
    ensures var m := x.machine; var kept := KeptOf(m)[s];
      && |x.floor| == m.memory.shardCount && x.floor[s] <= |m.logged[s]|
      && kept <= |m.logged[s]| && m.disk.logs[s] == m.logged[s][kept..] && RunsFrom(m.disk.logs[s], kept)
  {
    var m := x.machine;
    assert At(x, s) && FloorSafe(x, s);
    assert Recovery.ShardKept(m.disk.logs[s], m.logged[s], KeptOf(m)[s]);
    CommittedRuns(m, s);
    RunsFromDrop(m.logged[s], 0, KeptOf(m)[s]);
    hide BatchSafe, Represents, Indexes, KeptOf, RunsFrom, Project;
  }

  lemma HistoryAbove(x: Node, k: nat)
    requires Inv(x) && k < x.machine.memory.shardCount && x.machine.phase.Trimming?
    requires InShards(x.machine.memory.history, x.machine.memory.shardCount)
    ensures var m := x.machine;
      && |x.floor| == m.memory.shardCount && m.memory.compacted[k] <= x.floor[k] <= |m.logged[k]|
      && Project(Above(m.memory.history, x.floor), k) == m.logged[k][x.floor[k]..]
  {
    var m := x.machine;
    var from := m.memory.compacted[k];
    assert At(x, k) && FloorSafe(x, k);
    CommittedRuns(m, k);
    RunsFromDrop(m.logged[k], 0, from);
    assert Project(m.memory.history, k) == m.logged[k][from..];
    hide Inv, At, Project, Above, RunsFrom, InShards, FloorSafe;
    AboveProjects(m.memory.history, x.floor, k, from);
    assert m.logged[k][from..][x.floor[k] - from..] == m.logged[k][x.floor[k]..];
  }

  // ---------- batches ----------

  // a goes out before b: earlier committed, or at the same time and first by shard and number
  predicate GoesFirst(a: Mutation, b: Mutation) {
    || a.committedAt < b.committedAt
    || (a.committedAt == b.committedAt
        && (|| a.commitId.shardId < b.commitId.shardId
            || (a.commitId.shardId == b.commitId.shardId && a.commitId.seqNo <= b.commitId.seqNo)))
  }

  /** A batch is the waiting mutations, each as often as it was collected, in the order of their commit times. */
  lemma BatchInOrder(x: Node)
    requires Shaped(x) && Enabled(x, BeginPublish)
    ensures var ms := Exec(x, BeginPublish).publishing.value.ms;
      && (forall i, j :: 0 <= i < j < |ms| ==> GoesFirst(ms[i], ms[j]))
      && multiset(ms) == multiset(Collected(x.machine.memory.history, x.published, x.machine.memory.shardCount))
  {
    PublishLeqPreorder();
    StableSort.SortOrders(PublishLeq, Collected(x.machine.memory.history, x.published, x.machine.memory.shardCount));
    hide StableSort.Sort, Collected, AdvanceAll, MutationsForShard;
  }

  /** A batch that fails part way moves no offset and ends; what was sent stays sent, and the next batch begun
      is the same one again. */
  lemma FailedBatchIsRetried(x: Node, after: nat)
    requires Shaped(x) && x.machine.phase == Recovery.Idle && Enabled(x, BeginPublish)
    requires after <= |Exec(x, BeginPublish).publishing.value.ms|
    ensures var begun := Exec(x, BeginPublish);
      && Shaped(begun) && Enabled(begun, FailPublish(after))
      && var failed := Exec(begun, FailPublish(after));
      && failed.published == x.published && failed.machine == x.machine && failed.publishing == None
      && (forall i :: 0 <= i < after ==> begun.publishing.value.ms[i] in failed.sent)
      && Shaped(failed) && Enabled(failed, BeginPublish)
      && Exec(failed, BeginPublish).publishing == begun.publishing
  {
    hide StableSort.Sort, Collected, AdvanceAll, MutationsForShard;
    var begun := Exec(x, BeginPublish);
    var sent := begun.publishing.value.ms[..after];
    assert forall i :: 0 <= i < after ==> sent[i] == begun.publishing.value.ms[i];
  }

  /** A batch that ends moves every offset to the watermark, and everything logged by then has been sent. */
  lemma EndedBatchIsPublished(x: Node, s: nat, k: nat)
    requires Inv(x) && Enabled(x, BeginPublish) && s < |x.published| && k < |x.machine.logged[s]|
    ensures var begun := Exec(x, BeginPublish);
      && Shaped(begun) && Enabled(begun, EndPublish)
      && var ended := Exec(begun, EndPublish);
      |ended.published| == |x.published| && ended.published[s] == |x.machine.logged[s]| && x.machine.logged[s][k] in ended.sent
  {
    BatchIsComplete(x, s);
    var begun := Exec(x, BeginPublish);
    var b := begun.publishing.value;
    if k < x.published[s] {
      SentBelow(x, s, k);
    } else {
      BatchHas(x.machine.logged[s], x.published[s], b, s, k);
    }
    hide Inv, StableSort.Sort, Collected, AdvanceAll, BatchSafe;
  }

  lemma SentBelow(x: Node, s: nat, k: nat)
    requires Inv(x) && s < |x.published| && k < x.published[s] && s < |x.machine.logged| && k < |x.machine.logged[s]|
    ensures x.machine.logged[s][k] in x.sent
  {
    assert At(x, s);
    hide Stored, BatchSafe, FloorSafe, Project;
  }

  lemma BatchHas(committed: seq<Mutation>, published: nat, b: Batch, s: nat, k: nat)
    requires s < |b.next| && BatchSafe(committed, published, b, s) && published <= k < b.next[s] && k < |committed|
    ensures committed[k] in SetOf(b.ms)
  {
  }
}
