/** Publishing, compaction and restarts. A commitd with a publisher sends its mutations to a stream in
    batches and compacts only what has been sent: compaction_watermarks_for_snapshot in
    crates/globacl-commitd/src/app/storage.rs and publish_committed_mutations in propagation.rs. The
    publisher reads the state once per batch and records its offsets later, so commits and
    compactions may come in between; a compaction rewrites one shard's log at a time, and a restart
    may come between any two durable writes. */
module Publisher {
  import opened Domain
  import opened SourceSpec
  import opened Replay
  import opened Loading
  import opened History
  import opened Recovery
  import opened Reload
  import StableSort

  // .get(shard).unwrap_or(0)
  function OffsetOf(offsets: seq<nat>, shard: nat): nat {
    if shard < |offsets| then offsets[shard] else 0
  }

  // ---------- compaction watermarks ----------

  method CompactionWatermarks(snapshot: seq<nat>, published: Option<seq<nat>>, compacted: seq<nat>) returns (w: seq<nat>)
    requires |snapshot| == |compacted|
    ensures w == CompactionFloor(snapshot, published, compacted)
  {
    w := snapshot;
    if published.Some? {
      for i := 0 to |w|
        invariant |w| == |snapshot|
        invariant forall j :: 0 <= j < i ==> w[j] == AtMost(snapshot[j], OffsetOf(published.value, j))
        invariant forall j :: i <= j < |w| ==> w[j] == snapshot[j]
      {
        w := w[i := AtMost(w[i], OffsetOf(published.value, i))];
      }
    }
    ghost var lowered := w;
    for i := 0 to |w|
      invariant |w| == |snapshot|
      invariant forall j :: 0 <= j < i ==> w[j] == AtLeast(lowered[j], compacted[j])
      invariant forall j :: i <= j < |w| ==> w[j] == lowered[j]
    {
      w := w[i := AtLeast(w[i], compacted[i])];
    }
  }

  // compaction_watermarks_for_snapshot
  function CompactionFloor(snapshot: seq<nat>, published: Option<seq<nat>>, compacted: seq<nat>): (w: seq<nat>)
    requires |snapshot| == |compacted|
    ensures |w| == |snapshot|
  {
    seq(|snapshot|, i requires 0 <= i < |snapshot| =>
      AtLeast(if published.Some? then AtMost(snapshot[i], OffsetOf(published.value, i)) else snapshot[i], compacted[i]))
  }

  // ---------- publishing ----------

  // what publish_committed_mutations collects, shard by shard
  function Collected(history: seq<Mutation>, offsets: seq<nat>, n: nat): seq<Mutation> {
    if n == 0 then [] else Collected(history, offsets, n - 1) + MutationsForShard(history, n - 1, OffsetOf(offsets, n - 1))
  }

  // sort_by_key (committed_at_unix, shard_id, seq)
  predicate PublishLeq(a: Mutation, b: Mutation) {
    if a.committedAt != b.committedAt then a.committedAt < b.committedAt
    else if a.commitId.shardId != b.commitId.shardId then a.commitId.shardId < b.commitId.shardId
    else a.commitId.seqNo <= b.commitId.seqNo
  }

  // one round of the publishing loop
  function Advance(offsets: seq<nat>, m: Mutation): (r: seq<nat>)
    ensures |r| == |offsets|
  {
    var s := m.commitId.shardId;
    if s < |offsets| then offsets[s := AtLeast(offsets[s], m.commitId.seqNo)] else offsets
  }

  function AdvanceAll(offsets: seq<nat>, ms: seq<Mutation>): (r: seq<nat>)
    ensures |r| == |offsets|
  {
    if ms == [] then offsets else Advance(AdvanceAll(offsets, ms[..|ms| - 1]), ms[|ms| - 1])
  }

  method AdvanceLoop(offsets: seq<nat>, ms: seq<Mutation>) returns (next: seq<nat>)
    ensures next == AdvanceAll(offsets, ms)
  {
    next := offsets;
    for i := 0 to |ms|
      invariant next == AdvanceAll(offsets, ms[..i])
    {
      assert ms[..i + 1][..i] == ms[..i];
      var slot := ms[i].commitId.shardId;
      if slot < |next| {
        next := next[slot := AtLeast(next[slot], ms[i].commitId.seqNo)];
      }
    }
    assert ms[..|ms|] == ms;
  }

  /** The order of a batch does not matter: an offset ends at the largest number of its shard. */
  lemma {:induction false} AdvanceIsMaximum(offsets: seq<nat>, ms: seq<Mutation>, s: nat)
    requires s < |offsets|
    ensures var r := AdvanceAll(offsets, ms)[s];
      && r >= offsets[s]
      && (forall m :: m in ms && m.commitId.shardId == s ==> m.commitId.seqNo <= r)
      && (r == offsets[s] || exists m :: m in ms && m.commitId.shardId == s && m.commitId.seqNo == r)
  {
    if ms != [] {
      var init, last := ms[..|ms| - 1], ms[|ms| - 1];
      AdvanceIsMaximum(offsets, init, s);
      assert ms == init + [last];
      var before := AdvanceAll(offsets, init)[s];
      assert last in ms;
      if AdvanceAll(offsets, ms)[s] == before && before != offsets[s] {
        var m :| m in init && m.commitId.shardId == s && m.commitId.seqNo == before;
        assert m in ms;
      }
    }
  }

  // ---------- the node ----------

  datatype Batch = Batch(ms: seq<Mutation>, next: seq<nat>)

  /** machine is the memory, the disk and where a commit or a compaction stands between two durable
      writes; published is also the offsets file. floor is what a compaction in progress cuts up to.
      sent is history: what was handed to the stream. */
  datatype Node = Node(
    machine: Machine,
    published: seq<nat>,
    publishing: Option<Batch>,
    floor: seq<nat>,
    sent: set<Mutation>)

  type Write = Recovery.Step

  datatype Step =
    | Store(write: Write)          // a commit, a snapshot or an op-id file
    | TrimShard
    | BeginPublish
    | EndPublish
    | FailPublish(after: nat)      // the stream refuses a mutation; the offsets stay
    | Restart(loaded: Source)      // the process ends, at any time, and loads again

  predicate Shaped(x: Node) {
    var n := x.machine.memory.shardCount;
    x.machine.memory.Shaped() && |x.machine.disk.logs| == |x.machine.logged| == |x.published| == n
  }

  predicate Enabled(x: Node, step: Step)
    requires Shaped(x)
  {
    var n := x.machine.memory.shardCount;
    match step
    case Store(write) =>
      !write.TrimLog? && !write.Crash? && Recovery.Enabled(x.machine, write)
    case TrimShard =>
      x.machine.phase.Trimming? && |x.floor| == n
      && InShards(x.machine.memory.history, n) && CompactHistory(x.machine.memory, x.floor).Ok?
    case BeginPublish => x.machine.phase == Idle && x.publishing.None?
    case EndPublish => x.publishing.Some?
    case FailPublish(after) => x.publishing.Some? && after <= |x.publishing.value.ms|
    case Restart(loaded) =>
      FlatLogs(x.machine.disk.logs, n)
      && Load(x.machine.disk, n, x.machine.memory.region, Some(x.published)) == Ok(loaded)
  }

  function SetOf(ms: seq<Mutation>): set<Mutation> {
    set m | m in ms
  }

  // compact_logs_to_watermarks, one shard at a time, and then compact_mutation_history
  function Trimmed(x: Machine, floor: seq<nat>): Machine
    requires x.memory.Shaped() && x.phase.Trimming? && |floor| == |x.disk.logs| == x.memory.shardCount
    requires InShards(x.memory.history, x.memory.shardCount) && CompactHistory(x.memory, floor).Ok?
  {
    var s := x.phase.next;
    if s < x.memory.shardCount then
      x.(disk := x.disk.(logs := x.disk.logs[s := AboveOne(x.disk.logs[s], floor[s])]), phase := Trimming(s + 1))
    else x.(memory := CompactHistory(x.memory, floor).value, phase := Idle)
  }

  function Exec(x: Node, step: Step): Node
    requires Shaped(x) && Enabled(x, step)
  {
    match step
    case Store(write) =>
      x.(machine := Recovery.Exec(x.machine, write),
         floor := if write.SaveCompactionSnapshot?
                  then CompactionFloor(x.machine.memory.watermarks, Some(x.published), x.machine.memory.compacted)
                  else x.floor)
    case TrimShard => x.(machine := Trimmed(x.machine, x.floor))
    case BeginPublish =>
      var ms := StableSort.Sort(PublishLeq, Collected(x.machine.memory.history, x.published, x.machine.memory.shardCount));
      x.(publishing := Some(Batch(ms, AdvanceAll(x.published, ms))))
    case EndPublish =>
      x.(sent := x.sent + SetOf(x.publishing.value.ms), published := x.publishing.value.next, publishing := None)
    case FailPublish(after) => x.(sent := x.sent + SetOf(x.publishing.value.ms[..after]), publishing := None)
    case Restart(loaded) => x.(machine := x.machine.(memory := loaded, phase := Unsaved), publishing := None)
  }

  // ---------- what every step keeps ----------

  // how many mutations of each shard its log no longer has
  function KeptFromOn(logs: seq<seq<Mutation>>, logged: seq<seq<Mutation>>): (kept: seq<nat>)
    requires |logs| == |logged|
    ensures |kept| == |logged|
  {
    seq(|logged|, s requires 0 <= s < |logged| => if |logs[s]| <= |logged[s]| then |logged[s]| - |logs[s]| else 0)
  }

  function KeptOf(x: Machine): (kept: seq<nat>)
    requires |x.disk.logs| == |x.logged|
    ensures |kept| == |x.logged|
  {
    KeptFromOn(x.disk.logs, x.logged)
  }

  /** One shard: the floor, the published offset and the watermark are in order; memory retains the
      mutations above the floor; the log still has at least those not yet published; everything up to
      the offset has been sent. */
  ghost predicate ShardSafe(committed: seq<Mutation>, retained: seq<Mutation>, floor: nat, kept: nat,
                            published: nat, watermark: nat, sent: set<Mutation>) {
    && floor <= published <= watermark == |committed| && kept <= published
    && retained == committed[floor..]
    && (forall i :: 0 <= i < published ==> committed[i] in sent)
  }

  ghost predicate BatchSafe(committed: seq<Mutation>, published: nat, b: Batch, s: nat)
    requires s < |b.next|
  {
    published <= b.next[s] <= |committed| && forall i :: published <= i < b.next[s] ==> committed[i] in b.ms
  }

  // a compaction cuts at most what is published
  predicate FloorSafe(x: Node, s: nat)
    requires Shaped(x) && s < x.machine.memory.shardCount
  {
    x.machine.phase.SnapshotSaved? || x.machine.phase.Trimming? ==>
      |x.floor| == x.machine.memory.shardCount && x.machine.memory.compacted[s] <= x.floor[s] <= x.published[s]
  }

  ghost predicate At(x: Node, s: nat)
    requires Shaped(x) && s < x.machine.memory.shardCount
  {
    var m := x.machine;
    && ShardSafe(m.logged[s], Project(m.memory.history, s), m.memory.compacted[s], KeptOf(m)[s],
                 x.published[s], m.memory.watermarks[s], x.sent)
    && (x.publishing.Some? ==>
          |x.publishing.value.next| == |x.published| && BatchSafe(m.logged[s], x.published[s], x.publishing.value, s))
    && FloorSafe(x, s)
  }

  ghost predicate Stored(x: Machine) {
    && MemoryCurrent(x) && CompactionReady(x)
    && |x.disk.logs| == |x.logged| && DiskKeeps(x, KeptOf(x))
  }

  ghost predicate Inv(x: Node) {
    && Shaped(x) && Stored(x.machine)
    && forall s :: 0 <= s < x.machine.memory.shardCount ==> At(x, s)
  }

  // ---------- publishing ----------

  // the stream of a shard, above an offset, is what was committed above it
  lemma ServedAbove(x: Node, s: nat)
    requires Inv(x) && s < |x.published|
    ensures |x.machine.logged| == |x.published| && x.published[s] <= |x.machine.logged[s]|
    ensures MutationsForShard(x.machine.memory.history, s, x.published[s]) == x.machine.logged[s][x.published[s]..]
  {
    assert At(x, s);
    var floor := x.machine.memory.compacted[s];
    CommittedRuns(x.machine, s);
    hide Inv, BatchSafe, Stored, FloorSafe;
    RunsFromDrop(x.machine.logged[s], 0, floor);
    hide RunsFrom;
    ServedStream(x.machine.memory.history, s, floor, x.published[s]);
  }

  // what is logged of a shard is numbered from 1 on, and belongs to it
  lemma CommittedRuns(x: Machine, s: nat)
    requires Stored(x) && s < |x.logged|
    ensures RunsFrom(x.logged[s], 0) && forall i :: 0 <= i < |x.logged[s]| ==> x.logged[s][i].commitId.shardId == s
  {
    hide Represents, Indexes, DiskKeeps, CompactionReady;
  }

  // committed in shard s, and not yet published
  predicate Waiting(x: Node, s: nat, m: Mutation)
    requires Shaped(x)
  {
    && s < |x.published| && x.published[s] <= |x.machine.logged[s]|
    && m in x.machine.logged[s][x.published[s]..]
  }

  lemma {:induction false} CollectedMembers(x: Node, n: nat, m: Mutation)
    requires Inv(x) && n <= |x.published|
    ensures m in Collected(x.machine.memory.history, x.published, n) <==> exists s :: 0 <= s < n && Waiting(x, s, m)
  {
    hide At, MutationsForShard, Stored;
    if n > 0 {
      CollectedMembers(x, n - 1, m);
      CollectedLast(x, n, m);
    }
  }

  lemma CollectedLast(x: Node, n: nat, m: Mutation)
    requires Inv(x) && 0 < n <= |x.published|
    ensures m in Collected(x.machine.memory.history, x.published, n) <==>
      m in Collected(x.machine.memory.history, x.published, n - 1) || Waiting(x, n - 1, m)
  {
    ServedAbove(x, n - 1);
    hide At, MutationsForShard, Stored;
    assert OffsetOf(x.published, n - 1) == x.published[n - 1];
    var before := Collected(x.machine.memory.history, x.published, n - 1);
    var stream := x.machine.logged[n - 1][x.published[n - 1]..];
    assert m in before + stream <==> m in before || m in stream;
  }

  lemma PublishLeqPreorder()
    ensures StableSort.Preorder(PublishLeq)
  {
  }

  lemma BatchMembers(x: Node, m: Mutation)
    requires Inv(x) && Enabled(x, BeginPublish)
    ensures m in Exec(x, BeginPublish).publishing.value.ms <==> exists s :: 0 <= s < |x.published| && Waiting(x, s, m)
  {
    PublishLeqPreorder();
    hide Collected, At, Stored;
    StableSort.SortMembers(PublishLeq, Collected(x.machine.memory.history, x.published, x.machine.memory.shardCount), m);
    CollectedMembers(x, x.machine.memory.shardCount, m);
  }

  // a mutation that waits in shard s has a number above the offset, up to the watermark
  lemma WaitingNumber(x: Node, t: nat, m: Mutation)
    requires Inv(x) && Waiting(x, t, m)
    ensures m.commitId.shardId == t && x.published[t] < m.commitId.seqNo <= |x.machine.logged[t]|
  {
    CommittedRuns(x.machine, t);
    var log, from := x.machine.logged[t], x.published[t];
    hide Inv;
    var j :| 0 <= j < |log[from..]| && log[from..][j] == m;
    assert log[from + j] == m;
  }

  lemma WaitsAt(x: Node, s: nat, i: nat)
    requires Inv(x) && s < |x.published| && x.published[s] <= i < |x.machine.logged[s]|
    ensures Waiting(x, s, x.machine.logged[s][i])
    ensures x.machine.logged[s][i].commitId.shardId == s && x.machine.logged[s][i].commitId.seqNo == i + 1
  {
    CommittedRuns(x.machine, s);
    hide Inv;
    assert x.machine.logged[s][x.published[s]..][i - x.published[s]] == x.machine.logged[s][i];
  }

  lemma AtOffsets(x: Node, s: nat)
    requires Inv(x) && s < |x.published|
    ensures |x.machine.logged| == |x.published| == x.machine.memory.shardCount && At(x, s)
    ensures x.published[s] <= |x.machine.logged[s]|
  {
    hide Stored;
    assert At(x, s);
  }

  // a batch has, of shard s, mutations above its offset and up to its watermark
  lemma BatchNumber(x: Node, s: nat, m: Mutation)
    requires Inv(x) && Enabled(x, BeginPublish) && s < |x.published| == |x.machine.logged|
    requires m in Exec(x, BeginPublish).publishing.value.ms && m.commitId.shardId == s
    ensures x.published[s] < m.commitId.seqNo <= |x.machine.logged[s]|
  {
    BatchMembers(x, m);
    hide Exec, Inv, Enabled, Waiting;
    var t :| 0 <= t < |x.published| && Waiting(x, t, m);
    WaitingNumber(x, t, m);
  }

  lemma TopOfBatch(log: seq<Mutation>, published: nat, ms: seq<Mutation>, next: nat, s: nat)
    requires published <= |log|
    requires forall i :: published <= i < |log| ==>
      log[i] in ms && log[i].commitId.shardId == s && log[i].commitId.seqNo == i + 1
    requires forall m :: m in ms && m.commitId.shardId == s ==> m.commitId.seqNo <= next
    requires next == published || exists m :: m in ms && m.commitId.shardId == s && m.commitId.seqNo == next
    requires forall m :: m in ms && m.commitId.shardId == s ==> published < m.commitId.seqNo <= |log|
    ensures next == |log|
  {
    if published < |log| {
      assert log[|log| - 1] in ms;
    }
  }

  /** A batch takes everything committed and not yet published, and its offsets are the watermarks. */
  lemma BatchIsComplete(x: Node, s: nat)
    requires Inv(x) && Enabled(x, BeginPublish) && s < |x.published|
    ensures |x.machine.logged| == |x.published| && x.published[s] <= |x.machine.logged[s]|
    ensures var b := Exec(x, BeginPublish).publishing.value;
      && |b.next| == |x.published| && b.next[s] == |x.machine.logged[s]|
      && BatchSafe(x.machine.logged[s], x.published[s], b, s)
  {
    AtOffsets(x, s);
    var b := Exec(x, BeginPublish).publishing.value;
    assert b.next == AdvanceAll(x.published, b.ms);
    var log := x.machine.logged[s];
    hide At, AdvanceAll, Exec, Waiting, Inv, Enabled;
    AdvanceIsMaximum(x.published, b.ms, s);
    forall i | x.published[s] <= i < |log|
      ensures log[i] in b.ms && log[i].commitId.shardId == s && log[i].commitId.seqNo == i + 1
    {
      BatchMembers(x, log[i]);
      WaitsAt(x, s, i);
    }
    forall m | m in b.ms && m.commitId.shardId == s
      ensures x.published[s] < m.commitId.seqNo <= |log|
    {
      BatchNumber(x, s, m);
    }
    TopOfBatch(log, x.published[s], b.ms, b.next[s], s);
  }

  // ---------- commits ----------

  // the disk still keeps what it kept
  lemma KeptAgrees(x: Machine, base: seq<nat>)
    requires |x.disk.logs| == |x.logged| && DiskKeeps(x, base)
    ensures base == KeptOf(x)
  {
    hide SnapshotKeeps, OpIdsKeep;
    forall s | 0 <= s < |base|
      ensures base[s] == KeptOf(x)[s]
    {
      assert ShardKept(x.disk.logs[s], x.logged[s], base[s]);
    }
  }

  lemma AcceptStored(x: Machine, m: Mutation)
    requires Stored(x) && Recovery.Enabled(x, Accept(m))
    ensures Stored(Recovery.Exec(x, Accept(m))) && KeptOf(Recovery.Exec(x, Accept(m))) == KeptOf(x)
  {
    AcceptMemory(x, m);
    AcceptDisk(x, m, KeptOf(x));
    var y := Recovery.Exec(x, Accept(m));
    hide DiskKeeps, MemoryCurrent;
    KeptAgrees(y, KeptOf(x));
  }

  // the shard that a commit extends
  lemma CommitExtends(committed: seq<Mutation>, retained: seq<Mutation>, floor: nat, kept: nat,
                      published: nat, watermark: nat, sent: set<Mutation>, m: Mutation)
    requires ShardSafe(committed, retained, floor, kept, published, watermark, sent)
    ensures ShardSafe(committed + [m], retained + [m], floor, kept, published, watermark + 1, sent)
  {
    assert (committed + [m])[floor..] == committed[floor..] + [m];
  }

  lemma CommitEffect(x: Machine, m: Mutation)
    requires x.memory.Shaped() && Recovery.Enabled(x, Accept(m))
    ensures var y := Recovery.Exec(x, Accept(m)); var s := m.commitId.shardId;
      && s < x.memory.shardCount == y.memory.shardCount == |x.logged| == |x.disk.logs|
      && m.commitId.seqNo == x.memory.watermarks[s] + 1
      && y.memory.Shaped() && y.memory.watermarks == x.memory.watermarks[s := m.commitId.seqNo]
      && y.memory.compacted == x.memory.compacted && y.memory.history == x.memory.history + [m]
      && y.logged == x.logged[s := x.logged[s] + [m]] && |y.disk.logs| == |x.disk.logs| && y.phase == Unsaved
  {
    ApplyReplicatedApplied(x.memory, m);
    hide ApplyReplicated;
  }

  // a batch in flight is not affected
  lemma BatchExtends(committed: seq<Mutation>, m: Mutation, published: nat, b: Batch, s: nat)
    requires s < |b.next| && BatchSafe(committed, published, b, s)
    ensures BatchSafe(committed + [m], published, b, s)
  {
  }

  lemma CommitSafe(x: Node, m: Mutation, s: nat)
    requires Inv(x) && Enabled(x, Store(Accept(m))) && s < |x.published|
    ensures Shaped(Exec(x, Store(Accept(m)))) && At(Exec(x, Store(Accept(m))), s)
  {
    AtOffsets(x, s);
    CommitEffect(x.machine, m);
    AcceptStored(x.machine, m);
    ProjectPush(x.machine.memory.history, m, s);
    hide Stored, KeptOf, Inv, Recovery.Exec, Recovery.Enabled, Project;
    if s == m.commitId.shardId {
      CommitExtends(x.machine.logged[s], Project(x.machine.memory.history, s), x.machine.memory.compacted[s],
                    KeptOf(x.machine)[s], x.published[s], x.machine.memory.watermarks[s], x.sent, m);
      if x.publishing.Some? {
        BatchExtends(x.machine.logged[s], m, x.published[s], x.publishing.value, s);
      }
    } else {
      assert Project(x.machine.memory.history, s) + [] == Project(x.machine.memory.history, s);
    }
    hide ShardSafe, BatchSafe;
  }

  // ---------- snapshots and op ids ----------

  lemma SnapshotStored(x: Machine, snap: Snapshot, phase: Phase)
    requires Stored(x) && IsSnapshotOf(snap, x.memory) && !phase.Trimming?
    ensures var y := x.(disk := x.disk.(snapshot := Some(snap)), phase := phase);
      Stored(y) && KeptOf(y) == KeptOf(x)
  {
    SnapshotDisk(x, snap, phase, KeptOf(x));
    hide DiskKeeps, Represents, Indexes, ValidLogs, EntryTable, RuleTable;
  }

  lemma OpIdsStored(x: Machine, ms: seq<Mutation>)
    requires Stored(x) && Recovery.Enabled(x, SaveOpIds(ms))
    ensures Stored(Recovery.Exec(x, SaveOpIds(ms))) && KeptOf(Recovery.Exec(x, SaveOpIds(ms))) == KeptOf(x)
  {
    OpIdsDisk(x, ms, KeptOf(x));
    hide DiskKeeps, Represents, Indexes, ValidLogs;
  }

  lemma StoreStored(x: Machine, write: Write)
    requires Stored(x) && !write.TrimLog? && !write.Crash? && Recovery.Enabled(x, write)
    ensures Stored(Recovery.Exec(x, write)) && KeptOf(Recovery.Exec(x, write)) == KeptOf(x)
  {
    hide Stored, KeptOf;
    match write
    case Accept(m) => AcceptStored(x, m);
    case SaveSnapshot(snap, compact) => SnapshotStored(x, snap, if compact then Due else Idle);
    case SaveCompactionSnapshot(snap) => SnapshotStored(x, snap, SnapshotSaved);
    case SaveOpIds(ms) => OpIdsStored(x, ms);
  }

  lemma StoreSafe(x: Node, write: Write, s: nat)
    requires Inv(x) && Enabled(x, Store(write)) && s < |x.published|
    ensures Shaped(Exec(x, Store(write))) && At(Exec(x, Store(write)), s)
  {
    if write.Accept? {
      CommitSafe(x, write.m, s);
    } else {
      AtOffsets(x, s);
      StoreStored(x.machine, write);
      hide Stored, KeptOf, Inv, ShardSafe, BatchSafe, Project, IsSnapshotOf, IsListingOf;
      assert x.machine.memory.compacted[s] <= x.published[s] by { SafeOrder(x, s); }
    }
  }

  lemma SafeOrder(x: Node, s: nat)
    requires Shaped(x) && s < x.machine.memory.shardCount && At(x, s)
    ensures x.machine.memory.compacted[s] <= x.published[s] <= x.machine.memory.watermarks[s]
  {
  }

  // ---------- compaction ----------

  // the rewritten log of a shard is what it held above the floor
  lemma {:induction false} AboveOneDrops(log: seq<Mutation>, from: nat, floor: nat)
    requires RunsFrom(log, from)
    ensures AboveOne(log, floor) == DropTo(log, from, floor)
  {
    if log != [] {
      var init, last := log[..|log| - 1], log[|log| - 1];
      AboveOneDrops(init, from, floor);
      DropToPush(init, last, from, floor);
      assert log == init + [last];
    }
  }

  // one shard's log is rewritten
  lemma TrimStored(x: Machine, floor: seq<nat>)
    requires Stored(x) && x.phase.Trimming? && x.phase.next < |floor| == x.memory.shardCount
    requires floor[x.phase.next] <= x.memory.watermarks[x.phase.next]
    requires InShards(x.memory.history, x.memory.shardCount) && CompactHistory(x.memory, floor).Ok?
    ensures var s := x.phase.next; var y := Trimmed(x, floor);
      Stored(y) && KeptOf(y) == KeptOf(x)[s := AtLeast(KeptOf(x)[s], floor[s])]
  {
    var s := x.phase.next;
    var y := Trimmed(x, floor);
    var base := KeptOf(x)[s := AtLeast(KeptOf(x)[s], floor[s])];
    TrimDiskTo(x, y, floor[s]);
    hide DiskKeeps, Represents, Indexes, ValidLogs, CompactHistory;
    KeptAgrees(y, base);
  }

  lemma TrimmedLog(x: Machine, s: nat, floor: nat)
    requires Stored(x) && s < |x.logged| && floor <= |x.logged[s]|
    ensures KeptOf(x)[s] <= |x.logged[s]|
    ensures AboveOne(x.disk.logs[s], floor) == x.logged[s][AtLeast(KeptOf(x)[s], floor)..]
  {
    var from := KeptOf(x)[s];
    assert ShardKept(x.disk.logs[s], x.logged[s], from);
    SuffixRuns(x.logged, s, from);
    hide Stored, KeptOf, RunsFrom, AboveOne;
    AboveOneDrops(x.disk.logs[s], from, floor);
  }

  // the logs when one of them is cut
  lemma TrimLogs(x: Machine, s: nat, floor: nat)
    requires Stored(x) && s < |x.logged| && floor <= |x.logged[s]|
    ensures var logs := x.disk.logs[s := AboveOne(x.disk.logs[s], floor)];
      var base := KeptOf(x)[s := AtLeast(KeptOf(x)[s], floor)];
      forall t :: 0 <= t < |base| ==> ShardKept(logs[t], x.logged[t], base[t])
  {
    TrimmedLog(x, s, floor);
    var kept := KeptOf(x);
    assert forall t :: 0 <= t < |kept| ==> ShardKept(x.disk.logs[t], x.logged[t], kept[t]);
    hide Stored, KeptOf, AboveOne;
  }

  // the snapshot of a compaction covers what is cut
  lemma TrimSnapshot(x: Machine, s: nat, cut: nat)
    requires Stored(x) && x.phase.Trimming? && s < |x.logged| && cut <= x.memory.watermarks[s]
    ensures x.disk.snapshot.Some?
    ensures SnapshotKeeps(x, x.disk.snapshot.value, KeptOf(x)[s := AtLeast(KeptOf(x)[s], cut)])
  {
    hide KeptOf, Represents, Indexes, ValidLogs, OpIdsKeep, ShardKept, IsListingOf, EntryTable, RuleTable;
  }

  lemma TrimDiskTo(x: Machine, y: Machine, floor: nat)
    requires Stored(x) && x.phase.Trimming? && x.phase.next < |x.logged| && floor <= x.memory.watermarks[x.phase.next]
    requires var s := x.phase.next;
      y == x.(disk := x.disk.(logs := x.disk.logs[s := AboveOne(x.disk.logs[s], floor)]), phase := Trimming(s + 1))
    ensures DiskKeeps(y, KeptOf(x)[x.phase.next := AtLeast(KeptOf(x)[x.phase.next], floor)])
  {
    var s := x.phase.next;
    var base := KeptOf(x)[s := AtLeast(KeptOf(x)[s], floor)];
    assert x.memory.watermarks[s] == |x.logged[s]| by { CurrentLengths(x, s); }
    TrimLogs(x, s, floor);
    TrimSnapshot(x, s, floor);
    TrimOpIds(x, base);
    hide KeptOf, AboveOne, Stored, ShardKept;
    SnapshotElsewhere(x, base, y);
    hide SnapshotKeeps;
    OpIdsElsewhere(x, base, y);
    hide OpIdsKeep;
  }

  lemma EndEffect(x: Machine, floor: seq<nat>)
    requires x.memory.Shaped() && x.phase.Trimming? && x.phase.next >= x.memory.shardCount
    requires |floor| == |x.disk.logs| == x.memory.shardCount
    requires InShards(x.memory.history, x.memory.shardCount) && CompactHistory(x.memory, floor).Ok?
    ensures var y := Trimmed(x, floor);
      && y == x.(memory := y.memory, phase := Idle) && y.memory.Shaped() && y.memory.shardCount == x.memory.shardCount
      && y.memory.entries == x.memory.entries && y.memory.rules == x.memory.rules
      && y.memory.watermarks == x.memory.watermarks && y.memory.opIndex == x.memory.opIndex
      && y.memory.history == Above(x.memory.history, floor) && InShards(y.memory.history, y.memory.shardCount)
      && forall s :: 0 <= s < x.memory.shardCount ==> y.memory.compacted[s] == AtLeast(x.memory.compacted[s], floor[s])
  {
    AboveInShards(x.memory.history, floor);
    hide Above;
  }

  lemma EndStored(x: Machine, floor: seq<nat>)
    requires Stored(x) && x.phase.Trimming? && x.phase.next >= x.memory.shardCount && |floor| == x.memory.shardCount
    requires InShards(x.memory.history, x.memory.shardCount) && CompactHistory(x.memory, floor).Ok?
    ensures Stored(Trimmed(x, floor)) && KeptOf(Trimmed(x, floor)) == KeptOf(x)
  {
    EndEffect(x, floor);
    var y := Trimmed(x, floor);
    DiskSame(x, y, KeptOf(x));
    hide DiskKeeps, Represents, Indexes, ValidLogs, Trimmed, Above, CompactHistory;
  }

  // the shard whose retained run loses a prefix
  lemma EndDrops(committed: seq<Mutation>, retained: seq<Mutation>, from: nat, floor: nat, kept: nat,
                 published: nat, watermark: nat, sent: set<Mutation>)
    requires ShardSafe(committed, retained, from, kept, published, watermark, sent) && from <= floor <= published
    ensures ShardSafe(committed, DropTo(retained, from, floor), floor, kept, published, watermark, sent)
  {
    assert committed[from..][floor - from..] == committed[floor..];
  }

  // what memory retains of a shard after a compaction
  lemma EndProject(x: Machine, floor: seq<nat>, s: nat)
    requires s < |x.logged| && s < |floor| == |x.memory.compacted| && RunsFrom(x.logged[s], 0)
    requires x.memory.compacted[s] <= |x.logged[s]| && InShards(x.memory.history, |floor|)
    requires Project(x.memory.history, s) == x.logged[s][x.memory.compacted[s]..]
    ensures Project(Above(x.memory.history, floor), s)
         == DropTo(Project(x.memory.history, s), x.memory.compacted[s], floor[s])
  {
    RunsFromDrop(x.logged[s], 0, x.memory.compacted[s]);
    hide Above, Project, DropTo, InShards;
    AboveProjects(x.memory.history, floor, s, x.memory.compacted[s]);
  }

  lemma CutKept(committed: seq<Mutation>, retained: seq<Mutation>, floor: nat, kept: nat, cut: nat,
                published: nat, watermark: nat, sent: set<Mutation>)
    requires ShardSafe(committed, retained, floor, kept, published, watermark, sent) && cut <= published
    ensures ShardSafe(committed, retained, floor, AtLeast(kept, cut), published, watermark, sent)
  {
  }

  lemma CutSafe(x: Node, s: nat)
    requires Inv(x) && Enabled(x, TrimShard) && s < |x.published| && x.machine.phase.next < x.machine.memory.shardCount
    ensures Shaped(Exec(x, TrimShard)) && At(Exec(x, TrimShard), s) && Stored(Exec(x, TrimShard).machine)
  {
    var m := x.machine;
    AtOffsets(x, s);
    AtOffsets(x, m.phase.next);
    SafeOrder(x, m.phase.next);
    hide Stored, KeptOf, BatchSafe, ShardSafe, Inv, InShards, Project, AboveOne, CompactHistory;
    TrimStored(m, x.floor);
    CutKept(m.logged[s], Project(m.memory.history, s), m.memory.compacted[s], KeptOf(m)[s], x.floor[s],
            x.published[s], m.memory.watermarks[s], x.sent);
  }

  lemma EndSafe(x: Node, s: nat)
    requires Inv(x) && Enabled(x, TrimShard) && s < |x.published| && x.machine.phase.next >= x.machine.memory.shardCount
    ensures Shaped(Exec(x, TrimShard)) && At(Exec(x, TrimShard), s) && Stored(Exec(x, TrimShard).machine)
  {
    AtOffsets(x, s);
    var m := x.machine;
    CommittedRuns(m, s);
    EndEffect(m, x.floor);
    EndStored(m, x.floor);
    hide Stored, KeptOf, BatchSafe, Inv, Trimmed, Above, Project, CompactHistory, DropTo, RunsFrom, InShards;
    EndProject(m, x.floor, s);
    EndDrops(m.logged[s], Project(m.memory.history, s), m.memory.compacted[s], x.floor[s], KeptOf(m)[s],
             x.published[s], m.memory.watermarks[s], x.sent);
  }

  lemma TrimSafe(x: Node, s: nat)
    requires Inv(x) && Enabled(x, TrimShard) && s < |x.published|
    ensures Shaped(Exec(x, TrimShard)) && At(Exec(x, TrimShard), s) && Stored(Exec(x, TrimShard).machine)
  {
    assert x.machine.phase.Trimming?;
    hide At, Inv, Stored, Exec, Enabled;
    if x.machine.phase.next < x.machine.memory.shardCount {
      CutSafe(x, s);
    } else {
      EndSafe(x, s);
    }
  }

  // ---------- restarts ----------

  /** What is stored is what a reload asks for. */
  lemma StoredHolds(x: Machine)
    requires Stored(x)
    ensures DiskHolds(x.disk, x.logged, KeptOf(x), x.memory.opIndex) && Tells(x.disk, x.logged, x.memory.opIndex)
  {
    var kept := KeptOf(x);
    IdempotencyComplete(x, kept);
    StoredKept(x);
    hide Represents, Indexes, OpIdsKeep, IdempotencyOf, ShardListed, ShardKept, KeptOf, KeptFrom, AllIndexed;
    hide EntryTable, RuleTable, ValidLogs;
  }

  lemma StoredKept(x: Machine)
    requires Stored(x)
    ensures KeptFrom(x.disk.logs, x.logged, KeptOf(x))
  {
    hide Represents, Indexes, OpIdsKeep, SnapshotKeeps, KeptOf;
    assert forall s :: 0 <= s < |x.logged| ==> ShardKept(x.disk.logs[s], x.logged[s], KeptOf(x)[s]);
  }

  // a load that succeeds, at any point
  lemma RestartRebuilds(x: Machine, published: seq<nat>, loaded: Source)
    requires Stored(x) && FlatLogs(x.disk.logs, x.memory.shardCount) && AtMostEach(KeptOf(x), published)
    requires Load(x.disk, x.memory.shardCount, x.memory.region, Some(published)) == Ok(loaded)
    ensures Windowed(loaded) && loaded.entries == x.memory.entries && loaded.rules == x.memory.rules
    ensures loaded.watermarks == x.memory.watermarks && loaded.opIndex == x.memory.opIndex && loaded.compacted == KeptOf(x)
    ensures |loaded.watermarks| == |x.logged|
    ensures forall s :: 0 <= s < |x.logged| ==>
      KeptOf(x)[s] <= |x.logged[s]| && Project(loaded.history, s) == x.logged[s][KeptOf(x)[s]..]
  {
    StoredHolds(x);
    StoredKept(x);
    CurrentShape(x);
    hide Stored, Load, FlatLogs, DiskHolds, Tells, KeptOf, Windowed, MemoryCurrent, AtMostEach;
    PublisherReloadRebuilds(x.disk, x.memory.region, x.logged, KeptOf(x), published, x.memory.opIndex);
    RebuiltTables(loaded, x, KeptOf(x));
    forall s | 0 <= s < |x.logged|
      ensures KeptOf(x)[s] <= |x.logged[s]| && Project(loaded.history, s) == x.logged[s][KeptOf(x)[s]..]
    {
      KeptStream(x.disk.logs, x.logged, KeptOf(x), s);
    }
  }

  lemma CurrentShape(x: Machine)
    requires Stored(x)
    ensures MemoryCurrent(x) && x.memory.shardCount == |x.logged| == |x.disk.logs| > 0
  {
    hide Represents, Indexes, ValidLogs, DiskKeeps;
  }

  lemma RebuiltTables(r: Source, x: Machine, kept: seq<nat>)
    requires MemoryCurrent(x) && Rebuilt(r, x.disk.logs, x.logged, kept)
    ensures r.entries == x.memory.entries && r.rules == x.memory.rules && r.watermarks == x.memory.watermarks
    ensures r.compacted == kept && r.history == SortForLoad(Flatten(x.disk.logs)) && |r.watermarks| == |x.logged|
  {
    hide Represents, Indexes, ValidLogs, SortForLoad, Flatten;
    WatermarksDetermineTables(r.entries, r.rules, x.memory.entries, x.memory.rules, x.logged, Lengths(x.logged));
  }

  // memory that is replaced by the same tables, watermarks and op ids
  lemma ReplacedStored(x: Machine, loaded: Source)
    requires Stored(x) && Windowed(loaded) && loaded.entries == x.memory.entries && loaded.rules == x.memory.rules
    requires loaded.watermarks == x.memory.watermarks && loaded.opIndex == x.memory.opIndex
    ensures loaded.Shaped() && loaded.shardCount == x.memory.shardCount
    ensures var y := x.(memory := loaded, phase := Unsaved); Stored(y) && KeptOf(y) == KeptOf(x)
  {
    CurrentShape(x);
    WindowedShape(loaded);
    ShapeOf(x);
    var y := x.(memory := loaded, phase := Unsaved);
    hide Windowed, MemoryCurrent, DiskKeeps, KeptFromOn;
    DiskSame(x, y, KeptOf(x));
    ReplacedCurrent(x, y);
  }

  lemma ShapeOf(x: Machine)
    requires MemoryCurrent(x)
    ensures |x.memory.watermarks| == x.memory.shardCount
  {
    hide Represents, Indexes, ValidLogs;
  }

  lemma RestartStored(x: Machine, published: seq<nat>, loaded: Source)
    requires Stored(x) && FlatLogs(x.disk.logs, x.memory.shardCount) && AtMostEach(KeptOf(x), published)
    requires Load(x.disk, x.memory.shardCount, x.memory.region, Some(published)) == Ok(loaded)
    ensures var y := x.(memory := loaded, phase := Unsaved);
      loaded.Shaped() && loaded.shardCount == x.memory.shardCount && Stored(y) && KeptOf(y) == KeptOf(x)
  {
    RestartRebuilds(x, published, loaded);
    hide *;
    ReplacedStored(x, loaded);
  }

  lemma WindowedShape(s: Source)
    requires Windowed(s)
    ensures s.Shaped() && s.shardCount == |s.watermarks|
  {
  }

  lemma KeptPublished(x: Node)
    requires Inv(x)
    ensures AtMostEach(KeptOf(x.machine), x.published)
  {
    hide Stored, KeptOf;
    forall s | 0 <= s < |x.published|
      ensures KeptOf(x.machine)[s] <= x.published[s]
    {
      assert At(x, s);
    }
  }

  lemma RestartSafe(x: Node, loaded: Source, s: nat)
    requires Inv(x) && Enabled(x, Restart(loaded)) && s < |x.published|
    ensures Shaped(Exec(x, Restart(loaded))) && At(Exec(x, Restart(loaded)), s) && Stored(Exec(x, Restart(loaded)).machine)
  {
    AtOffsets(x, s);
    KeptPublished(x);
    RestartRebuilds(x.machine, x.published, loaded);
    RestartStored(x.machine, x.published, loaded);
    hide Stored, KeptOf, Inv, Load, FlatLogs, BatchSafe, Project, Windowed;
  }

  // ---------- every run ----------

  lemma StepKeepsShard(x: Node, step: Step, s: nat)
    requires Inv(x) && Enabled(x, step) && s < |x.published|
    ensures Shaped(Exec(x, step)) && |Exec(x, step).published| == |x.published|
    ensures At(Exec(x, step), s) && Stored(Exec(x, step).machine)
  {
    AtOffsets(x, s);
    match step
    case Store(write) =>
      StoreStored(x.machine, write);
      StoreSafe(x, write, s);
      hide Inv, At, Stored, Recovery.Exec, Recovery.Enabled;
    case TrimShard =>
      TrimSafe(x, s);
      hide Inv, At, Stored, Trimmed;
    case BeginPublish =>
      BatchIsComplete(x, s);
      hide BatchSafe, ShardSafe, Project, KeptOf, Stored, Collected, AdvanceAll;
    case EndPublish => hide Stored, Project, KeptOf;
    case FailPublish(_) => hide Stored, Project, KeptOf;
    case Restart(loaded) =>
      RestartSafe(x, loaded, s);
      hide Inv, At, Stored, Load, FlatLogs;
  }

  lemma StepKeepsInv(x: Node, step: Step)
    requires Inv(x) && Enabled(x, step)
    ensures Inv(Exec(x, step))
  {
    hide At, Stored, Exec, Enabled;
    forall s | 0 <= s < |x.published|
      ensures Shaped(Exec(x, step)) && |Exec(x, step).published| == |x.published|
      ensures At(Exec(x, step), s) && Stored(Exec(x, step).machine)
    {
      StepKeepsShard(x, step, s);
    }
    assert |x.published| > 0;
    StepKeepsShard(x, step, 0);
  }

  predicate Fresh(x: Node, n: nat, region: string) {
    Recovery.Fresh(x.machine, n, region) && x == Node(x.machine, seq(n, _ => 0), None, [], {})
  }

  /** A life of one commitd with a publisher. */
  ghost predicate Life(states: seq<Node>, steps: seq<Step>) {
    && |states| == |steps| + 1
    && Fresh(states[0], states[0].machine.memory.shardCount, states[0].machine.memory.region)
    && forall i :: 0 <= i < |steps| ==>
         Shaped(states[i]) && Enabled(states[i], steps[i]) && states[i + 1] == Exec(states[i], steps[i])
  }

  lemma FreshInv(x: Node)
    requires Fresh(x, x.machine.memory.shardCount, x.machine.memory.region)
    ensures Inv(x)
  {
    EmptyRepresents(x.machine.logged);
    var m := x.machine;
    assert DiskKeeps(m, seq(m.memory.shardCount, _ => 0));
    hide Represents;
    KeptAgrees(m, seq(m.memory.shardCount, _ => 0));
  }

  lemma {:induction false} InvThroughout(states: seq<Node>, steps: seq<Step>, i: nat)
    requires Life(states, steps) && i < |states|
    ensures Inv(states[i])
  {
    hide Exec, Enabled, Inv;
    if i == 0 {
      FreshInv(states[0]);
    } else {
      InvThroughout(states, steps, i - 1);
      StepKeepsInv(states[i - 1], steps[i - 1]);
    }
  }

  /** Publisher-safe compaction: at every point of every run from an empty node, restarts included, for
      every shard, the floor is at most the published offset and that at most the watermark; every
      mutation above the offset is still in memory and in the log; every mutation up to it was sent. */
  lemma UnpublishedIsKept(states: seq<Node>, steps: seq<Step>, i: nat, s: nat, k: nat)
    requires Life(states, steps) && i < |states| && Shaped(states[i])
    requires s < |states[i].published| && k < |states[i].machine.logged[s]|
    ensures var x := states[i]; var m := x.machine;
      && m.memory.compacted[s] <= x.published[s] <= m.memory.watermarks[s] == |m.logged[s]|
      && (k >= x.published[s] ==> m.logged[s][k] in m.memory.history && m.logged[s][k] in m.disk.logs[s])
      && (k < x.published[s] ==> m.logged[s][k] in x.sent)
  {
    InvThroughout(states, steps, i);
    var x, m := states[i], states[i].machine;
    AtOffsets(x, s);
    hide Inv, Life, Stored, KeptOf, FloorSafe, BatchSafe, Project;
    if k >= x.published[s] {
      KeptInLog(m, s, k);
      RetainedHas(m.memory.history, m.logged[s], s, m.memory.compacted[s], k);
    }
  }

  lemma RetainedHas(history: seq<Mutation>, committed: seq<Mutation>, s: nat, floor: nat, k: nat)
    requires floor <= k < |committed| && Project(history, s) == committed[floor..]
    ensures committed[k] in history
  {
    assert committed[floor..][k - floor] == committed[k];
    hide Project;
    ProjectMember(history, s, committed[k]);
  }

  lemma KeptInLog(m: Machine, s: nat, k: nat)
    requires Stored(m) && s < |m.logged| && KeptOf(m)[s] <= k < |m.logged[s]|
    ensures m.logged[s][k] in m.disk.logs[s]
  {
    StoredKept(m);
    assert ShardKept(m.disk.logs[s], m.logged[s], KeptOf(m)[s]);
    hide Stored, KeptOf, KeptFrom;
    assert m.disk.logs[s][k - KeptOf(m)[s]] == m.logged[s][k];
  }

  lemma {:induction false} ProjectMember(ms: seq<Mutation>, s: nat, m: Mutation)
    requires m in Project(ms, s)
    ensures m in ms
  {
    if ms != [] && m in Project(ms[..|ms| - 1], s) {
      ProjectMember(ms[..|ms| - 1], s, m);
    }
  }

  /** Restarting, exactly. At any point of any run a restart can load if and only if there is no
      snapshot yet, or every shard's log was rewritten up to precisely the lower of its published offset
      and its snapshot watermark, or no log was rewritten and the snapshot has everything logged. */
  lemma RestartsIff(states: seq<Node>, steps: seq<Step>, i: nat)
    requires Life(states, steps) && i < |states|
    ensures var x := states[i]; var m := x.machine;
      && m.memory.Shaped() && FlatLogs(m.disk.logs, m.memory.shardCount) && |m.disk.logs| == |m.logged|
      && (Load(m.disk, m.memory.shardCount, m.memory.region, Some(x.published)).Ok? <==>
            || m.disk.snapshot.None?
            || (|m.disk.snapshot.value.watermarks| == |x.published|
                && KeptOf(m) == Lowered(x.published, m.disk.snapshot.value.watermarks))
            || Complete(m.disk, m.logged, KeptOf(m)))
  {
    InvThroughout(states, steps, i);
    var x, m := states[i], states[i].machine;
    KeptPublished(x);
    CurrentShape(m);
    StoredHolds(m);
    assert m.memory.Shaped();
    hide Life, Inv, Stored, KeptOf, Load, FlatLogs, DiskHolds, Tells, Complete, MemoryCurrent, AtMostEach;
    PublisherReloadIff(m.disk, m.memory.region, m.logged, KeptOf(m), x.published, m.memory.opIndex);
  }

  /** And a restart that loads has the tables, watermarks and op ids that memory had; its history is
      what the logs still had. */
  lemma RestartLosesNothing(states: seq<Node>, steps: seq<Step>, i: nat, loaded: Source)
    requires Life(states, steps) && i < |states| && Shaped(states[i]) && Enabled(states[i], Restart(loaded))
    ensures var m := states[i].machine;
      && loaded.entries == m.memory.entries && loaded.rules == m.memory.rules
      && loaded.watermarks == m.memory.watermarks && loaded.opIndex == m.memory.opIndex
      && Windowed(loaded) && loaded.compacted == KeptOf(m)
  {
    InvThroughout(states, steps, i);
    KeptPublished(states[i]);
    hide Life, Stored, KeptOf, Load, FlatLogs, AtMostEach, Windowed;
    RestartRebuilds(states[i].machine, states[i].published, loaded);
  }
}
