/** Crash recovery of one commitd without a publisher: the durable writes of a commit and of a log
    compaction, one at a time, a crash possible between any two of them, and the load that follows. */
module Recovery {
  import opened Domain
  import opened Text
  import opened SourceSpec
  import opened Replay
  import opened Loading
  import opened History

  // the snapshot and the op-id file hold map values in some order
  predicate IsSnapshotOf(snap: Snapshot, s: Source) {
    && snap.shardCount == s.shardCount && snap.watermarks == s.watermarks && snap.Validates()
    && EntryTable(snap.entries) == s.entries && RuleTable(snap.rules) == s.rules
  }

  predicate IsListingOf(ms: seq<Mutation>, index: map<string, Mutation>) {
    && (forall i :: 0 <= i < |ms| ==> Get(index, ms[i].opId) == Some(ms[i]))
    && (forall op :: op in index ==> index[op] in ms)
  }

  /** Where a commit or a compaction stands between two durable writes. */
  datatype Phase =
    | Idle                  // nothing to write
    | Unsaved               // a mutation is in the log and in memory, the snapshot not yet written
    | Due                   // compaction begins: snapshot next
    | SnapshotSaved         // compaction: op ids next
    | Trimming(next: nat)   // compaction: the log of shard `next` is rewritten next

  datatype Machine = Machine(
    memory: Source,
    disk: Disk,
    phase: Phase,
    logged: seq<seq<Mutation>>)   // history: every mutation ever durably logged, shard by shard

  /** A mutation the commit path accepts: prepared by this source, or replicated and in step. */
  predicate Acceptable(s: Source, m: Mutation)
    requires s.Shaped()
  {
    && m.opId !in s.opIndex
    && m.commitId.shardId < s.shardCount && Routed(m, s.shardCount)
    && m.commitId.seqNo == s.watermarks[m.commitId.shardId] + 1
  }

  /** A prepared request is acceptable. */
  lemma PreparedIsAcceptable(s: Source, hash: KeyHash, req: DenyRequest, now: nat)
    requires s.Shaped()
    ensures var r := PrepareCommit(s, hash, req, now);
      r.Ok? && !r.value.duplicate ==> Acceptable(s, r.value.mutation)
  {
  }

  datatype Step =
    | Accept(m: Mutation)
    | SaveSnapshot(snap: Snapshot, compact: bool)
    | SaveCompactionSnapshot(snap: Snapshot)
    | SaveOpIds(ms: seq<Mutation>)
    | TrimLog
    | Crash(loaded: Source)

  predicate FlatLogs(logs: seq<seq<Mutation>>, n: nat) {
    |logs| == n && forall i :: 0 <= i < |Flatten(logs)| ==> Flatten(logs)[i].commitId.shardId < n
  }

  predicate Enabled(x: Machine, step: Step)
    requires x.memory.Shaped()
  {
    var n := x.memory.shardCount;
    match step
    case Accept(m) => x.phase == Idle && |x.disk.logs| == n && |x.logged| == n && Acceptable(x.memory, m)
    case SaveSnapshot(snap, _) => x.phase == Unsaved && IsSnapshotOf(snap, x.memory)
    case SaveCompactionSnapshot(snap) => x.phase == Due && IsSnapshotOf(snap, x.memory)
    case SaveOpIds(ms) => x.phase == SnapshotSaved && IsListingOf(ms, x.memory.opIndex)
    case TrimLog => x.phase.Trimming? && |x.disk.logs| == n
                    && (forall i :: 0 <= i < |x.memory.history| ==> x.memory.history[i].commitId.shardId < n)
                    && CompactHistory(x.memory, x.memory.watermarks).Ok?
    case Crash(loaded) => FlatLogs(x.disk.logs, n) && Load(x.disk, n, x.memory.region, None) == Ok(loaded)
  }

  // apply_prepared_mutation, compact_mutation_logs_locked, and a restart at any point. The first
  // writes after a restart are a snapshot and perhaps a compaction.
  function Exec(x: Machine, step: Step): Machine
    requires x.memory.Shaped() && Enabled(x, step)
  {
    match step
    case Accept(m) =>
      var shard := m.commitId.shardId;
      Machine(ApplyReplicated(x.memory, m).value.0,
              x.disk.(logs := x.disk.logs[shard := x.disk.logs[shard] + [m]]),
              Unsaved,
              x.logged[shard := x.logged[shard] + [m]])
    case SaveSnapshot(snap, compact) =>
      x.(disk := x.disk.(snapshot := Some(snap)), phase := if compact then Due else Idle)
    case SaveCompactionSnapshot(snap) => x.(disk := x.disk.(snapshot := Some(snap)), phase := SnapshotSaved)
    case SaveOpIds(ms) => x.(disk := x.disk.(opIds := Some(ms)), phase := Trimming(0))
    case TrimLog =>
      var shard := x.phase.next;
      if shard < x.memory.shardCount then
        x.(disk := x.disk.(logs := x.disk.logs[shard := AboveOne(x.disk.logs[shard], x.memory.watermarks[shard])]),
           phase := Trimming(shard + 1))
      else x.(memory := CompactHistory(x.memory, x.memory.watermarks).value, phase := Idle)
    case Crash(loaded) => x.(memory := loaded, phase := Unsaved)
  }

  // ---------- the invariant ----------

  /** The memory is exactly what the logged mutations say. */
  ghost predicate MemoryCurrent(x: Machine) {
    && x.memory.Shaped() && x.memory.shardCount == |x.logged| && ValidLogs(x.logged)
    && x.memory.watermarks == Lengths(x.logged)
    && Represents(x.memory.entries, x.memory.rules, x.logged, Lengths(x.logged))
    && Indexes(x.memory.opIndex, x.logged, Lengths(x.logged))
    && (forall i :: 0 <= i < |x.memory.history| ==> x.memory.history[i].commitId.shardId < x.memory.shardCount)
  }

  /** The log of shard s keeps everything from base[s] on; what is below base is in the op-id file
      and under the snapshot. */
  ghost predicate DiskKeeps(x: Machine, base: seq<nat>) {
    && |base| == |x.logged| == |x.disk.logs|
    && (forall s :: 0 <= s < |base| ==>
          ShardKept(x.disk.logs[s], x.logged[s], base[s]))
    && (x.disk.snapshot.None? ==> forall s :: 0 <= s < |base| ==> base[s] == 0)
    && (x.disk.snapshot.Some? ==> SnapshotKeeps(x, x.disk.snapshot.value, base))
    && (x.disk.opIds.None? ==> forall s :: 0 <= s < |base| ==> base[s] == 0)
    && (x.disk.opIds.Some? ==> OpIdsKeep(x, x.disk.opIds.value, base))
  }

  predicate ShardKept(log: seq<Mutation>, logged: seq<Mutation>, base: nat) {
    base <= |logged| && log == logged[base..]
  }

  // the first `upto` mutations of a shard are all listed
  predicate ShardListed(logged: seq<Mutation>, upto: nat, ms: seq<Mutation>) {
    forall i :: 0 <= i < |logged| && i < upto ==> logged[i] in ms
  }

  ghost predicate SnapshotKeeps(x: Machine, snap: Snapshot, base: seq<nat>)
    requires |base| == |x.logged|
  {
    && snap.Validates() && snap.shardCount == |x.logged| && Within(snap.watermarks, x.logged)
    && Represents(EntryTable(snap.entries), RuleTable(snap.rules), x.logged, snap.watermarks)
    && forall s :: 0 <= s < |base| ==> base[s] <= snap.watermarks[s]
  }

  ghost predicate OpIdsKeep(x: Machine, ms: seq<Mutation>, base: seq<nat>)
    requires |base| == |x.logged|
  {
    && (forall i :: 0 <= i < |ms| ==> Get(x.memory.opIndex, ms[i].opId) == Some(ms[i]))
    && (forall s :: 0 <= s < |base| ==> ShardListed(x.logged[s], base[s], ms))
  }

  // during a compaction the snapshot, and then the op-id file, are up to date
  ghost predicate CompactionReady(x: Machine) {
    && (x.phase.SnapshotSaved? || x.phase.Trimming? ==>
          x.disk.snapshot.Some? && x.disk.snapshot.value.watermarks == x.memory.watermarks)
    && (x.phase.Trimming? ==> x.disk.opIds.Some? && IsListingOf(x.disk.opIds.value, x.memory.opIndex))
  }

  ghost predicate Inv(x: Machine) {
    && MemoryCurrent(x) && CompactionReady(x)
    && exists base: seq<nat> :: DiskKeeps(x, base)
  }

  // ---------- loading ----------

  // each log holds mutations of its own shard
  predicate Filed(logs: seq<seq<Mutation>>) {
    forall t, i {:trigger logs[t][i]} :: 0 <= t < |logs| && 0 <= i < |logs[t]| ==> logs[t][i].commitId.shardId == t
  }

  predicate Uniform(ms: seq<Mutation>, shard: nat) {
    forall i :: 0 <= i < |ms| ==> ms[i].commitId.shardId == shard
  }

  lemma FiledInit(logs: seq<seq<Mutation>>)
    requires Filed(logs) && logs != []
    ensures Filed(logs[..|logs| - 1])
    ensures Uniform(logs[|logs| - 1], |logs| - 1)
  {
    var init: seq<seq<Mutation>> := logs[..|logs| - 1];
    forall t, i {:trigger init[t][i]} | 0 <= t < |init| && 0 <= i < |init[t]|
      ensures init[t][i].commitId.shardId == t
    {
      assert init[t][i] == logs[t][i];
    }
  }

  lemma InShardsConcat(a: seq<Mutation>, b: seq<Mutation>, n: nat)
    requires InShards(a, n) && Uniform(b, n)
    ensures InShards(a + b, n + 1)
  {
  }

  lemma {:induction false} FlattenProjects(logs: seq<seq<Mutation>>, s: nat)
    requires Filed(logs)
    ensures Project(Flatten(logs), s) == if s < |logs| then logs[s] else []
    ensures InShards(Flatten(logs), |logs|)
  {
    if logs != [] {
      var init, last := logs[..|logs| - 1], logs[|logs| - 1];
      FiledInit(logs);
      assert Flatten(logs) == Flatten(init) + last;
      hide Filed, Flatten, Project, InShards, Uniform;
      FlattenProjects(init, s);
      ProjectConcat(Flatten(init), last, s);
      ProjectUniform(last, |logs| - 1, s);
      InShardsConcat(Flatten(init), last, |init|);
      var before, after := Project(Flatten(init), s), Project(last, s);
      assert after == [] ==> before + after == before;
      assert before == [] ==> before + after == after;
    }
  }

  lemma {:induction false} ProjectUniform(ms: seq<Mutation>, shard: nat, s: nat)
    requires Uniform(ms, shard)
    ensures Project(ms, s) == if s == shard then ms else []
  {
    if ms != [] {
      ProjectUniform(ms[..|ms| - 1], shard, s);
    }
  }

  predicate ShardIndexed(log: seq<Mutation>, index: map<string, Mutation>) {
    forall i :: 0 <= i < |log| ==> log[i].opId in index
  }

  lemma ListedIndexed(log: seq<Mutation>, ms: seq<Mutation>, index: map<string, Mutation>)
    requires ShardListed(log, |log|, ms) && forall k :: 0 <= k < |ms| ==> ms[k].opId in index
    ensures ShardIndexed(log, index)
  {
    forall i | 0 <= i < |log|
      ensures log[i].opId in index
    {
      assert log[i] in ms;
    }
  }

  /** An index inside the full one that has every logged op id is the full one. */
  lemma CoveringIsFull(index: map<string, Mutation>, full: map<string, Mutation>, logs: seq<seq<Mutation>>)
    requires |logs| > 0 && Within(Lengths(logs), logs) && Indexes(full, logs, Lengths(logs)) && SubIndex(index, full)
    requires forall s :: 0 <= s < |logs| ==> ShardIndexed(logs[s], index)
    ensures index == full
  {
    forall op
      ensures Get(index, op) == Get(full, op)
    {
      if op in full {
        assert Logged(full[op], logs, Lengths(logs));
        var s, i :| 0 <= s < |logs| && 0 <= i < Lengths(logs)[s] && logs[s][i] == full[op];
        assert ShardIndexed(logs[s], index) && logs[s][i].opId in index;
        assert Get(full, op) == Some(index[op]);
      }
    }
    MapsEqualByGet(index, full);
  }

  /** Loading a tail on top of a state that represents the logs up to a brings it up to date. */
  lemma LoadTail(base: Source, logs: seq<seq<Mutation>>, a: seq<nat>, ms: seq<Mutation>, full: map<string, Mutation>)
    requires base.Shaped() && base.shardCount == |logs| && ValidLogs(logs)
    requires Within(a, logs) && Interleaves(ms, logs, a, Lengths(logs))
    requires base.watermarks == a && Represents(base.entries, base.rules, logs, a)
    requires SubIndex(base.opIndex, full) && AllIndexed(ms, full)
    ensures var r := ReplayLoaded(base, SortForLoad(ms));
      && r.Ok? && r.value.watermarks == Lengths(logs)
      && Represents(r.value.entries, r.value.rules, logs, Lengths(logs))
      && r.value.history == base.history + SortForLoad(ms) && r.value.compacted == base.compacted
      && SubIndex(r.value.opIndex, full)
      && (forall op :: op in base.opIndex ==> op in r.value.opIndex)
      && (forall i :: 0 <= i < |ms| ==> ms[i].opId in r.value.opIndex)
  {
    var sorted := SortForLoad(ms);
    SortedInterleaves(ms, logs, a, Lengths(logs));
    AllIndexedPermutation(ms, sorted, full);
    InsertOpsWithin(base.opIndex, sorted, full);
    ReplayInterleaving(base, logs, a, Lengths(logs), sorted);
    hide Represents, Interleaves, ValidLogs;
    forall i | 0 <= i < |ms|
      ensures ms[i].opId in InsertOps(base.opIndex, sorted).value
    {
      assert ms[i] in multiset(ms);
      assert ms[i] in sorted;
    }
  }

  /** What the logs still hold, as one list: of every shard, its mutations from base on. */
  lemma KeptLogs(x: Machine, base: seq<nat>)
    requires MemoryCurrent(x) && DiskKeeps(x, base)
    ensures FlatLogs(x.disk.logs, x.memory.shardCount)
    ensures forall s :: 0 <= s < |base| ==> Project(Flatten(x.disk.logs), s) == x.logged[s][base[s]..]
  {
    hide Represents, SnapshotKeeps, OpIdsKeep, Indexes;
    forall t, i {:trigger x.disk.logs[t][i]} | 0 <= t < |x.disk.logs| && 0 <= i < |x.disk.logs[t]|
      ensures x.disk.logs[t][i].commitId.shardId == t
    {
      assert ShardKept(x.disk.logs[t], x.logged[t], base[t]);
      assert x.disk.logs[t][i] == x.logged[t][base[t] + i];
    }
    FlattenProjects(x.disk.logs, 0);
    forall s | 0 <= s < |base|
      ensures Project(Flatten(x.disk.logs), s) == x.logged[s][base[s]..]
    {
      FlattenProjects(x.disk.logs, s);
      assert ShardKept(x.disk.logs[s], x.logged[s], base[s]);
    }
  }

  lemma SuffixRuns(logs: seq<seq<Mutation>>, s: nat, b: nat)
    requires ValidLogs(logs) && s < |logs| && b <= |logs[s]|
    ensures RunsFrom(logs[s][b..], b)
  {
    forall i | 0 <= i < |logs[s]| - b
      ensures logs[s][b..][i].commitId.seqNo == b + 1 + i
    {
      assert logs[s][b..][i] == logs[s][b + i];
    }
  }

  // every kept mutation is in the op index
  lemma KeptIndexed(x: Machine, base: seq<nat>)
    requires MemoryCurrent(x) && DiskKeeps(x, base)
    ensures AllIndexed(Flatten(x.disk.logs), x.memory.opIndex)
  {
    KeptLogs(x, base);
    hide Represents, SnapshotKeeps, OpIdsKeep, ValidLogs;
    var all := Flatten(x.disk.logs);
    forall i | 0 <= i < |all|
      ensures Get(x.memory.opIndex, all[i].opId) == Some(all[i])
    {
      ProjectIndex(all, i);
      var s := all[i].commitId.shardId;
      var k := |Project(all[..i], s)|;
      assert all[i] == x.logged[s][base[s]..][k] == x.logged[s][base[s] + k];
    }
  }

  lemma {:induction false} FlattenMembers(logs: seq<seq<Mutation>>, s: nat, i: nat)
    requires s < |logs| && i < |logs[s]|
    ensures logs[s][i] in Flatten(logs)
  {
    if s < |logs| - 1 {
      FlattenMembers(logs[..|logs| - 1], s, i);
    }
  }

  // every logged mutation from base on is kept
  lemma KeptCovers(x: Machine, base: seq<nat>, s: nat, i: nat)
    requires DiskKeeps(x, base) && s < |base| && base[s] <= i < |x.logged[s]|
    ensures x.logged[s][i] in Flatten(x.disk.logs)
  {
    hide SnapshotKeeps, OpIdsKeep;
    assert ShardKept(x.disk.logs[s], x.logged[s], base[s]);
    FlattenMembers(x.disk.logs, s, i - base[s]);
  }

  // with nothing trimmed, the logs alone
  lemma UntrimmedInterleaves(x: Machine, base: seq<nat>, zero: seq<nat>)
    requires MemoryCurrent(x) && DiskKeeps(x, base) && (forall s :: 0 <= s < |base| ==> base[s] == 0)
    requires zero == seq(|x.logged|, _ => 0)
    ensures Within(zero, x.logged) && Interleaves(Flatten(x.disk.logs), x.logged, zero, Lengths(x.logged))
  {
    KeptLogs(x, base);
    hide Represents, SnapshotKeeps, OpIdsKeep, ValidLogs, Indexes;
    var all := Flatten(x.disk.logs);
    forall s | 0 <= s < |x.logged|
      ensures Project(all, s) == x.logged[s][zero[s]..Lengths(x.logged)[s]]
    {
      assert Project(all, s) == x.logged[s][base[s]..] && base[s] == 0;
    }
  }

  lemma KeptListed(x: Machine, base: seq<nat>, s: nat)
    requires DiskKeeps(x, base) && s < |base| && base[s] == 0
    ensures ShardListed(x.logged[s], |x.logged[s]|, Flatten(x.disk.logs))
  {
    hide SnapshotKeeps, OpIdsKeep;
    forall i | 0 <= i < |x.logged[s]|
      ensures x.logged[s][i] in Flatten(x.disk.logs)
    {
      KeptCovers(x, base, s, i);
    }
  }

  lemma LoadFromLogs(x: Machine, base: seq<nat>)
    requires MemoryCurrent(x) && DiskKeeps(x, base) && x.disk.snapshot.None?
    ensures var r := FromMutations(x.memory.shardCount, x.memory.region, Flatten(x.disk.logs));
      && r.Ok? && r.value.watermarks == x.memory.watermarks
      && Represents(r.value.entries, r.value.rules, x.logged, Lengths(x.logged))
      && r.value.opIndex == x.memory.opIndex
  {
    var n := x.memory.shardCount;
    var all := Flatten(x.disk.logs);
    var zero := New(n, x.memory.region);
    KeptIndexed(x, base);
    UntrimmedInterleaves(x, base, zero.watermarks);
    EmptyRepresents(x.logged);
    LoadTail(zero, x.logged, zero.watermarks, all, x.memory.opIndex);
    hide Represents, SnapshotKeeps, OpIdsKeep, ValidLogs, Interleaves, Indexes;
    var r := FromMutations(n, x.memory.region, all).value;
    forall s | 0 <= s < |x.logged|
      ensures ShardIndexed(x.logged[s], r.opIndex)
    {
      KeptListed(x, base, s);
      ListedIndexed(x.logged[s], all, r.opIndex);
    }
    CoveringIsFull(r.opIndex, x.memory.opIndex, x.logged);
  }

  // of one shard, the filter leaves what the snapshot does not cover
  lemma TailOfShard(x: Machine, base: seq<nat>, w: seq<nat>, s: nat)
    requires MemoryCurrent(x) && DiskKeeps(x, base) && Within(w, x.logged) && s < |w| && base[s] <= w[s]
    requires InShards(Flatten(x.disk.logs), |w|)
    ensures Project(Tail(Flatten(x.disk.logs), w), s) == x.logged[s][w[s]..Lengths(x.logged)[s]]
  {
    KeptLogs(x, base);
    SuffixRuns(x.logged, s, base[s]);
    hide Represents, ValidLogs, OpIdsKeep, SnapshotKeeps, Indexes, RunsFrom, ShardKept;
    AboveProjects(Flatten(x.disk.logs), w, s, base[s]);
    hide DiskKeeps;
    assert x.logged[s][base[s]..][w[s] - base[s]..] == x.logged[s][w[s]..];
    assert x.logged[s][w[s]..] == x.logged[s][w[s]..Lengths(x.logged)[s]];
  }

  lemma TailInterleaves(x: Machine, base: seq<nat>)
    requires MemoryCurrent(x) && DiskKeeps(x, base) && x.disk.snapshot.Some?
    requires FlatLogs(x.disk.logs, x.memory.shardCount)
    ensures var w := x.disk.snapshot.value.watermarks;
      && |w| == x.memory.shardCount
      && Within(w, x.logged) && Interleaves(Tail(Flatten(x.disk.logs), w), x.logged, w, Lengths(x.logged))
  {
    hide Represents, ValidLogs, OpIdsKeep, Indexes, ShardKept;
    var all := Flatten(x.disk.logs);
    var w := x.disk.snapshot.value.watermarks;
    AboveInShards(all, w);
    forall s | 0 <= s < |w|
      ensures Project(Tail(all, w), s) == x.logged[s][w[s]..Lengths(x.logged)[s]]
    {
      TailOfShard(x, base, w, s);
    }
    hide DiskKeeps, SnapshotKeeps;
  }

  lemma TailIndexed(all: seq<Mutation>, w: seq<nat>, full: map<string, Mutation>)
    requires InShards(all, |w|) && AllIndexed(all, full)
    ensures AllIndexed(Tail(all, w), full)
  {
    AboveMembers(all, w);
  }

  lemma {:induction false} AboveMembers(ms: seq<Mutation>, floor: seq<nat>)
    requires InShards(ms, |floor|)
    ensures forall i :: 0 <= i < |Above(ms, floor)| ==> Above(ms, floor)[i] in ms
  {
    if ms != [] {
      AboveMembers(ms[..|ms| - 1], floor);
    }
  }

  function IdempotencyOf(disk: Disk): seq<Mutation> {
    if disk.opIds.Some? then disk.opIds.value + Flatten(disk.logs) else Flatten(disk.logs)
  }

  // the op-id file and the logs together know every logged mutation, and no other
  lemma IdempotencyComplete(x: Machine, base: seq<nat>)
    requires MemoryCurrent(x) && DiskKeeps(x, base)
    ensures AllIndexed(IdempotencyOf(x.disk), x.memory.opIndex)
    ensures forall s :: 0 <= s < |x.logged| ==> ShardListed(x.logged[s], |x.logged[s]|, IdempotencyOf(x.disk))
  {
    KeptIndexed(x, base);
    hide Represents, SnapshotKeeps, ValidLogs, Indexes;
    forall s | 0 <= s < |x.logged|
      ensures ShardListed(x.logged[s], |x.logged[s]|, IdempotencyOf(x.disk))
    {
      forall i | 0 <= i < |x.logged[s]|
        ensures x.logged[s][i] in IdempotencyOf(x.disk)
      {
        if i >= base[s] {
          KeptCovers(x, base, s, i);
        } else {
          assert ShardListed(x.logged[s], base[s], x.disk.opIds.value);
        }
      }
    }
  }

  // what a load starts from when there is a snapshot
  function SnapshotBase(x: Machine): (s: Source)
    requires x.disk.snapshot.Some? && x.memory.Shaped()
    requires |x.disk.snapshot.value.watermarks| == x.memory.shardCount
    requires InsertOps(map[], IdempotencyOf(x.disk)).Ok?
    ensures s.Shaped() && s.shardCount == x.memory.shardCount
  {
    var snap := x.disk.snapshot.value;
    FromSnapshot(x.memory.shardCount, x.memory.region, snap, snap.watermarks)
      .(opIndex := InsertOps(map[], IdempotencyOf(x.disk)).value)
  }

  // a load with a snapshot is a replay of the tails on top of it
  lemma LoadIsReplay(x: Machine, base: seq<nat>)
    requires MemoryCurrent(x) && DiskKeeps(x, base) && x.disk.snapshot.Some?
    requires FlatLogs(x.disk.logs, x.memory.shardCount)
    requires InsertOps(map[], IdempotencyOf(x.disk)).Ok?
    ensures var w := x.disk.snapshot.value.watermarks;
      |w| == x.memory.shardCount
      && Load(x.disk, x.memory.shardCount, x.memory.region, None)
      == ReplayLoaded(SnapshotBase(x), SortForLoad(Tail(Flatten(x.disk.logs), w)))
  {
    assert x.disk.snapshot.value.Validates() && x.disk.snapshot.value.shardCount == x.memory.shardCount;
    hide Represents, OpIdsKeep, SnapshotKeeps, ValidLogs, Indexes, ReplayLoaded, SortForLoad, InsertOps, Flatten;
  }

  // the snapshot, and the tails of the logs above it
  lemma LoadFromSnapshot(x: Machine, base: seq<nat>)
    requires MemoryCurrent(x) && DiskKeeps(x, base) && x.disk.snapshot.Some?
    requires FlatLogs(x.disk.logs, x.memory.shardCount)
    ensures var r := Load(x.disk, x.memory.shardCount, x.memory.region, None);
      && r.Ok? && r.value.watermarks == x.memory.watermarks
      && Represents(r.value.entries, r.value.rules, x.logged, Lengths(x.logged))
      && r.value.opIndex == x.memory.opIndex
  {
    var all := Flatten(x.disk.logs);
    var w := x.disk.snapshot.value.watermarks;
    var idempotency := IdempotencyOf(x.disk);
    IdempotencyComplete(x, base);
    TailInterleaves(x, base);
    KeptIndexed(x, base);
    TailIndexed(all, w, x.memory.opIndex);
    InsertOpsWithin(map[], idempotency, x.memory.opIndex);
    LoadIsReplay(x, base);
    var src := SnapshotBase(x);
    assert Represents(src.entries, src.rules, x.logged, w);
    hide Represents, OpIdsKeep, SnapshotKeeps, ValidLogs, Interleaves, Indexes, Load, InsertOps, DiskKeeps;
    LoadTail(src, x.logged, w, Tail(all, w), x.memory.opIndex);
    var r := ReplayLoaded(src, SortForLoad(Tail(all, w))).value;
    forall s | 0 <= s < |x.logged|
      ensures ShardIndexed(x.logged[s], r.opIndex)
    {
      ListedIndexed(x.logged[s], idempotency, r.opIndex);
    }
    CoveringIsFull(r.opIndex, x.memory.opIndex, x.logged);
  }

  /** A load after a crash anywhere rebuilds exactly the tables, the watermarks and the op index
      that the logged mutations determine, which are those the crash took from memory. */
  lemma LoadRebuilds(x: Machine)
    requires Inv(x)
    ensures FlatLogs(x.disk.logs, x.memory.shardCount)
    ensures var r := Load(x.disk, x.memory.shardCount, x.memory.region, None);
      && r.Ok?
      && r.value.entries == x.memory.entries && r.value.rules == x.memory.rules
      && r.value.watermarks == x.memory.watermarks && r.value.opIndex == x.memory.opIndex
      && Windowed(r.value)
  {
    var base: seq<nat> :| DiskKeeps(x, base);
    KeptLogs(x, base);
    if x.disk.snapshot.None? {
      LoadFromLogs(x, base);
    } else {
      LoadFromSnapshot(x, base);
    }
    hide DiskKeeps, ValidLogs;
    var n, all := x.memory.shardCount, Flatten(x.disk.logs);
    var r := Load(x.disk, n, x.memory.region, None).value;
    WatermarksDetermineTables(r.entries, r.rules, x.memory.entries, x.memory.rules, x.logged, Lengths(x.logged));
    if x.disk.snapshot.None? {
      MutationsWindowed(n, x.memory.region, all);
    } else {
      var snap := x.disk.snapshot.value;
      TailWindowed(n, x.memory.region, snap, IdempotencyOf(x.disk), Tail(all, snap.watermarks));
    }
  }

  // ---------- what every step keeps ----------

  lemma RepresentsExtends(entries: map<AclKey, DenyEntry>, rules: map<RuleKey, RuleEntry>,
                          logs: seq<seq<Mutation>>, more: seq<seq<Mutation>>, w: seq<nat>)
    requires |more| == |logs| && Within(w, logs) && Represents(entries, rules, logs, w)
    requires forall s :: 0 <= s < |logs| ==> logs[s] <= more[s]
    ensures Within(w, more) && Represents(entries, rules, more, w)
  {
    assert forall s :: 0 <= s < |logs| ==> more[s][..w[s]] == logs[s][..w[s]];
  }

  lemma ValidExtends(logs: seq<seq<Mutation>>, m: Mutation)
    requires ValidLogs(logs) && m.commitId.shardId < |logs| && Routed(m, |logs|)
    requires m.commitId.seqNo == |logs[m.commitId.shardId]| + 1
    ensures ValidLogs(logs[m.commitId.shardId := logs[m.commitId.shardId] + [m]])
  {
  }

  lemma AcceptMemory(x: Machine, m: Mutation)
    requires MemoryCurrent(x) && Enabled(x, Accept(m))
    ensures MemoryCurrent(Exec(x, Accept(m)))
  {
    var s := m.commitId.shardId;
    var y := Exec(x, Accept(m));
    var w := Lengths(x.logged);
    ApplyReplicatedApplied(x.memory, m);
    ValidExtends(x.logged, m);
    assert forall t :: 0 <= t < |x.logged| ==> x.logged[t] <= y.logged[t];
    RepresentsExtends(x.memory.entries, x.memory.rules, x.logged, y.logged, w);
    IndexesExtend(x.memory.opIndex, x.logged, y.logged, w);
    StepRepresents(x.memory.entries, x.memory.rules, y.logged, w, s);
    StepIndexes(x.memory.opIndex, y.logged, w, s);
    assert Lengths(y.logged) == w[s := w[s] + 1];
    hide Represents, Indexes, ValidLogs;
  }

  lemma IndexesExtend(index: map<string, Mutation>, logs: seq<seq<Mutation>>, more: seq<seq<Mutation>>, w: seq<nat>)
    requires |more| == |logs| && Within(w, logs) && Indexes(index, logs, w)
    requires forall s :: 0 <= s < |logs| ==> logs[s] <= more[s]
    ensures Within(w, more) && Indexes(index, more, w)
  {
    forall op | op in index
      ensures Logged(index[op], more, w)
    {
      var s, i :| 0 <= s < |w| && 0 <= i < w[s] && logs[s][i] == index[op];
      assert more[s][i] == index[op];
    }
    forall s, i {:trigger more[s][i]} | 0 <= s < |w| && 0 <= i < w[s]
      ensures Get(index, more[s][i].opId) == Some(more[s][i])
    {
      assert more[s][i] == logs[s][i];
    }
  }

  lemma AcceptDisk(x: Machine, m: Mutation, base: seq<nat>)
    requires MemoryCurrent(x) && DiskKeeps(x, base) && Enabled(x, Accept(m))
    ensures DiskKeeps(Exec(x, Accept(m)), base)
  {
    var y := Exec(x, Accept(m));
    ApplyReplicatedApplied(x.memory, m);
    assert forall t :: 0 <= t < |x.logged| ==> x.logged[t] <= y.logged[t];
    if x.disk.snapshot.Some? {
      var snap := x.disk.snapshot.value;
      RepresentsExtends(EntryTable(snap.entries), RuleTable(snap.rules), x.logged, y.logged, snap.watermarks);
    }
    hide Represents, Indexes, ValidLogs;
    forall s | 0 <= s < |base|
      ensures ShardKept(y.disk.logs[s], y.logged[s], base[s])
    {
      assert ShardKept(x.disk.logs[s], x.logged[s], base[s]);
    }
    if x.disk.opIds.Some? {
      forall s | 0 <= s < |base|
        ensures ShardListed(y.logged[s], base[s], x.disk.opIds.value)
      {
        assert ShardKept(x.disk.logs[s], x.logged[s], base[s]);
        assert ShardListed(x.logged[s], base[s], x.disk.opIds.value);
      }
    }
  }

  // a snapshot of the memory may replace the one on disk
  lemma SnapshotDisk(x: Machine, snap: Snapshot, phase: Phase, base: seq<nat>)
    requires MemoryCurrent(x) && DiskKeeps(x, base) && IsSnapshotOf(snap, x.memory)
    ensures DiskKeeps(x.(disk := x.disk.(snapshot := Some(snap)), phase := phase), base)
  {
    hide Represents, Indexes, ValidLogs, ShardListed;
    assert forall s :: 0 <= s < |base| ==> ShardKept(x.disk.logs[s], x.logged[s], base[s]);
  }

  // a listing of the op index may replace the op-id file
  lemma OpIdsDisk(x: Machine, ms: seq<Mutation>, base: seq<nat>)
    requires MemoryCurrent(x) && DiskKeeps(x, base) && IsListingOf(ms, x.memory.opIndex)
    ensures DiskKeeps(x.(disk := x.disk.(opIds := Some(ms)), phase := Trimming(0)), base)
  {
    hide SnapshotKeeps;
    forall s | 0 <= s < |base|
      ensures ShardListed(x.logged[s], base[s], ms)
    {
      ListingCovers(x, ms, s);
    }
    SnapshotElsewhere(x, base, x.(disk := x.disk.(opIds := Some(ms)), phase := Trimming(0)));
  }

  // a listing of the memory's op index has every logged mutation
  lemma ListingCovers(x: Machine, ms: seq<Mutation>, s: nat)
    requires MemoryCurrent(x) && IsListingOf(ms, x.memory.opIndex) && s < |x.logged|
    ensures ShardListed(x.logged[s], |x.logged[s]|, ms)
  {
    hide Represents, ValidLogs;
    forall i | 0 <= i < |x.logged[s]|
      ensures x.logged[s][i] in ms
    {
      assert Get(x.memory.opIndex, x.logged[s][i].opId) == Some(x.logged[s][i]);
    }
  }

  lemma SnapshotElsewhere(x: Machine, base: seq<nat>, y: Machine)
    requires |base| == |x.logged| && y.logged == x.logged && y.disk.snapshot == x.disk.snapshot
    ensures x.disk.snapshot.Some? ==>
      (SnapshotKeeps(x, x.disk.snapshot.value, base) <==> SnapshotKeeps(y, y.disk.snapshot.value, base))
  {
  }

  lemma {:induction false} AboveOneEmpty(log: seq<Mutation>, floor: nat)
    requires forall i :: 0 <= i < |log| ==> log[i].commitId.seqNo <= floor
    ensures AboveOne(log, floor) == []
  {
    if log != [] {
      AboveOneEmpty(log[..|log| - 1], floor);
    }
  }

  // everything logged for a shard is at or below its watermark, so its whole log goes
  lemma TrimmedShard(x: Machine, base: seq<nat>, s: nat)
    requires MemoryCurrent(x) && DiskKeeps(x, base) && s < |base|
    ensures AboveOne(x.disk.logs[s], x.memory.watermarks[s]) == []
  {
    hide Represents, Indexes, SnapshotKeeps, OpIdsKeep;
    var log := x.logged[s];
    assert ShardKept(x.disk.logs[s], log, base[s]);
    forall i | 0 <= i < |x.disk.logs[s]|
      ensures x.disk.logs[s][i].commitId.seqNo <= x.memory.watermarks[s]
    {
      assert x.disk.logs[s][i] == x.logged[s][base[s] + i];
    }
    AboveOneEmpty(x.disk.logs[s], x.memory.watermarks[s]);
  }

  // the logs when one of them is emptied
  lemma TrimmedLogs(x: Machine, base: seq<nat>, s: nat)
    requires DiskKeeps(x, base) && s < |base|
    ensures forall t :: 0 <= t < |base| ==>
      ShardKept(x.disk.logs[s := []][t], x.logged[t], base[s := |x.logged[s]|][t])
  {
    hide SnapshotKeeps, OpIdsKeep;
    forall t | 0 <= t < |base|
      ensures ShardKept(x.disk.logs[s := []][t], x.logged[t], base[s := |x.logged[s]|][t])
    {
      assert ShardKept(x.disk.logs[t], x.logged[t], base[t]);
    }
  }

  // the snapshot of a compaction covers whatever is cut
  lemma SnapshotCovers(x: Machine, base: seq<nat>, cut: seq<nat>)
    requires MemoryCurrent(x) && CompactionReady(x) && DiskKeeps(x, base) && x.phase.Trimming?
    requires |cut| == |base| == |x.memory.watermarks|
    requires forall s :: 0 <= s < |cut| ==> cut[s] <= base[s] || cut[s] <= x.memory.watermarks[s]
    ensures x.disk.snapshot.Some? && SnapshotKeeps(x, x.disk.snapshot.value, cut)
  {
    hide Represents, Indexes, ValidLogs, OpIdsKeep, ShardKept, IsListingOf, EntryTable, RuleTable;
  }

  // a log may be rewritten once the snapshot and the op-id file are up to date
  lemma TrimDisk(x: Machine, base: seq<nat>)
    requires MemoryCurrent(x) && CompactionReady(x) && DiskKeeps(x, base)
    requires Enabled(x, TrimLog) && x.phase.next < x.memory.shardCount
    ensures DiskKeeps(Exec(x, TrimLog), base[x.phase.next := |x.logged[x.phase.next]|])
  {
    var s := x.phase.next;
    var y := Exec(x, TrimLog);
    var cut := base[s := |x.logged[s]|];
    TrimmedShard(x, base, s);
    assert y.disk.logs == x.disk.logs[s := []] && y == x.(disk := x.disk.(logs := y.disk.logs), phase := Trimming(s + 1));
    CurrentLengths(x, s);
    TrimmedLogs(x, base, s);
    SnapshotCovers(x, base, cut);
    TrimOpIds(x, cut);
    hide MemoryCurrent, CompactionReady, Enabled, Exec, ShardKept;
    SnapshotElsewhere(x, cut, y);
    OpIdsElsewhere(x, cut, y);
    hide SnapshotKeeps, OpIdsKeep;
  }

  lemma CurrentLengths(x: Machine, s: nat)
    requires MemoryCurrent(x) && s < |x.logged|
    ensures |x.memory.watermarks| == |x.logged| && x.memory.watermarks[s] == |x.logged[s]|
  {
    hide Represents, Indexes, ValidLogs;
  }

  lemma OpIdsElsewhere(x: Machine, base: seq<nat>, y: Machine)
    requires |base| == |x.logged| && y.logged == x.logged && y.memory == x.memory && y.disk.opIds == x.disk.opIds
    ensures x.disk.opIds.Some? ==>
      (OpIdsKeep(x, x.disk.opIds.value, base) <==> OpIdsKeep(y, y.disk.opIds.value, base))
  {
  }

  // the op-id file of a compaction covers every shard
  lemma TrimOpIds(x: Machine, base: seq<nat>)
    requires MemoryCurrent(x) && CompactionReady(x) && x.phase.Trimming? && |base| == |x.logged|
    ensures x.disk.opIds.Some? && OpIdsKeep(x, x.disk.opIds.value, base)
  {
    OpIdsIndexed(x);
    forall t | 0 <= t < |base|
      ensures ShardListed(x.logged[t], base[t], x.disk.opIds.value)
    {
      ListingCovers(x, x.disk.opIds.value, t);
    }
    hide MemoryCurrent, IsListingOf;
  }

  lemma OpIdsIndexed(x: Machine)
    requires x.disk.opIds.Some? && IsListingOf(x.disk.opIds.value, x.memory.opIndex)
    ensures forall i :: 0 <= i < |x.disk.opIds.value| ==>
      Get(x.memory.opIndex, x.disk.opIds.value[i].opId) == Some(x.disk.opIds.value[i])
  {
  }

  lemma AcceptKeeps(x: Machine, m: Mutation, base: seq<nat>)
    requires MemoryCurrent(x) && DiskKeeps(x, base) && Enabled(x, Accept(m))
    ensures Inv(Exec(x, Accept(m)))
  {
    AcceptMemory(x, m);
    AcceptDisk(x, m, base);
    hide DiskKeeps, MemoryCurrent;
  }

  lemma SnapshotKept(x: Machine, snap: Snapshot, phase: Phase, base: seq<nat>)
    requires MemoryCurrent(x) && DiskKeeps(x, base) && IsSnapshotOf(snap, x.memory) && !phase.Trimming?
    ensures Inv(x.(disk := x.disk.(snapshot := Some(snap)), phase := phase))
  {
    SnapshotDisk(x, snap, phase, base);
    hide DiskKeeps, Represents, Indexes, ValidLogs;
  }

  lemma OpIdsKept(x: Machine, ms: seq<Mutation>, base: seq<nat>)
    requires MemoryCurrent(x) && CompactionReady(x) && DiskKeeps(x, base) && Enabled(x, SaveOpIds(ms))
    ensures Inv(Exec(x, SaveOpIds(ms)))
  {
    OpIdsDisk(x, ms, base);
    hide DiskKeeps, Represents, Indexes, ValidLogs;
  }

  lemma TrimKept(x: Machine, base: seq<nat>)
    requires MemoryCurrent(x) && CompactionReady(x) && DiskKeeps(x, base) && Enabled(x, TrimLog)
    ensures Inv(Exec(x, TrimLog))
  {
    if x.phase.next < x.memory.shardCount {
      TrimDisk(x, base);
      hide DiskKeeps, Represents, Indexes, ValidLogs;
    } else {
      AboveInShards(x.memory.history, x.memory.watermarks);
      DiskSame(x, Exec(x, TrimLog), base);
      hide DiskKeeps, Represents, Indexes, ValidLogs;
    }
  }

  // a memory with the same tables, watermarks and op ids is as current
  lemma ReplacedCurrent(x: Machine, y: Machine)
    requires MemoryCurrent(x) && y.logged == x.logged && Windowed(y.memory)
    requires y.memory.entries == x.memory.entries && y.memory.rules == x.memory.rules
    requires y.memory.watermarks == x.memory.watermarks && y.memory.opIndex == x.memory.opIndex
    ensures MemoryCurrent(y)
  {
    hide Represents, Indexes, ValidLogs, WindowOf;
  }

  lemma CrashKept(x: Machine, y: Machine, base: seq<nat>)
    requires MemoryCurrent(x) && DiskKeeps(x, base)
    requires y == x.(memory := y.memory, phase := Unsaved) && Windowed(y.memory)
    requires y.memory.entries == x.memory.entries && y.memory.rules == x.memory.rules
    requires y.memory.watermarks == x.memory.watermarks && y.memory.opIndex == x.memory.opIndex
    ensures Inv(y)
  {
    ReplacedCurrent(x, y);
    DiskSame(x, y, base);
    hide DiskKeeps, MemoryCurrent, Windowed;
  }

  lemma StepKeepsInv(x: Machine, step: Step)
    requires Inv(x) && Enabled(x, step)
    ensures Inv(Exec(x, step))
  {
    var base: seq<nat> :| DiskKeeps(x, base);
    hide DiskKeeps, MemoryCurrent, CompactionReady;
    match step
    case Accept(m) => AcceptKeeps(x, m, base);
    case SaveSnapshot(snap, compact) => SnapshotKept(x, snap, if compact then Due else Idle, base);
    case SaveCompactionSnapshot(snap) => SnapshotKept(x, snap, SnapshotSaved, base);
    case SaveOpIds(ms) => OpIdsKept(x, ms, base);
    case TrimLog => TrimKept(x, base);
    case Crash(loaded) =>
      LoadRebuilds(x);
      hide Load, FlatLogs, Windowed;
      CrashKept(x, Exec(x, step), base);
  }

  lemma DiskSame(x: Machine, y: Machine, base: seq<nat>)
    requires DiskKeeps(x, base) && y.disk == x.disk && y.logged == x.logged && y.memory.opIndex == x.memory.opIndex
    ensures DiskKeeps(y, base)
  {
  }

  predicate Fresh(x: Machine, n: nat, region: string) {
    n > 0 && x == Machine(New(n, region), Disk(None, None, seq(n, _ => [])), Idle, seq(n, _ => []))
  }

  lemma FreshInv(x: Machine, n: nat, region: string)
    requires Fresh(x, n, region)
    ensures Inv(x)
  {
    EmptyRepresents(x.logged);
    assert DiskKeeps(x, seq(n, _ => 0));
  }

  /** A life of one commitd: commits, compactions, and crashes between any two durable writes. */
  ghost predicate Life(states: seq<Machine>, steps: seq<Step>) {
    && |states| == |steps| + 1
    && Fresh(states[0], states[0].memory.shardCount, states[0].memory.region)
    && forall i :: 0 <= i < |steps| ==>
         states[i].memory.Shaped() && Enabled(states[i], steps[i]) && states[i + 1] == Exec(states[i], steps[i])
  }

  lemma {:induction false} InvThroughout(states: seq<Machine>, steps: seq<Step>, i: nat)
    requires Life(states, steps) && i < |states|
    ensures Inv(states[i])
  {
    hide Inv, Exec, Enabled;
    if i == 0 {
      FreshInv(states[0], states[0].memory.shardCount, states[0].memory.region);
    } else {
      InvThroughout(states, steps, i - 1);
      StepKeepsInv(states[i - 1], steps[i - 1]);
    }
  }

  /** Crash recovery: at any point of any life a crash can be recovered from, and what is loaded
      has the tables, watermarks and op ids that memory had. */
  lemma CrashRecovers(states: seq<Machine>, steps: seq<Step>, i: nat)
    requires Life(states, steps) && i < |states|
    ensures Recoverable(states[i])
  {
    InvThroughout(states, steps, i);
    RecoverableNow(states[i]);
  }

  predicate Recoverable(x: Machine) {
    && x.memory.Shaped() && FlatLogs(x.disk.logs, x.memory.shardCount)
    && var r := Load(x.disk, x.memory.shardCount, x.memory.region, None);
    && r.Ok? && Enabled(x, Crash(r.value))
    && r.value.entries == x.memory.entries && r.value.rules == x.memory.rules
    && r.value.watermarks == x.memory.watermarks && r.value.opIndex == x.memory.opIndex
  }

  lemma RecoverableNow(x: Machine)
    requires Inv(x)
    ensures Recoverable(x)
  {
    LoadRebuilds(x);
    assert x.memory.Shaped();
    hide Load, FlatLogs, Inv, Windowed;
  }

  lemma LogsGrow(x: Machine, step: Step)
    requires x.memory.Shaped() && Enabled(x, step) && |x.logged| == x.memory.shardCount
    ensures |Exec(x, step).logged| == |x.logged|
    ensures forall s :: 0 <= s < |x.logged| ==> x.logged[s] <= Exec(x, step).logged[s]
  {
  }

  lemma {:induction false} LoggedForever(states: seq<Machine>, steps: seq<Step>, i: nat, j: nat)
    requires Life(states, steps) && i <= j < |states|
    ensures |states[j].logged| == |states[i].logged|
    ensures forall s :: 0 <= s < |states[i].logged| ==> states[i].logged[s] <= states[j].logged[s]
    decreases j
  {
    hide Exec, Enabled;
    if i < j {
      LoggedForever(states, steps, i, j - 1);
      InvThroughout(states, steps, j - 1);
      LogsGrow(states[j - 1], steps[j - 1]);
    }
  }

  /** Idempotency: once a mutation is durably logged, retrying its op id, after any commits,
      compactions, crashes and restarts, reports that very mutation as a duplicate; no sequence
      number is taken, because nothing is proposed. */
  lemma RetryReturnsOriginal(states: seq<Machine>, steps: seq<Step>, i: nat, j: nat, s: nat, k: nat,
                             hash: KeyHash, req: DenyRequest, now: nat)
    requires Life(states, steps) && i <= j < |states|
    requires s < |states[i].logged| && k < |states[i].logged[s]|
    requires req.opId == states[i].logged[s][k].opId && !Blank(req.opId)
    ensures states[j].memory.Shaped()
    ensures PrepareCommit(states[j].memory, hash, req, now) == Ok(CommitOutcome(states[i].logged[s][k], true))
  {
    LoggedForever(states, steps, i, j);
    InvThroughout(states, steps, j);
    hide Life;
    var x := states[j];
    assert states[i].logged[s] <= x.logged[s];
    assert x.logged[s][k] == states[i].logged[s][k];
    assert Get(x.memory.opIndex, x.logged[s][k].opId) == Some(x.logged[s][k]);
  }
}
