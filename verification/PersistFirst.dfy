/** apply_prepared_mutation (crates/globacl-commitd/src/app/commit.rs) appends a mutation to its
    shard's log before it checks that the mutation applies. This is when that is safe: a log with the
    mutation at its end loads again if and only if the mutation did apply, and a run where it does not. */
module PersistFirst {
  import opened Domain
  import opened SourceSpec
  import opened Replay
  import opened Loading
  import opened History
  import opened Recovery

  // persist_mutation
  function Appended(disk: Disk, m: Mutation): Disk
    requires m.commitId.shardId < |disk.logs|
  {
    disk.(logs := disk.logs[m.commitId.shardId := disk.logs[m.commitId.shardId] + [m]])
  }

  /** Two different mutations under one op id never load. */
  lemma OpConflict(index: map<string, Mutation>, ms: seq<Mutation>, a: Mutation, b: Mutation)
    requires a in ms && b in ms && a != b && a.opId == b.opId
    ensures InsertOps(index, ms).Err?
  {
    if InsertOps(index, ms).Ok? {
      InsertedOps(index, ms);
    }
  }

  lemma {:induction false} ReplayInserts(s: Source, ms: seq<Mutation>)
    requires s.Shaped() && ReplayLoaded(s, ms).Ok?
    ensures InsertOps(s.opIndex, ms).Ok?
    decreases |ms|
  {
    if ms != [] {
      ReplayInserts(ApplyLoaded(s, ms[0]).value, ms[1..]);
    }
  }

  lemma LoadedMoves(s: Source, m: Mutation)
    requires s.Shaped() && ApplyLoaded(s, m).Ok?
    ensures var t := ApplyLoaded(s, m).value; var shard := m.commitId.shardId;
      && shard < s.shardCount && m.commitId.seqNo == s.watermarks[shard] + 1
      && t.watermarks == s.watermarks[shard := m.commitId.seqNo] && t.shardCount == s.shardCount && t.Shaped()
  {
  }

  // the number of one mutation of a list that replays
  lemma {:induction false} ReplayBound(s: Source, ms: seq<Mutation>, i: nat)
    requires s.Shaped() && ReplayLoaded(s, ms).Ok? && i < |ms|
    ensures ms[i].commitId.shardId < s.shardCount
    ensures ms[i].commitId.seqNo <= s.watermarks[ms[i].commitId.shardId] + |Project(ms, ms[i].commitId.shardId)|
    decreases |ms|
  {
    var shard := ms[i].commitId.shardId;
    LoadedMoves(s, ms[0]);
    ProjectHead(ms, shard);
    if i > 0 {
      assert ms[1..][i - 1] == ms[i];
      ReplayBound(ApplyLoaded(s, ms[0]).value, ms[1..], i - 1);
    }
    hide ApplyLoaded, Project;
  }

  /** A replay that succeeds has clean op ids, and no number of a shard is beyond the watermark plus
      how many of that shard there were. */
  lemma ReplayBounds(s: Source, ms: seq<Mutation>)
    requires s.Shaped() && ReplayLoaded(s, ms).Ok?
    ensures InsertOps(s.opIndex, ms).Ok?
    ensures forall m :: m in ms ==>
      && m.commitId.shardId < s.shardCount
      && m.commitId.seqNo <= s.watermarks[m.commitId.shardId] + |Project(ms, m.commitId.shardId)|
  {
    ReplayInserts(s, ms);
    hide ReplayLoaded, Project, InsertOps;
    forall m | m in ms
      ensures m.commitId.shardId < s.shardCount
      ensures m.commitId.seqNo <= s.watermarks[m.commitId.shardId] + |Project(ms, m.commitId.shardId)|
    {
      var i :| 0 <= i < |ms| && ms[i] == m;
      ReplayBound(s, ms, i);
    }
  }

  lemma {:induction false} InsertCounts(m: Mutation, sorted: seq<Mutation>, s: nat)
    ensures |Project(InsertForLoad(m, sorted), s)| == |Project(sorted, s)| + if m.commitId.shardId == s then 1 else 0
  {
    var r := InsertForLoad(m, sorted);
    ProjectHead(r, s);
    if sorted == [] || LoadLeq(m, sorted[0]) {
      assert r[1..] == sorted;
    } else {
      InsertCounts(m, sorted[1..], s);
      assert r[1..] == InsertForLoad(m, sorted[1..]);
      ProjectHead(sorted, s);
    }
  }

  /** Sorting for load does not change how many mutations a shard has. */
  lemma {:induction false} SortCounts(ms: seq<Mutation>, s: nat)
    ensures |Project(SortForLoad(ms), s)| == |Project(ms, s)|
  {
    if ms != [] {
      SortCounts(ms[1..], s);
      InsertCounts(ms[0], SortForLoad(ms[1..]), s);
      ProjectHead(ms, s);
    }
  }

  lemma SortHas(ms: seq<Mutation>, m: Mutation)
    ensures m in SortForLoad(ms) <==> m in ms
  {
    assert m in SortForLoad(ms) <==> m in multiset(SortForLoad(ms));
    assert m in ms <==> m in multiset(ms);
  }

  // a replay of a sorted list that succeeds bounds every number in it
  lemma SortedReplayBounds(s: Source, ms: seq<Mutation>, m: Mutation)
    requires s.Shaped() && m in ms && ReplayLoaded(s, SortForLoad(ms)).Ok?
    ensures m.commitId.shardId < s.shardCount
    ensures m.commitId.seqNo <= s.watermarks[m.commitId.shardId] + |Project(ms, m.commitId.shardId)|
    ensures InsertOps(s.opIndex, SortForLoad(ms)).Ok?
  {
    SortHas(ms, m);
    ReplayBounds(s, SortForLoad(ms));
    SortCounts(ms, m.commitId.shardId);
  }

  // ---------- the log with one more mutation ----------

  // where a mutation of the logs is
  lemma {:induction false} FlattenFind(logs: seq<seq<Mutation>>, a: Mutation) returns (t: nat, i: nat)
    requires a in Flatten(logs)
    ensures t < |logs| && i < |logs[t]| && logs[t][i] == a
  {
    var last := logs[|logs| - 1];
    if a in last {
      t := |logs| - 1;
      i :| 0 <= i < |last| && last[i] == a;
    } else {
      t, i := FlattenFind(logs[..|logs| - 1], a);
    }
  }

  /** The logs after the append: of shard s, what was kept and then m. */
  lemma AppendedStreams(x: Machine, base: seq<nat>, m: Mutation)
    requires MemoryCurrent(x) && DiskKeeps(x, base) && m.commitId.shardId < x.memory.shardCount
    ensures m.commitId.shardId < |x.disk.logs|
    ensures var logs := Appended(x.disk, m).logs; var s := m.commitId.shardId;
      && FlatLogs(logs, x.memory.shardCount)
      && Project(Flatten(logs), s) == x.logged[s][base[s]..] + [m]
      && m in Flatten(logs)
  {
    var s := m.commitId.shardId;
    var logs: seq<seq<Mutation>> := Appended(x.disk, m).logs;
    hide Represents, SnapshotKeeps, OpIdsKeep, Indexes;
    forall t, i {:trigger logs[t][i]} | 0 <= t < |logs| && 0 <= i < |logs[t]|
      ensures logs[t][i].commitId.shardId == t
    {
      assert ShardKept(x.disk.logs[t], x.logged[t], base[t]);
      assert (t == s && i == |x.disk.logs[s]|) || logs[t][i] == x.logged[t][base[t] + i];
    }
    FlattenProjects(logs, s);
    assert ShardKept(x.disk.logs[s], x.logged[s], base[s]);
    FlattenMembers(logs, s, |x.disk.logs[s]|);
  }

  lemma KeptStillThere(x: Machine, m: Mutation, a: Mutation)
    requires m.commitId.shardId < |x.disk.logs| && a in Flatten(x.disk.logs)
    ensures a in Flatten(Appended(x.disk, m).logs)
  {
    var t, i := FlattenFind(x.disk.logs, a);
    hide Flatten;
    assert Appended(x.disk, m).logs[t][i] == a;
    FlattenMembers(Appended(x.disk, m).logs, t, i);
  }

  // ---------- without a snapshot ----------

  // with nothing trimmed, the log still has whatever an op id stands for
  lemma BareConflict(x: Machine, base: seq<nat>, m: Mutation)
    requires MemoryCurrent(x) && DiskKeeps(x, base) && x.disk.snapshot.None?
    requires m.commitId.shardId < x.memory.shardCount == |x.disk.logs|
    requires FlatLogs(Appended(x.disk, m).logs, x.memory.shardCount)
    requires m.opId in x.memory.opIndex && x.memory.opIndex[m.opId] != m
    ensures InsertOps(map[], SortForLoad(Flatten(Appended(x.disk, m).logs))).Err?
  {
    var all := Flatten(Appended(x.disk, m).logs);
    AppendedStreams(x, base, m);
    var a := LoggedOp(x, m.opId);
    KeptCovers(x, base, a.commitId.shardId, a.commitId.seqNo - 1);
    hide Represents, Indexes, ValidLogs, SortForLoad, Flatten, MemoryCurrent, DiskKeeps, FlatLogs;
    KeptStillThere(x, m, a);
    SortHas(all, a);
    SortHas(all, m);
    OpConflict(map[], SortForLoad(all), a, m);
  }

  lemma BareLoadRefuses(x: Machine, base: seq<nat>, m: Mutation)
    requires MemoryCurrent(x) && DiskKeeps(x, base) && x.disk.snapshot.None?
    requires m.commitId.shardId < x.memory.shardCount == |x.disk.logs|
    requires FlatLogs(Appended(x.disk, m).logs, x.memory.shardCount)
    requires m.commitId.seqNo > x.memory.watermarks[m.commitId.shardId] + 1
      || (m.opId in x.memory.opIndex && x.memory.opIndex[m.opId] != m)
    ensures Load(Appended(x.disk, m), x.memory.shardCount, x.memory.region, None).Err?
  {
    var n, s := x.memory.shardCount, m.commitId.shardId;
    var all := Flatten(Appended(x.disk, m).logs);
    AppendedStreams(x, base, m);
    assert base[s] == 0 && |x.logged[s]| == x.memory.watermarks[s];
    var src := New(n, x.memory.region);
    hide Represents, Indexes, ValidLogs, ReplayLoaded, SortForLoad, Flatten, MemoryCurrent, DiskKeeps, FlatLogs;
    if ReplayLoaded(src, SortForLoad(all)).Ok? {
      SortedReplayBounds(src, all, m);
      BareConflict(x, base, m);
    }
  }

  // the logged mutation of an indexed op id
  lemma LoggedOp(x: Machine, op: string) returns (a: Mutation)
    requires MemoryCurrent(x) && op in x.memory.opIndex
    ensures a == x.memory.opIndex[op] && a.opId == op
    ensures var s, n := a.commitId.shardId, a.commitId.seqNo;
      s < |x.logged| && 1 <= n <= |x.logged[s]| && x.logged[s][n - 1] == a
  {
    a := x.memory.opIndex[op];
    hide Represents;
    assert Logged(a, x.logged, Lengths(x.logged));
    var s, i :| 0 <= s < |x.logged| && 0 <= i < Lengths(x.logged)[s] && x.logged[s][i] == a;
  }

  // ---------- with a snapshot ----------

  lemma SnapshotLoadRefuses(x: Machine, base: seq<nat>, m: Mutation)
    requires MemoryCurrent(x) && DiskKeeps(x, base) && x.disk.snapshot.Some?
    requires m.commitId.shardId < x.memory.shardCount == |x.disk.logs|
    requires FlatLogs(Appended(x.disk, m).logs, x.memory.shardCount)
    requires m.commitId.seqNo > x.memory.watermarks[m.commitId.shardId]
    requires m.commitId.seqNo > x.memory.watermarks[m.commitId.shardId] + 1
      || (m.opId in x.memory.opIndex && x.memory.opIndex[m.opId] != m)
    ensures Load(Appended(x.disk, m), x.memory.shardCount, x.memory.region, None).Err?
  {
    var n, s := x.memory.shardCount, m.commitId.shardId;
    var disk := Appended(x.disk, m);
    var idempotency := IdempotencyOf(disk);
    if m.opId in x.memory.opIndex && x.memory.opIndex[m.opId] != m {
      ConflictListed(x, base, m);
      OpConflict(map[], idempotency, x.memory.opIndex[m.opId], m);
    } else {
      TailTooFar(x, base, m);
    }
    hide Represents, SnapshotKeeps, OpIdsKeep, Indexes, ReplayLoaded, SortForLoad, Flatten, InsertOps;
  }

  lemma ConflictListed(x: Machine, base: seq<nat>, m: Mutation)
    requires MemoryCurrent(x) && DiskKeeps(x, base) && m.commitId.shardId < x.memory.shardCount == |x.disk.logs|
    requires m.opId in x.memory.opIndex
    ensures x.memory.opIndex[m.opId] in IdempotencyOf(Appended(x.disk, m)) && m in IdempotencyOf(Appended(x.disk, m))
    ensures x.memory.opIndex[m.opId].opId == m.opId
  {
    AppendedStreams(x, base, m);
    IdempotencyComplete(x, base);
    var a := LoggedOp(x, m.opId);
    hide Represents, SnapshotKeeps, OpIdsKeep, Indexes, ValidLogs, Flatten;
    assert ShardListed(x.logged[a.commitId.shardId], |x.logged[a.commitId.shardId]|, IdempotencyOf(x.disk));
    assert a in IdempotencyOf(x.disk);
    if a in Flatten(x.disk.logs) {
      KeptStillThere(x, m, a);
    }
  }

  // the tail above the snapshot, of the appended logs
  lemma TailTooFar(x: Machine, base: seq<nat>, m: Mutation)
    requires MemoryCurrent(x) && DiskKeeps(x, base) && x.disk.snapshot.Some?
    requires m.commitId.shardId < x.memory.shardCount == |x.disk.logs|
    requires FlatLogs(Appended(x.disk, m).logs, x.memory.shardCount)
    requires m.commitId.seqNo > x.memory.watermarks[m.commitId.shardId] + 1
    ensures |x.disk.snapshot.value.watermarks| == x.memory.shardCount
    ensures forall index :: InsertOps(map[], IdempotencyOf(Appended(x.disk, m))) == Ok(index) ==>
      ReplayLoaded(FromSnapshot(x.memory.shardCount, x.memory.region, x.disk.snapshot.value, x.disk.snapshot.value.watermarks)
                     .(opIndex := index),
                   SortForLoad(Tail(Flatten(Appended(x.disk, m).logs), x.disk.snapshot.value.watermarks))).Err?
  {
    var s := m.commitId.shardId;
    var snap := x.disk.snapshot.value;
    var w := snap.watermarks;
    var all := Flatten(Appended(x.disk, m).logs);
    AppendedStreams(x, base, m);
    assert base[s] <= w[s] <= |x.logged[s]| == x.memory.watermarks[s];
    TailCount(x.logged[s], base[s], m, all, w, s);
    AboveHas(all, w, m);
    forall index | InsertOps(map[], IdempotencyOf(Appended(x.disk, m))) == Ok(index)
      ensures ReplayLoaded(FromSnapshot(x.memory.shardCount, x.memory.region, snap, w).(opIndex := index),
                           SortForLoad(Tail(all, w))).Err?
    {
      var src := FromSnapshot(x.memory.shardCount, x.memory.region, snap, w).(opIndex := index);
      hide Represents, SnapshotKeeps, OpIdsKeep, Indexes, ReplayLoaded, SortForLoad, Flatten, InsertOps, Project;
      if ReplayLoaded(src, SortForLoad(Tail(all, w))).Ok? {
        SortedReplayBounds(src, Tail(all, w), m);
      }
    }
  }

  lemma {:induction false} AboveHas(ms: seq<Mutation>, floor: seq<nat>, m: Mutation)
    requires InShards(ms, |floor|) && m in ms && m.commitId.seqNo > floor[m.commitId.shardId]
    ensures m in Above(ms, floor)
  {
    if m in ms[..|ms| - 1] {
      AboveHas(ms[..|ms| - 1], floor, m);
    }
  }

  lemma {:induction false} AboveCounts(ms: seq<Mutation>, floor: seq<nat>, s: nat)
    requires InShards(ms, |floor|) && s < |floor|
    ensures Project(Above(ms, floor), s) == AboveOne(Project(ms, s), floor[s])
  {
    if ms != [] {
      var init, last := ms[..|ms| - 1], ms[|ms| - 1];
      AboveCounts(init, floor, s);
      ProjectPush(Above(init, floor), last, s);
      var p := Project(init, s);
      assert (p + [last])[..|p|] == p;
      assert Above(init, floor) + [] == Above(init, floor) && p + [] == p;
      assert AboveOne(p, floor[s]) + [] == AboveOne(p, floor[s]);
    }
  }

  // what the tail has of shard s: the logged mutations above the snapshot, and m
  lemma TailCount(logged: seq<Mutation>, base: nat, m: Mutation, all: seq<Mutation>, w: seq<nat>, s: nat)
    requires InShards(all, |w|) && s < |w| && base <= w[s] <= |logged| && m.commitId.seqNo > w[s]
    requires RunsFrom(logged, 0) && Project(all, s) == logged[base..] + [m]
    ensures |Project(Tail(all, w), s)| == |logged| - w[s] + 1
  {
    var kept := logged[base..];
    AboveCounts(all, w, s);
    assert (kept + [m])[..|kept|] == kept;
    RunsFromDrop(logged, 0, base);
    AboveRun(kept, base, w[s]);
  }

  lemma {:induction false} AboveRun(ms: seq<Mutation>, from: nat, floor: nat)
    requires RunsFrom(ms, from) && from <= floor <= from + |ms|
    ensures |AboveOne(ms, floor)| == from + |ms| - floor
  {
    if ms != [] {
      var init := ms[..|ms| - 1];
      if floor <= from + |init| {
        AboveRun(init, from, floor);
      } else {
        AboveOneEmpty(ms, floor);
      }
    }
  }

  // ---------- the exact condition ----------

  lemma RefusedLoad(x: Machine, base: seq<nat>, m: Mutation)
    requires MemoryCurrent(x) && DiskKeeps(x, base)
    requires m.commitId.shardId < x.memory.shardCount == |x.disk.logs|
    requires FlatLogs(Appended(x.disk, m).logs, x.memory.shardCount)
    requires m.commitId.seqNo > x.memory.watermarks[m.commitId.shardId]
    requires m.opId in x.memory.opIndex || m.commitId.seqNo != x.memory.watermarks[m.commitId.shardId] + 1
    ensures Load(Appended(x.disk, m), x.memory.shardCount, x.memory.region, None).Err?
  {
    if m.opId in x.memory.opIndex {
      var a := LoggedOp(x, m.opId);
      assert a != m;
    }
    hide MemoryCurrent, DiskKeeps, Load, FlatLogs;
    if x.disk.snapshot.None? {
      BareLoadRefuses(x, base, m);
    } else {
      SnapshotLoadRefuses(x, base, m);
    }
  }

  lemma AcceptedLoad(x: Machine, m: Mutation)
    requires Inv(x) && m.commitId.shardId < x.memory.shardCount == |x.disk.logs|
    requires Acceptable(x.memory, m)
    ensures FlatLogs(Appended(x.disk, m).logs, x.memory.shardCount)
    ensures Load(Appended(x.disk, m), x.memory.shardCount, x.memory.region, None).Ok?
  {
    var base: seq<nat> :| DiskKeeps(x, base);
    var y := x.(phase := Idle);
    DiskSame(x, y, base);
    assert MemoryCurrent(y) && Enabled(y, Accept(m));
    AcceptKeeps(y, m, base);
    var z := Exec(y, Accept(m));
    ApplyReplicatedApplied(x.memory, m);
    assert z.disk == Appended(x.disk, m) && z.memory.shardCount == x.memory.shardCount && z.memory.region == x.memory.region;
    hide Inv, Exec, Enabled, Load, FlatLogs;
    LoadRebuilds(z);
  }

  // persist_mutation writes to the log of the shard the mutation names; a load reads those of its own
  function Persisted(disk: Disk, m: Mutation): Disk {
    if m.commitId.shardId < |disk.logs| then Appended(disk, m) else disk
  }

  lemma LogsFit(x: Machine, m: Mutation)
    requires Inv(x)
    ensures |x.disk.logs| == x.memory.shardCount && x.memory.Shaped()
    ensures FlatLogs(Persisted(x.disk, m).logs, x.memory.shardCount)
  {
    var base: seq<nat> :| DiskKeeps(x, base);
    hide Represents, Indexes, ValidLogs, SnapshotKeeps, OpIdsKeep;
    if m.commitId.shardId < x.memory.shardCount {
      AppendedStreams(x, base, m);
    } else {
      KeptLogs(x, base);
    }
  }

  // the guard before the append: nothing known of the shard is at or past the number
  predicate Ahead(s: Source, m: Mutation)
    requires s.Shaped()
  {
    m.commitId.seqNo > if m.commitId.shardId < s.shardCount then s.watermarks[m.commitId.shardId] else 0
  }

  // what applies after the guard is the next mutation of a shard, under an unused op id
  lemma AppliesIff(x: Machine, m: Mutation)
    requires MemoryCurrent(x) && Ahead(x.memory, m)
    ensures ApplyReplicated(x.memory, m).Ok? <==>
      && m.opId !in x.memory.opIndex && m.commitId.shardId < x.memory.shardCount
      && m.commitId.seqNo == x.memory.watermarks[m.commitId.shardId] + 1
  {
    ApplyReplicatedApplied(x.memory, m);
    if m.opId in x.memory.opIndex {
      var a := LoggedOp(x, m.opId);
      assert a != m;
    }
    hide MemoryCurrent;
  }

  // of a shard that exists
  lemma ShardLoadsIff(x: Machine, m: Mutation)
    requires Inv(x) && m.commitId.shardId < x.memory.shardCount == |x.disk.logs|
    requires Routed(m, x.memory.shardCount) && Ahead(x.memory, m)
    ensures FlatLogs(Appended(x.disk, m).logs, x.memory.shardCount)
    ensures Load(Appended(x.disk, m), x.memory.shardCount, x.memory.region, None).Ok?
       <==> ApplyReplicated(x.memory, m).Ok?
  {
    var base: seq<nat> :| DiskKeeps(x, base);
    LogsFit(x, m);
    AppliesIff(x, m);
    hide Load, FlatLogs, Represents, Indexes, DiskKeeps, ApplyReplicated;
    if m.opId !in x.memory.opIndex && m.commitId.seqNo == x.memory.watermarks[m.commitId.shardId] + 1 {
      AcceptedLoad(x, m);
    } else {
      RefusedLoad(x, base, m);
    }
  }

  /** A mutation is appended to its shard's log whenever the shard's watermark is below its number. The
      log then loads again if and only if the apply that follows the append succeeds, which takes an
      unused op id and the next number, or the mutation names a shard that does not exist, whose log no
      load reads. Otherwise the node cannot start from what it wrote. */
  lemma AppendedLogLoadsIff(x: Machine, m: Mutation)
    requires Inv(x) && Ahead(x.memory, m)
    requires m.commitId.shardId < x.memory.shardCount ==> Routed(m, x.memory.shardCount)
    ensures FlatLogs(Persisted(x.disk, m).logs, x.memory.shardCount)
    ensures Load(Persisted(x.disk, m), x.memory.shardCount, x.memory.region, None).Ok?
       <==> ApplyReplicated(x.memory, m).Ok? || m.commitId.shardId >= x.memory.shardCount
    ensures ApplyReplicated(x.memory, m).Ok? <==>
      && m.opId !in x.memory.opIndex && m.commitId.shardId < x.memory.shardCount
      && m.commitId.seqNo == x.memory.watermarks[m.commitId.shardId] + 1
  {
    LogsFit(x, m);
    AppliesIff(x, m);
    hide Load, FlatLogs, Inv, ApplyReplicated;
    if m.commitId.shardId < x.memory.shardCount {
      ShardLoadsIff(x, m);
    } else {
      LoadRebuilds(x);
    }
  }

  // ---------- a log that no longer loads ----------

  // one mutation as a peer committed it, and another that the peer's leader gave the same op id
  function Logged1(op: string): Mutation {
    Mutation(op, CommitId(0, 1, 1, "cluster"), DenyEntry("tenant", "users", 7, Deny, 1, "abuse", 0, "operator", 1, 0),
             None, P0, 1)
  }

  function Clashing(op: string): Mutation {
    Mutation(op, CommitId(0, 2, 2, "cluster"), DenyEntry("tenant", "users", 8, Deny, 1, "abuse", 0, "operator", 2, 0),
             None, P0, 2)
  }

  /** It happens: a node has logged a mutation, and a catch-up stream delivers another one under its op
      id, the next of its shard. It is appended, does not apply, and the log does not load again. */
  lemma ClashIsFatal(op: string) returns (states: seq<Machine>, steps: seq<Step>)
    ensures Recovery.Life(states, steps)
    ensures var x, m := states[|steps|], Clashing(op);
      && x.memory.Shaped() && Ahead(x.memory, m) && m.commitId.seqNo == x.memory.watermarks[m.commitId.shardId] + 1
      && ApplyReplicated(x.memory, m).Err?
      && FlatLogs(Persisted(x.disk, m).logs, x.memory.shardCount)
      && Load(Persisted(x.disk, m), x.memory.shardCount, x.memory.region, None).Err?
  {
    var empty := Machine(New(1, "cluster"), Disk(None, None, seq(1, _ => [])), Idle, seq(1, _ => []));
    assert Recovery.Fresh(empty, 1, "cluster");
    var x := Exec(empty, Accept(Logged1(op)));
    states, steps := [empty, x], [Accept(Logged1(op))];
    assert x.memory.opIndex == map[op := Logged1(op)] && x.memory.watermarks == [1];
    assert Recovery.Life(states, steps);
    InvThroughout(states, steps, 1);
    hide Load, FlatLogs, Inv, Recovery.Life, Exec;
    AppendedLogLoadsIff(x, Clashing(op));
  }
}
