/** The history window: what a source retains of each shard is exactly the run of consecutive
    sequence numbers from its compacted floor to its watermark, so a stream it serves has no gap. */
module History {
  import opened Domain
  import opened SourceSpec
  import opened Replay
  import opened Loading

  predicate RunsFrom(ms: seq<Mutation>, from: nat) {
    forall i :: 0 <= i < |ms| ==> ms[i].commitId.seqNo == from + 1 + i
  }

  predicate InShards(ms: seq<Mutation>, n: nat) {
    forall i :: 0 <= i < |ms| ==> ms[i].commitId.shardId < n
  }

  predicate WindowOf(ms: seq<Mutation>, shard: nat, floor: nat, top: nat) {
    floor <= top && |Project(ms, shard)| == top - floor && RunsFrom(Project(ms, shard), floor)
  }

  ghost predicate Windowed(s: Source) {
    && s.Shaped() && InShards(s.history, s.shardCount)
    && forall shard :: 0 <= shard < s.shardCount ==>
         WindowOf(s.history, shard, s.compacted[shard], s.watermarks[shard])
  }

  lemma ProjectPush(ms: seq<Mutation>, m: Mutation, shard: nat)
    ensures Project(ms + [m], shard) == Project(ms, shard) + if m.commitId.shardId == shard then [m] else []
  {
    assert (ms + [m])[..|ms + [m]| - 1] == ms;
  }

  lemma PushWindowOf(ms: seq<Mutation>, m: Mutation, shard: nat, floor: nat, top: nat)
    requires WindowOf(ms, shard, floor, top)
    requires m.commitId.shardId == shard ==> m.commitId.seqNo == top + 1
    ensures WindowOf(ms + [m], shard, floor, if m.commitId.shardId == shard then top + 1 else top)
  {
    ProjectPush(ms, m, shard);
    hide Project;
  }

  // pushing the next mutation of a shard
  lemma PushKeepsWindow(s: Source, m: Mutation, s': Source)
    requires Windowed(s) && m.commitId.shardId < s.shardCount
    requires m.commitId.seqNo == s.watermarks[m.commitId.shardId] + 1
    requires s'.Shaped() && s'.shardCount == s.shardCount && s'.compacted == s.compacted
    requires s'.watermarks == s.watermarks[m.commitId.shardId := m.commitId.seqNo]
    requires s'.history == s.history + [m]
    ensures Windowed(s')
  {
    hide WindowOf;
    forall shard | 0 <= shard < s.shardCount
      ensures WindowOf(s'.history, shard, s'.compacted[shard], s'.watermarks[shard])
    {
      assert WindowOf(s.history, shard, s.compacted[shard], s.watermarks[shard]);
      PushWindowOf(s.history, m, shard, s.compacted[shard], s.watermarks[shard]);
    }
  }

  lemma NewWindowed(n: nat, region: string)
    ensures Windowed(New(n, region))
  {
  }

  lemma ApplyLoadedWindowed(s: Source, m: Mutation)
    requires Windowed(s) && ApplyLoaded(s, m).Ok?
    ensures Windowed(ApplyLoaded(s, m).value)
  {
    PushKeepsWindow(s, m, ApplyLoaded(s, m).value);
  }

  lemma ApplyReplicatedWindowed(s: Source, m: Mutation)
    requires Windowed(s) && ApplyReplicated(s, m).Ok?
    ensures Windowed(ApplyReplicated(s, m).value.0)
  {
    ApplyReplicatedApplied(s, m);
    if ApplyReplicated(s, m).value.1 == Applied {
      PushKeepsWindow(s, m, ApplyReplicated(s, m).value.0);
    }
  }

  lemma {:induction false} ReplayWindowed(s: Source, ms: seq<Mutation>)
    requires Windowed(s) && ReplayLoaded(s, ms).Ok?
    ensures Windowed(ReplayLoaded(s, ms).value)
    decreases |ms|
  {
    if ms != [] {
      ApplyLoadedWindowed(s, ms[0]);
      ReplayWindowed(ApplyLoaded(s, ms[0]).value, ms[1..]);
    }
  }

  lemma {:induction false} RunsFromDrop(ms: seq<Mutation>, from: nat, k: nat)
    requires RunsFrom(ms, from) && k <= |ms|
    ensures RunsFrom(ms[k..], from + k)
  {
    forall i | 0 <= i < |ms[k..]|
      ensures ms[k..][i].commitId.seqNo == from + k + 1 + i
    {
      assert ms[k..][i] == ms[k + i];
    }
  }

  lemma {:induction false} AboveInShards(ms: seq<Mutation>, floor: seq<nat>)
    requires InShards(ms, |floor|)
    ensures InShards(Above(ms, floor), |floor|)
  {
    if ms != [] {
      AboveInShards(ms[..|ms| - 1], floor);
    }
  }

  function DropTo(p: seq<Mutation>, from: nat, floor: nat): seq<Mutation> {
    if floor <= from then p else if floor - from <= |p| then p[floor - from..] else []
  }

  // dropping up to a floor, one element at a time from the back
  lemma DropToPush(q: seq<Mutation>, last: Mutation, from: nat, floor: nat)
    requires last.commitId.seqNo == from + 1 + |q|
    ensures DropTo(q + [last], from, floor) == DropTo(q, from, floor) + if last.commitId.seqNo > floor then [last] else []
  {
  }

  lemma AbovePush(ms: seq<Mutation>, m: Mutation, floor: seq<nat>)
    requires InShards(ms, |floor|) && m.commitId.shardId < |floor|
    ensures InShards(ms + [m], |floor|)
    ensures Above(ms + [m], floor) == Above(ms, floor) + if m.commitId.seqNo > floor[m.commitId.shardId] then [m] else []
  {
    assert (ms + [m])[..|ms + [m]| - 1] == ms;
  }

  lemma RunsFromInit(ms: seq<Mutation>, m: Mutation, from: nat)
    requires RunsFrom(ms + [m], from)
    ensures RunsFrom(ms, from) && m.commitId.seqNo == from + 1 + |ms|
  {
    assert (ms + [m])[|ms|] == m;
    assert forall i :: 0 <= i < |ms| ==> (ms + [m])[i] == ms[i];
  }

  // m, if c holds
  function When(c: bool, m: Mutation): seq<Mutation> {
    if c then [m] else []
  }

  lemma ProjectAbovePush(init: seq<Mutation>, last: Mutation, floor: seq<nat>, shard: nat)
    requires InShards(init, |floor|) && last.commitId.shardId < |floor| && shard < |floor|
    ensures InShards(init + [last], |floor|)
    ensures Project(Above(init + [last], floor), shard)
      == Project(Above(init, floor), shard) + When(last.commitId.shardId == shard && last.commitId.seqNo > floor[shard], last)
  {
    AbovePush(init, last, floor);
    ProjectPush(Above(init, floor), last, shard);
    hide Above, Project;
    if last.commitId.seqNo <= floor[last.commitId.shardId] {
      assert Above(init, floor) + [] == Above(init, floor);
    }
  }

  // one more mutation, of this shard or another
  lemma AboveProjectsPush(init: seq<Mutation>, last: Mutation, floor: seq<nat>, shard: nat, from: nat)
    requires InShards(init, |floor|) && last.commitId.shardId < |floor| && shard < |floor|
    requires RunsFrom(Project(init + [last], shard), from)
    requires RunsFrom(Project(init, shard), from) ==>
      Project(Above(init, floor), shard) == DropTo(Project(init, shard), from, floor[shard])
    ensures InShards(init + [last], |floor|)
    ensures Project(Above(init + [last], floor), shard) == DropTo(Project(init + [last], shard), from, floor[shard])
  {
    var q, p := Project(init, shard), Project(Above(init, floor), shard);
    ProjectAbovePush(init, last, floor, shard);
    ProjectPush(init, last, shard);
    hide Project, Above, DropTo, RunsFrom, InShards;
    if last.commitId.shardId == shard {
      RunsFromInit(q, last, from);
      DropToPush(q, last, from, floor[shard]);
    } else {
      assert q + [] == q;
      assert p + [] == p;
    }
  }

  /** The retain filter drops a prefix of every shard's run. */
  lemma {:induction false} AboveProjects(ms: seq<Mutation>, floor: seq<nat>, shard: nat, from: nat)
    requires InShards(ms, |floor|) && shard < |floor| && RunsFrom(Project(ms, shard), from)
    ensures Project(Above(ms, floor), shard) == DropTo(Project(ms, shard), from, floor[shard])
  {
    if ms != [] {
      var init, last := ms[..|ms| - 1], ms[|ms| - 1];
      assert InShards(init, |floor|) && last.commitId.shardId < |floor|;
      assert ms == init + [last];
      hide *;
      if RunsFrom(Project(init, shard), from) {
        AboveProjects(init, floor, shard, from);
      }
      AboveProjectsPush(init, last, floor, shard, from);
    }
  }

  lemma CompactWindowed(s: Source, floor: seq<nat>)
    requires Windowed(s) && CompactHistory(s, floor).Ok?
    ensures Windowed(CompactHistory(s, floor).value)
  {
    var s' := CompactHistory(s, floor).value;
    forall shard | 0 <= shard < s.shardCount
      ensures WindowOf(s'.history, shard, s'.compacted[shard], s'.watermarks[shard])
    {
      assert WindowOf(s.history, shard, s.compacted[shard], s.watermarks[shard]);
      AboveProjects(s.history, floor, shard, s.compacted[shard]);
      if floor[shard] > s.compacted[shard] {
        RunsFromDrop(Project(s.history, shard), s.compacted[shard], floor[shard] - s.compacted[shard]);
      }
    }
    AboveInShards(s.history, floor);
  }

  lemma FromSnapshotWindowed(n: nat, region: string, snap: Snapshot, index: map<string, Mutation>)
    requires n > 0 && |snap.watermarks| == n
    ensures Windowed(FromSnapshot(n, region, snap, snap.watermarks).(opIndex := index))
  {
  }

  // the retained-history loop keeps a window from the floor to what it has replayed
  ghost predicate Retaining(s: Source, floor: seq<nat>, replayed: seq<nat>) {
    && s.Shaped() && InShards(s.history, s.shardCount) && |floor| == |replayed| == s.shardCount
    && s.compacted == floor
    && forall i :: 0 <= i < s.shardCount ==>
         WindowOf(s.history, i, floor[i], replayed[i]) && replayed[i] <= s.watermarks[i]
  }

  function RetainNext(s: Source, m: Mutation): Result<Source>
    requires s.Shaped() && m.commitId.shardId < s.shardCount
  {
    if m.commitId.seqNo <= s.watermarks[m.commitId.shardId] then
      match InsertOp(s.opIndex, m)
      case Err(e) => Err(e)
      case Ok(index) => Ok(s.(opIndex := index, history := s.history + [m]))
    else ApplyLoaded(s, m)
  }

  lemma RetainNextRetains(s: Source, floor: seq<nat>, replayed: seq<nat>, m: Mutation)
    requires Retaining(s, floor, replayed) && m.commitId.shardId < s.shardCount
    requires m.commitId.seqNo == replayed[m.commitId.shardId] + 1 && RetainNext(s, m).Ok?
    ensures Retaining(RetainNext(s, m).value, floor, replayed[m.commitId.shardId := m.commitId.seqNo])
  {
    var replayed' := replayed[m.commitId.shardId := m.commitId.seqNo];
    var s' := RetainNext(s, m).value;
    assert s'.history == s.history + [m] && s'.compacted == s.compacted;
    assert s'.watermarks == s.watermarks || s'.watermarks == s.watermarks[m.commitId.shardId := m.commitId.seqNo];
    hide WindowOf, RetainNext;
    forall i | 0 <= i < s.shardCount
      ensures WindowOf(s'.history, i, floor[i], replayed'[i])
    {
      assert WindowOf(s.history, i, floor[i], replayed[i]);
      PushWindowOf(s.history, m, i, floor[i], replayed[i]);
    }
  }

  lemma {:induction false} RetainLoopRetains(s: Source, floor: seq<nat>, replayed: seq<nat>, ms: seq<Mutation>)
    requires Retaining(s, floor, replayed) && RetainLoop(s, replayed, ms).Ok?
    ensures var r := RetainLoop(s, replayed, ms).value; Retaining(r.0, floor, r.1)
    decreases |ms|
  {
    if ms != [] {
      RetainNextRetains(s, floor, replayed, ms[0]);
      hide Retaining;
      RetainLoopRetains(RetainNext(s, ms[0]).value, floor,
                        replayed[ms[0].commitId.shardId := ms[0].commitId.seqNo], ms[1..]);
    }
  }

  lemma MutationsWindowed(n: nat, region: string, ms: seq<Mutation>)
    requires FromMutations(n, region, ms).Ok?
    ensures Windowed(FromMutations(n, region, ms).value)
  {
    NewWindowed(n, region);
    hide Windowed;
    ReplayWindowed(New(n, region), SortForLoad(ms));
  }

  // a constructor that got to its replay passed the checks before it
  lemma TailIsReplay(n: nat, region: string, snap: Snapshot, idempotency: seq<Mutation>, ms: seq<Mutation>)
    requires n > 0 && FromSnapshotAndMutations(n, region, snap, idempotency, ms).Ok?
    ensures |snap.watermarks| == n && InsertOps(map[], idempotency).Ok?
    ensures FromSnapshotAndMutations(n, region, snap, idempotency, ms)
      == ReplayLoaded(FromSnapshot(n, region, snap, snap.watermarks).(opIndex := InsertOps(map[], idempotency).value),
                      SortForLoad(ms))
  {
    hide ReplayLoaded, SortForLoad, InsertOps;
  }

  lemma TailWindowed(n: nat, region: string, snap: Snapshot, idempotency: seq<Mutation>, ms: seq<Mutation>)
    requires n > 0 && FromSnapshotAndMutations(n, region, snap, idempotency, ms).Ok?
    ensures Windowed(FromSnapshotAndMutations(n, region, snap, idempotency, ms).value)
  {
    TailIsReplay(n, region, snap, idempotency, ms);
    var index := InsertOps(map[], idempotency).value;
    FromSnapshotWindowed(n, region, snap, index);
    hide Windowed, FromSnapshotAndMutations, InsertOps, FromSnapshot;
    ReplayWindowed(FromSnapshot(n, region, snap, snap.watermarks).(opIndex := index), SortForLoad(ms));
  }

  // what the retained-history loop starts from
  function RetainBase(n: nat, region: string, snap: Snapshot, idempotency: seq<Mutation>, floor: seq<nat>): (s: Source)
    requires n > 0 && |snap.watermarks| == |floor| == n && InsertOps(map[], idempotency).Ok?
    ensures s.Shaped() && s.shardCount == n
  {
    FromSnapshot(n, region, snap, floor).(opIndex := InsertOps(map[], idempotency).value)
  }

  // the final check of the constructor
  function RetainOutcome(r: Result<(Source, seq<nat>)>): (out: Result<Source>)
    requires r.Ok? ==> |r.value.1| == |r.value.0.watermarks|
    ensures out.Ok? <==> r.Ok? && forall i :: 0 <= i < |r.value.1| ==> r.value.1[i] >= r.value.0.watermarks[i]
    ensures out.Ok? ==> out.value == r.value.0
  {
    match r
    case Err(e) => Err(e)
    case Ok((s, replayed)) =>
      match FirstShort(replayed, s.watermarks)
      case None => Ok(s)
      case Some(i) => Err(Gap(i, replayed[i] + 1, s.watermarks[i]))
  }

  lemma RetainedIsLoop(n: nat, region: string, snap: Snapshot, idempotency: seq<Mutation>,
                       retained: seq<Mutation>, floor: seq<nat>)
    requires n > 0 && snap.shardCount == n && snap.Validates() && InsertOps(map[], idempotency).Ok?
    requires |floor| == n && forall i :: 0 <= i < n ==> floor[i] <= snap.watermarks[i]
    ensures FromSnapshotAndRetained(n, region, snap, idempotency, retained, floor)
         == RetainOutcome(RetainLoop(RetainBase(n, region, snap, idempotency, floor), floor, SortForLoad(retained)))
  {
    hide SortForLoad, InsertOps, RetainLoop;
  }

  // a constructor that got to its loop passed the checks before it
  lemma RetainedPassed(n: nat, region: string, snap: Snapshot, idempotency: seq<Mutation>,
                       retained: seq<Mutation>, floor: seq<nat>)
    requires n > 0 && FromSnapshotAndRetained(n, region, snap, idempotency, retained, floor).Ok?
    ensures snap.shardCount == n && snap.Validates() && InsertOps(map[], idempotency).Ok?
    ensures |floor| == n && forall i :: 0 <= i < n ==> floor[i] <= snap.watermarks[i]
  {
    hide SortForLoad, InsertOps, RetainLoop;
  }

  lemma RetainBaseRetains(n: nat, region: string, snap: Snapshot, idempotency: seq<Mutation>, floor: seq<nat>)
    requires n > 0 && |snap.watermarks| == |floor| == n && InsertOps(map[], idempotency).Ok?
    requires forall i :: 0 <= i < n ==> floor[i] <= snap.watermarks[i]
    ensures Retaining(RetainBase(n, region, snap, idempotency, floor), floor, floor)
  {
  }

  lemma RetainedWindowed(n: nat, region: string, snap: Snapshot, idempotency: seq<Mutation>,
                         retained: seq<Mutation>, floor: seq<nat>)
    requires n > 0 && FromSnapshotAndRetained(n, region, snap, idempotency, retained, floor).Ok?
    ensures Windowed(FromSnapshotAndRetained(n, region, snap, idempotency, retained, floor).value)
  {
    RetainedPassed(n, region, snap, idempotency, retained, floor);
    RetainedIsLoop(n, region, snap, idempotency, retained, floor);
    RetainBaseRetains(n, region, snap, idempotency, floor);
    var base := RetainBase(n, region, snap, idempotency, floor);
    hide FromSnapshotAndRetained, RetainBase, SortForLoad, InsertOps, RetainLoop, WindowOf, RetainOutcome;
    RetainLoopRetains(base, floor, floor, SortForLoad(retained));
  }

  /** The ways of building a source. */
  datatype Origin =
    | Empty(n: nat, region: string)
    | Logs(n: nat, region: string, ms: seq<Mutation>)
    | SnapshotAndTail(n: nat, region: string, snap: Snapshot, idempotency: seq<Mutation>, ms: seq<Mutation>)
    | SnapshotAndRetained(n: nat, region: string, snap: Snapshot, idempotency: seq<Mutation>, ms: seq<Mutation>,
                          floor: seq<nat>)

  function Build(o: Origin): Result<Source>
    requires o.n > 0
  {
    match o
    case Empty(n, region) => Ok(New(n, region))
    case Logs(n, region, ms) => FromMutations(n, region, ms)
    case SnapshotAndTail(n, region, snap, idempotency, ms) => FromSnapshotAndMutations(n, region, snap, idempotency, ms)
    case SnapshotAndRetained(n, region, snap, idempotency, ms, floor) =>
      FromSnapshotAndRetained(n, region, snap, idempotency, ms, floor)
  }

  /** Every way of building a source yields a windowed one. */
  lemma ConstructorsWindowed(o: Origin)
    requires o.n > 0 && Build(o).Ok?
    ensures Windowed(Build(o).value)
  {
    hide Windowed, FromMutations, FromSnapshotAndMutations, FromSnapshotAndRetained;
    match o
    case Empty(n, region) => NewWindowed(n, region);
    case Logs(n, region, ms) => MutationsWindowed(n, region, ms);
    case SnapshotAndTail(n, region, snap, idempotency, ms) => TailWindowed(n, region, snap, idempotency, ms);
    case SnapshotAndRetained(n, region, snap, idempotency, ms, floor) =>
      RetainedWindowed(n, region, snap, idempotency, ms, floor);
  }

  /** A snapshot without a watermark for every shard, or with a record of a shard that does not exist, is
      refused by both constructors that take one. */
  lemma BadSnapshotIsRefused(n: nat, region: string, snap: Snapshot, idempotency: seq<Mutation>, ms: seq<Mutation>, floor: seq<nat>)
    requires n > 0
    requires || snap.shardCount != n || |snap.watermarks| != n
             || (exists e :: e in snap.entries && e.shardId >= n) || (exists r :: r in snap.rules && r.shardId >= n)
    ensures FromSnapshotAndMutations(n, region, snap, idempotency, ms).Err?
    ensures FromSnapshotAndRetained(n, region, snap, idempotency, ms, floor).Err?
  {
    hide InsertOps, ReplayLoaded, RetainLoop, SortForLoad;
    if e :| e in snap.entries && e.shardId >= n {
      var i :| 0 <= i < |snap.entries| && snap.entries[i] == e;
    }
    if r :| r in snap.rules && r.shardId >= n {
      var i :| 0 <= i < |snap.rules| && snap.rules[i] == r;
    }
  }

  datatype Op =
    | Replicate(m: Mutation)
    | Direct(m: Mutation)
    | CompactTo(floor: seq<nat>)
    | SetEpoch(epoch: nat)

  // one operation on a source; one that fails leaves it as it was
  function Operate(s: Source, op: Op): (t: Source)
    requires s.Shaped() && InShards(s.history, s.shardCount)
    ensures t.Shaped()
  {
    match op
    case Replicate(m) => var r := ApplyReplicated(s, m); if r.Ok? then r.value.0 else s
    case Direct(m) => var r := CommitDirect(s, m); if r.Ok? then r.value else s
    case CompactTo(floor) => var r := CompactHistory(s, floor); if r.Ok? then r.value else s
    case SetEpoch(epoch) => s.(epoch := if epoch == 0 then 1 else epoch)
  }

  lemma OperateWindowed(s: Source, op: Op)
    requires Windowed(s)
    ensures Windowed(Operate(s, op))
  {
    hide WindowOf;
    match op
    case Replicate(m) => if ApplyReplicated(s, m).Ok? { ApplyReplicatedWindowed(s, m); }
    case Direct(m) => if CommitDirect(s, m).Ok? { PushKeepsWindow(s, m, CommitDirect(s, m).value); }
    case CompactTo(floor) => if CompactHistory(s, floor).Ok? { CompactWindowed(s, floor); }
    case SetEpoch(_) =>
  }

  /** Only setting the epoch changes it, to what is set or at least 1. */
  lemma EpochAfter(s: Source, op: Op)
    requires s.Shaped() && InShards(s.history, s.shardCount)
    ensures Operate(s, op).epoch == if op.SetEpoch? then (if op.epoch >= 1 then op.epoch else 1) else s.epoch
  {
  }

  /** A source's life: built by a constructor, then one operation after another. */
  ghost predicate Life(origin: Origin, states: seq<Source>, ops: seq<Op>) {
    && |states| == |ops| + 1
    && origin.n > 0 && Build(origin) == Ok(states[0])
    && forall i :: 0 <= i < |ops| ==>
         states[i].Shaped() && InShards(states[i].history, states[i].shardCount)
         && states[i + 1] == Operate(states[i], ops[i])
  }

  /** The window holds in every state of every life. */
  lemma {:induction false} WindowThroughout(origin: Origin, states: seq<Source>, ops: seq<Op>, i: nat)
    requires Life(origin, states, ops) && i < |states|
    ensures Windowed(states[i])
  {
    hide Windowed, Operate, Build;
    if i == 0 {
      ConstructorsWindowed(origin);
    } else {
      WindowThroughout(origin, states, ops, i - 1);
      OperateWindowed(states[i - 1], ops[i - 1]);
    }
  }

  // ---------- serving a stream ----------

  /** The stream served from a position inside the window is the rest of the shard's run. */
  lemma {:induction false} ServedStream(ms: seq<Mutation>, shard: nat, floor: nat, from: nat)
    requires RunsFrom(Project(ms, shard), floor) && floor <= from
    ensures MutationsForShard(ms, shard, from) == DropTo(Project(ms, shard), floor, from)
  {
    if ms != [] {
      var init, last := ms[..|ms| - 1], ms[|ms| - 1];
      var q := Project(init, shard);
      assert ms == init + [last];
      ServedPush(init, last, shard, from);
      ProjectPush(init, last, shard);
      hide Project, MutationsForShard, DropTo, RunsFrom;
      if last.commitId.shardId == shard {
        RunsFromInit(q, last, floor);
        DropToPush(q, last, floor, from);
        ServedStream(init, shard, floor, from);
      } else {
        assert q + [] == q;
        ServedStream(init, shard, floor, from);
      }
    }
  }

  lemma ServedPush(init: seq<Mutation>, last: Mutation, shard: nat, from: nat)
    ensures MutationsForShard(init + [last], shard, from)
      == if last.commitId.shardId == shard && last.commitId.seqNo > from then MutationsForShard(init, shard, from) + [last]
         else MutationsForShard(init, shard, from)
  {
    assert (init + [last])[..|init|] == init;
  }

  // what any receiver does with a stream of one shard: take the next number, skip an old one,
  // and report a gap otherwise
  function Receive(watermark: nat, ms: seq<Mutation>): Option<nat>
    decreases |ms|
  {
    if ms == [] then Some(watermark)
    else if ms[0].commitId.seqNo <= watermark then Receive(watermark, ms[1..])
    else if ms[0].commitId.seqNo != watermark + 1 then None
    else Receive(watermark + 1, ms[1..])
  }

  lemma {:induction false} ReceiveRun(watermark: nat, ms: seq<Mutation>)
    requires RunsFrom(ms, watermark)
    ensures Receive(watermark, ms) == Some(watermark + |ms|)
    decreases |ms|
  {
    if ms != [] {
      RunsFromDrop(ms, watermark, 1);
      ReceiveRun(watermark + 1, ms[1..]);
    }
  }

  /** Catch-up: unless the source reports its history compacted, the stream it serves from
      from_seq is one run of that shard, has no gap for a peer at from_seq, and brings the peer
      to the source's watermark. */
  lemma CatchUpReachesWatermark(s: Source, shard: nat, from: nat)
    requires Windowed(s) && shard < s.shardCount && HistoryCompacted(s, shard, from) == None
    requires from <= s.watermarks[shard]
    ensures var stream := MutationsForShard(s.history, shard, from);
      && RunsFrom(stream, from)
      && (forall i :: 0 <= i < |stream| ==> stream[i].commitId.shardId == shard)
      && Receive(from, stream) == Some(s.watermarks[shard])
  {
    var floor := s.compacted[shard];
    assert WindowOf(s.history, shard, floor, s.watermarks[shard]);
    hide Windowed, Project, MutationsForShard, DropTo, RunsFrom, Receive;
    ServedStream(s.history, shard, floor, from);
    DropToRuns(Project(s.history, shard), floor, from);
    ReceiveRun(from, MutationsForShard(s.history, shard, from));
    StreamOfShard(s.history, shard, from);
  }

  lemma DropToRuns(p: seq<Mutation>, floor: nat, from: nat)
    requires RunsFrom(p, floor) && floor <= from <= floor + |p|
    ensures RunsFrom(DropTo(p, floor, from), from) && |DropTo(p, floor, from)| == floor + |p| - from
  {
    RunsFromDrop(p, floor, from - floor);
    assert p[0..] == p;
  }

  lemma {:induction false} StreamOfShard(ms: seq<Mutation>, shard: nat, from: nat)
    ensures forall i :: 0 <= i < |MutationsForShard(ms, shard, from)| ==>
      MutationsForShard(ms, shard, from)[i].commitId.shardId == shard
  {
    if ms != [] {
      StreamOfShard(ms[..|ms| - 1], shard, from);
    }
  }

  // ---------- what is no longer there ----------

  // the mutation of that number is still in the history
  predicate Retains(ms: seq<Mutation>, shard: nat, n: nat) {
    exists i :: 0 <= i < |ms| && ms[i].commitId.shardId == shard && ms[i].commitId.seqNo == n
  }

  lemma {:induction false} RetainsProjected(ms: seq<Mutation>, shard: nat, n: nat)
    ensures Retains(ms, shard, n) <==> exists i :: 0 <= i < |Project(ms, shard)| && Project(ms, shard)[i].commitId.seqNo == n
  {
    if ms != [] {
      var init, last := ms[..|ms| - 1], ms[|ms| - 1];
      RetainsProjected(init, shard, n);
      assert ms == init + [last];
      ProjectPush(init, last, shard);
      var p, q := Project(init, shard), Project(ms, shard);
      hide Project;
      if Retains(init, shard, n) {
        var i :| 0 <= i < |p| && p[i].commitId.seqNo == n;
        assert q[i] == p[i];
        var j :| 0 <= j < |init| && init[j].commitId.shardId == shard && init[j].commitId.seqNo == n;
        assert ms[j] == init[j];
      } else if last.commitId.shardId == shard && last.commitId.seqNo == n {
        assert q[|p|] == last;
      }
    }
  }

  /** Memory retains exactly the numbers above the compacted watermark. */
  lemma RetainsIff(s: Source, shard: nat, n: nat)
    requires Windowed(s) && shard < s.shardCount
    ensures Retains(s.history, shard, n) <==> s.compacted[shard] < n <= s.watermarks[shard]
  {
    assert WindowOf(s.history, shard, s.compacted[shard], s.watermarks[shard]);
    RetainsProjected(s.history, shard, n);
    var p, floor := Project(s.history, shard), s.compacted[shard];
    hide Windowed, Project, Retains;
    if floor < n <= s.watermarks[shard] {
      assert p[n - floor - 1].commitId.seqNo == n;
    }
  }

  /** A history is reported compacted exactly to those who miss a number that it no longer has; they are told
      the last number that it lacks. */
  lemma HistoryCompactedIff(s: Source, shard: nat, from: nat)
    requires Windowed(s) && shard < s.shardCount && from <= s.watermarks[shard]
    ensures HistoryCompacted(s, shard, from).Some? <==>
      exists n: nat :: from < n <= s.watermarks[shard] && !Retains(s.history, shard, n)
    ensures HistoryCompacted(s, shard, from).Some? ==>
      var c := HistoryCompacted(s, shard, from).value;
      from < c && !Retains(s.history, shard, c) && forall n: nat :: c < n <= s.watermarks[shard] ==> Retains(s.history, shard, n)
  {
    assert WindowOf(s.history, shard, s.compacted[shard], s.watermarks[shard]);
    forall n: nat
      ensures Retains(s.history, shard, n) <==> s.compacted[shard] < n <= s.watermarks[shard]
    {
      RetainsIff(s, shard, n);
    }
    hide Windowed, WindowOf, Retains;
    assert from < s.compacted[shard] ==> !Retains(s.history, shard, s.compacted[shard]);
  }
}
