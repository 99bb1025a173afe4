/** Rebuilding a source of truth: the constructors of crates/globacl-core/src/lib/source.rs and
    load_source_of_truth of crates/globacl-commitd/src/app/commit.rs. */
module Loading {
  import opened Domain
  import opened SourceSpec
  import opened Replay

  function EntryTable(entries: seq<DenyEntry>): map<AclKey, DenyEntry> {
    if entries == [] then map[]
    else EntryTable(entries[..|entries| - 1])[entries[|entries| - 1].Key() := entries[|entries| - 1]]
  }

  function RuleTable(rules: seq<RuleEntry>): map<RuleKey, RuleEntry> {
    if rules == [] then map[]
    else RuleTable(rules[..|rules| - 1])[rules[|rules| - 1].Key() := rules[|rules| - 1]]
  }

  // the state a snapshot stands for, before any mutation
  function FromSnapshot(n: nat, region: string, snap: Snapshot, floor: seq<nat>): (s: Source)
    requires n > 0 && |snap.watermarks| == n && |floor| == n
    ensures s.Shaped() && s.shardCount == n
  {
    New(n, region).(entries := EntryTable(snap.entries), rules := RuleTable(snap.rules),
                    watermarks := snap.watermarks, compacted := floor)
  }

  // from_mutations
  function FromMutations(n: nat, region: string, ms: seq<Mutation>): (r: Result<Source>)
    ensures r.Ok? ==> r.value.Shaped()
  {
    ReplayLoaded(New(n, region), SortForLoad(ms))
  }

  // from_snapshot_and_mutations
  function FromSnapshotAndMutations(n: nat, region: string, snap: Snapshot, idempotency: seq<Mutation>,
                                    ms: seq<Mutation>): (r: Result<Source>)
    requires n > 0
    ensures r.Ok? ==> r.value.Shaped()
  {
    if snap.shardCount != n || !snap.Validates() then Err(InvalidData)
    else
      var base := FromSnapshot(n, region, snap, snap.watermarks);
      match InsertOps(base.opIndex, idempotency)
      case Err(e) => Err(e)
      case Ok(index) => ReplayLoaded(base.(opIndex := index), SortForLoad(ms))
  }

  // the retained-history loop: what has been replayed of each shard, and the state so far
  function RetainLoop(s: Source, replayed: seq<nat>, ms: seq<Mutation>): (r: Result<(Source, seq<nat>)>)
    requires s.Shaped() && |replayed| == s.shardCount
    ensures r.Ok? ==> r.value.0.Shaped() && r.value.0.shardCount == s.shardCount && |r.value.1| == |replayed|
    decreases |ms|
  {
    if ms == [] then Ok((s, replayed))
    else
      var m := ms[0];
      var shard := m.commitId.shardId;
      if shard >= s.shardCount then Err(InvalidData)
      else if m.commitId.seqNo != replayed[shard] + 1 then Err(Gap(shard, replayed[shard] + 1, m.commitId.seqNo))
      else
        var replayed' := replayed[shard := m.commitId.seqNo];
        if m.commitId.seqNo <= s.watermarks[shard] then
          match InsertOp(s.opIndex, m)
          case Err(e) => Err(e)
          case Ok(index) => RetainLoop(s.(opIndex := index, history := s.history + [m]), replayed', ms[1..])
        else
          match ApplyLoaded(s, m)
          case Err(e) => Err(e)
          case Ok(s') => RetainLoop(s', replayed', ms[1..])
  }

  // from_snapshot_and_retained_history
  function FromSnapshotAndRetained(n: nat, region: string, snap: Snapshot, idempotency: seq<Mutation>,
                                   retained: seq<Mutation>, floor: seq<nat>): (r: Result<Source>)
    requires n > 0
    ensures r.Ok? ==> r.value.Shaped()
  {
    if snap.shardCount != n || !snap.Validates() then Err(InvalidData)
    else if |floor| != n || (exists i :: 0 <= i < n && floor[i] > snap.watermarks[i]) then Err(InvalidData)
    else
      var base := FromSnapshot(n, region, snap, floor);
      match InsertOps(base.opIndex, idempotency)
      case Err(e) => Err(e)
      case Ok(index) =>
        match RetainLoop(base.(opIndex := index), floor, SortForLoad(retained))
        case Err(e) => Err(e)
        case Ok((s, replayed)) =>
          match FirstShort(replayed, s.watermarks)
          case None => Ok(s)
          case Some(i) => Err(Gap(i, replayed[i] + 1, s.watermarks[i]))
  }

  // the first shard whose replayed history stops short of its watermark
  function FirstShort(replayed: seq<nat>, w: seq<nat>): (r: Option<nat>)
    requires |replayed| == |w|
    ensures r.None? <==> forall i :: 0 <= i < |w| ==> replayed[i] >= w[i]
    ensures r.Some? ==> r.value < |w| && replayed[r.value] < w[r.value]
  {
    if w == [] then None
    else
      var n := |w| - 1;
      match FirstShort(replayed[..n], w[..n])
      case Some(i) => Some(i)
      case None => if replayed[n] < w[n] then Some(n) else None
  }

  /** What survives a restart: the latest snapshot, the op-id file and the shard logs. */
  datatype Disk = Disk(snapshot: Option<Snapshot>, opIds: Option<seq<Mutation>>, logs: seq<seq<Mutation>>)

  // load_all_logs
  function Flatten(logs: seq<seq<Mutation>>): seq<Mutation> {
    if logs == [] then [] else Flatten(logs[..|logs| - 1]) + logs[|logs| - 1]
  }

  // the tail filter of load_source_of_truth
  function Tail(ms: seq<Mutation>, w: seq<nat>): seq<Mutation>
    requires forall i :: 0 <= i < |ms| ==> ms[i].commitId.shardId < |w|
  {
    Above(ms, w)
  }

  function AtMost(a: nat, b: nat): nat { if a < b then a else b }

  function AtLeast(a: nat, b: nat): nat { if a < b then b else a }

  function Lowered(a: seq<nat>, b: seq<nat>): (r: seq<nat>)
    requires |a| == |b|
    ensures |r| == |a| && forall i :: 0 <= i < |a| ==> r[i] == AtMost(a[i], b[i])
  {
    seq(|a|, i requires 0 <= i < |a| => AtMost(a[i], b[i]))
  }

  // load_source_of_truth; the logs of a shard only hold mutations of that shard, as they are
  // written there by shard number
  function Load(disk: Disk, n: nat, region: string, offsets: Option<seq<nat>>): (r: Result<Source>)
    requires n > 0 && |disk.logs| == n
    requires forall i :: 0 <= i < |Flatten(disk.logs)| ==> Flatten(disk.logs)[i].commitId.shardId < n
    ensures r.Ok? ==> r.value.Shaped()
  {
    var all := Flatten(disk.logs);
    if disk.snapshot.None? then FromMutations(n, region, all)
    else
      var snap := disk.snapshot.value;
      if !snap.Validates() || snap.shardCount != n then Err(InvalidData)
      else if offsets.Some? && all != [] && FromMutations(n, region, all).Ok?
              && FromMutations(n, region, all).value.watermarks == snap.watermarks
      then FromMutations(n, region, all)
      else
        var idempotency := if disk.opIds.Some? then disk.opIds.value + all else all;
        if offsets.Some? then
          if |offsets.value| != n then Err(InvalidData)
          else FromSnapshotAndRetained(n, region, snap, idempotency, all, Lowered(offsets.value, snap.watermarks))
        else FromSnapshotAndMutations(n, region, snap, idempotency, Tail(all, snap.watermarks))
  }
}
