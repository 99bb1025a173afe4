/** The directory of prepared but uncommitted mutations, one file per (shard, sequence number):
    crates/globacl-commitd/src/app/storage.rs, and the log status that
    crates/globacl-commitd/src/app/config.rs derives from it. */
module PendingStore {
  import opened Domain
  import opened Consensus

  datatype Slot = Slot(shardId: nat, seqNo: nat)

  type Files = map<Slot, Mutation>

  // pending_mutation_path
  function SlotOf(m: Mutation): Slot {
    Slot(m.commitId.shardId, m.commitId.seqNo)
  }

  // write_pending_mutation
  function Write(files: Files, m: Mutation): Result<Files> {
    var slot := SlotOf(m);
    if slot in files && files[slot] == m then Ok(files)
    else if slot in files && files[slot].commitId.epoch >= m.commitId.epoch then Err(InvalidData)
    else Ok(files[slot := m])
  }

  // ensure_pending_mutation
  predicate Holds(files: Files, m: Mutation) {
    SlotOf(m) in files && files[SlotOf(m)] == m
  }

  // remove_pending_mutation: whatever is at the slot goes, whether or not it is m
  function Remove(files: Files, m: Mutation): Files {
    files - {SlotOf(m)}
  }

  /** A slot is never handed to a mutation of an older epoch, nor to another one of the same epoch. */
  lemma WriteKeepsNewest(files: Files, m: Mutation)
    ensures Write(files, m).Err? <==>
      SlotOf(m) in files && files[SlotOf(m)] != m && files[SlotOf(m)].commitId.epoch >= m.commitId.epoch
    ensures Write(files, m).Ok? ==>
      && Holds(Write(files, m).value, m)
      && Write(files, m).value - {SlotOf(m)} == files - {SlotOf(m)}
  {
  }

  // one round of the loop of local_log_status
  function Raise(status: LogStatus, m: Mutation, clusterId: string): LogStatus {
    var shard := m.commitId.shardId;
    if m.commitId.sourceRegion == clusterId && shard < |status.watermarks|
       && m.commitId.seqNo > status.watermarks[shard]
    then status.(watermarks := status.watermarks[shard := m.commitId.seqNo], logLen := status.logLen + 1)
    else status
  }

  function RaiseAll(status: LogStatus, pending: seq<Mutation>, clusterId: string): LogStatus {
    if pending == [] then status
    else Raise(RaiseAll(status, pending[..|pending| - 1], clusterId), pending[|pending| - 1], clusterId)
  }

  function MaxOf(ws: seq<nat>): (m: nat)
    ensures forall i :: 0 <= i < |ws| ==> ws[i] <= m
    ensures ws != [] ==> m in ws
  {
    if ws == [] then 0
    else
      var rest := MaxOf(ws[..|ws| - 1]);
      var last := ws[|ws| - 1];
      if rest <= last then last else rest
  }

  // local_log_status
  method LocalLogStatus(watermarks: seq<nat>, logLen: nat, pending: seq<Mutation>, clusterId: string)
    returns (status: LogStatus)
    ensures var raised := RaiseAll(LogStatus(0, logLen, watermarks), pending, clusterId);
      status == raised.(lastSeq := MaxOf(raised.watermarks))
  {
    var ws: seq<nat>, len := watermarks, logLen;
    for i := 0 to |pending|
      invariant LogStatus(0, len, ws) == RaiseAll(LogStatus(0, logLen, watermarks), pending[..i], clusterId)
    {
      assert pending[..i + 1][..i] == pending[..i];
      var id := pending[i].commitId;
      if id.sourceRegion == clusterId && id.shardId < |ws| && id.seqNo > ws[id.shardId] {
        ws := ws[id.shardId := id.seqNo];
        len := len + 1;
      }
    }
    assert pending[..|pending|] == pending;
    return LogStatus(MaxOf(ws), len, ws);
  }

  predicate Counts(m: Mutation, shard: nat, clusterId: string) {
    m.commitId.shardId == shard && m.commitId.sourceRegion == clusterId
  }

  /** The reported watermark of a shard is the largest of its own and of those of the cluster's
      pending mutations. */
  lemma {:induction false} RaisedIsMaximum(status: LogStatus, pending: seq<Mutation>, clusterId: string, shard: nat)
    requires shard < |status.watermarks|
    ensures var r := RaiseAll(status, pending, clusterId);
      && |r.watermarks| == |status.watermarks|
      && r.watermarks[shard] >= status.watermarks[shard]
      && (forall i :: 0 <= i < |pending| && Counts(pending[i], shard, clusterId) ==>
            pending[i].commitId.seqNo <= r.watermarks[shard])
      && (|| r.watermarks[shard] == status.watermarks[shard]
          || exists i :: 0 <= i < |pending| && Counts(pending[i], shard, clusterId)
               && pending[i].commitId.seqNo == r.watermarks[shard])
  {
    if pending != [] {
      var n := |pending| - 1;
      RaisedIsMaximum(status, pending[..n], clusterId, shard);
      var before := RaiseAll(status, pending[..n], clusterId);
      var r := RaiseAll(status, pending, clusterId);
      forall i | 0 <= i < |pending| && Counts(pending[i], shard, clusterId)
        ensures pending[i].commitId.seqNo <= r.watermarks[shard]
      {
        if i < n {
          assert pending[..n][i] == pending[i];
        }
      }
      if r.watermarks[shard] != before.watermarks[shard] {
        assert Counts(pending[n], shard, clusterId) && pending[n].commitId.seqNo == r.watermarks[shard];
      } else if before.watermarks[shard] != status.watermarks[shard] {
        var i :| 0 <= i < n && Counts(pending[..n][i], shard, clusterId)
                 && pending[..n][i].commitId.seqNo == before.watermarks[shard];
        assert pending[i] == pending[..n][i];
      }
    }
  }

  // the pending files as they are listed, by shard and number: one file a slot, so numbers ascend
  predicate Ascending(pending: seq<Mutation>) {
    forall i, j :: 0 <= i < j < |pending| && pending[i].commitId.shardId == pending[j].commitId.shardId ==>
      pending[i].commitId.seqNo < pending[j].commitId.seqNo
  }

  // a mutation of this cluster beyond what is applied of its shard
  predicate IsAhead(status: LogStatus, m: Mutation, clusterId: string) {
    && m.commitId.sourceRegion == clusterId && m.commitId.shardId < |status.watermarks|
    && m.commitId.seqNo > status.watermarks[m.commitId.shardId]
  }

  // the pending mutations beyond the applied ones, by position
  function AheadOf(status: LogStatus, pending: seq<Mutation>, clusterId: string): set<nat> {
    set i: nat | i < |pending| && IsAhead(status, pending[i], clusterId)
  }

  // whether the last pending mutation is beyond what came before it
  lemma LastIsAhead(status: LogStatus, init: seq<Mutation>, last: Mutation, clusterId: string)
    requires Ascending(init + [last])
    ensures var before := RaiseAll(status, init, clusterId);
      Raise(before, last, clusterId).logLen == before.logLen + if IsAhead(status, last, clusterId) then 1 else 0
  {
    RaisedShards(status, init, clusterId);
    var before, shard := RaiseAll(status, init, clusterId), last.commitId.shardId;
    if shard < |status.watermarks| {
      RaisedIsMaximum(status, init, clusterId, shard);
      forall i | 0 <= i < |init| && Counts(init[i], shard, clusterId)
        ensures init[i].commitId.seqNo < last.commitId.seqNo
      {
        assert (init + [last])[i] == init[i] && (init + [last])[|init|] == last;
      }
    }
    hide RaiseAll, Ascending;
  }

  lemma AheadPush(status: LogStatus, init: seq<Mutation>, last: Mutation, clusterId: string)
    ensures |AheadOf(status, init + [last], clusterId)|
         == |AheadOf(status, init, clusterId)| + if IsAhead(status, last, clusterId) then 1 else 0
  {
    hide IsAhead;
    var n, all := |init|, init + [last];
    assert forall i :: 0 <= i < n ==> all[i] == init[i];
    if n in AheadOf(status, all, clusterId) {
      assert AheadOf(status, all, clusterId) == AheadOf(status, init, clusterId) + {n};
    } else {
      assert AheadOf(status, all, clusterId) == AheadOf(status, init, clusterId);
    }
  }

  lemma AscendingInit(init: seq<Mutation>, last: Mutation)
    requires Ascending(init + [last])
    ensures Ascending(init)
  {
    var all := init + [last];
    assert forall i :: 0 <= i < |init| ==> all[i] == init[i];
  }

  /** The reported log length counts every pending mutation beyond the applied ones, once. */
  lemma {:induction false} RaisedCountsAhead(status: LogStatus, pending: seq<Mutation>, clusterId: string)
    requires Ascending(pending)
    ensures RaiseAll(status, pending, clusterId).logLen == status.logLen + |AheadOf(status, pending, clusterId)|
  {
    if pending == [] {
      assert AheadOf(status, pending, clusterId) == {};
    } else {
      var init, last := pending[..|pending| - 1], pending[|pending| - 1];
      assert pending == init + [last];
      hide AheadOf, Ascending, Raise, IsAhead;
      AscendingInit(init, last);
      RaisedCountsAhead(status, init, clusterId);
      LastIsAhead(status, init, last, clusterId);
      AheadPush(status, init, last, clusterId);
    }
  }

  lemma {:induction false} RaisedShards(status: LogStatus, pending: seq<Mutation>, clusterId: string)
    ensures |RaiseAll(status, pending, clusterId).watermarks| == |status.watermarks|
  {
    if pending != [] {
      RaisedShards(status, pending[..|pending| - 1], clusterId);
    }
  }

  /** A voter that has applied or holds a prepared mutation of some shard, beyond what the candidate
      reports for that shard, refuses its vote. */
  lemma StaleCandidateRefused(c: ConsensusState, req: VoteRequest, watermarks: seq<nat>, logLen: nat,
                              pending: seq<Mutation>, clusterId: string, shard: nat, seqNo: nat)
    requires req.watermarks.Some? && shard < |watermarks| == |req.watermarks.value|
    requires seqNo > req.watermarks.value[shard]
    requires watermarks[shard] >= seqNo
      || exists i :: 0 <= i < |pending| && Counts(pending[i], shard, clusterId) && pending[i].commitId.seqNo >= seqNo
    ensures var status := RaiseAll(LogStatus(0, logLen, watermarks), pending, clusterId);
      !OnVoteRequest(c, req, status.(lastSeq := MaxOf(status.watermarks))).1
  {
    RaisedIsMaximum(LogStatus(0, logLen, watermarks), pending, clusterId, shard);
    hide RaiseAll;
  }

  /** The pending directory of one commitd. */
  class PendingDir {
    var files: Files

    constructor ()
      ensures files == map[]
    {
      files := map[];
    }

    method WritePending(m: Mutation) returns (ok: bool)
      modifies this
      ensures ok == Write(old(files), m).Ok?
      ensures files == if ok then Write(old(files), m).value else old(files)
    {
      var slot := SlotOf(m);
      if slot in files {
        var existing := files[slot];
        if existing == m {
          return true;
        }
        if existing.commitId.epoch >= m.commitId.epoch {
          return false;
        }
      }
      files := files[slot := m];
      return true;
    }

    method RemovePending(m: Mutation)
      modifies this
      ensures files == Remove(old(files), m)
    {
      files := files - {SlotOf(m)};
    }
  }
}
