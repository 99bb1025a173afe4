/** SourceOfTruth as crates/globacl-core/src/lib/source.rs runs it: fields updated in place, each
    method proved against the value it stands for. */
module SourceOfTruth {
  import opened Domain
  import opened SourceSpec
  import opened Replay
  import opened Loading

  // one round of the replay loop
  lemma LoadsNext(s: Source, ms: seq<Mutation>, i: nat)
    requires s.Shaped() && i < |ms|
    ensures ReplayLoaded(s, ms[i..]) ==
      match ApplyLoaded(s, ms[i])
      case Err(e) => Err(e)
      case Ok(next) => ReplayLoaded(next, ms[i + 1..])
  {
    assert ms[i..][1..] == ms[i + 1..];
  }

  class SourceOfTruth {
    const shardCount: nat
    const region: string
    var entries: map<AclKey, DenyEntry>
    var rules: map<RuleKey, RuleEntry>
    var watermarks: seq<nat>
    var compacted: seq<nat>
    var history: seq<Mutation>
    var opIndex: map<string, Mutation>
    var epoch: nat

    ghost function Value(): Source
      reads this
    {
      Source(shardCount, entries, rules, watermarks, compacted, history, opIndex, epoch, region)
    }

    ghost predicate Valid()
      reads this
    {
      Value().Shaped()
    }

    constructor (shardCount: nat, region: string)
      ensures Value() == New(shardCount, region) && Valid()
    {
      var n := if shardCount == 0 then 1 else shardCount;
      this.shardCount := n;
      this.region := region;
      entries, rules := map[], map[];
      watermarks, compacted := seq(n, _ => 0), seq(n, _ => 0);
      history, opIndex, epoch := [], map[], 1;
    }

    method SetEpoch(newEpoch: nat)
      modifies this`epoch
      ensures Value() == old(Value()).(epoch := if newEpoch == 0 then 1 else newEpoch)
    {
      epoch := if newEpoch == 0 then 1 else newEpoch;
    }

    // apply_committed_mutation
    method ApplyCommittedMutation(m: Mutation) returns (ok: bool)
      requires Valid()
      modifies this`entries, this`rules, this`watermarks
      ensures ok == ApplyCommitted(old(Value()), m).Ok?
      ensures Value() == if ok then ApplyCommitted(old(Value()), m).value else old(Value())
      ensures Valid()
    {
      var shard := m.commitId.shardId;
      if shard >= shardCount {
        return false;
      }
      if m.commitId.seqNo != watermarks[shard] + 1 {
        return false;
      }
      if m.rule.Some? {
        var rule := m.rule.value;
        match rule.action
        case Delete => rules := rules - {rule.Key()};
        case _ => rules := rules[rule.Key() := rule];
      } else {
        match m.entry.action
        case Delete => entries := entries - {m.entry.Key()};
        case _ => entries := entries[m.entry.Key() := m.entry];
      }
      watermarks := watermarks[shard := m.commitId.seqNo];
      return true;
    }

    // insert_op_index
    method InsertOpIndex(m: Mutation) returns (ok: bool)
      modifies this`opIndex
      ensures ok == InsertOp(old(opIndex), m).Ok?
      ensures opIndex == if ok then InsertOp(old(opIndex), m).value else old(opIndex)
    {
      if m.opId in opIndex {
        return opIndex[m.opId] == m;
      }
      opIndex := opIndex[m.opId := m];
      return true;
    }

    // apply_replicated_mutation
    method ApplyReplicatedMutation(m: Mutation) returns (r: Result<ApplyStatus>)
      requires Valid()
      modifies this
      ensures Valid()
      ensures match ApplyReplicated(old(Value()), m)
        case Ok((value, status)) => r == Ok(status) && Value() == value
        case Err(_) => r.Err? && Value() == old(Value())
    {
      if m.opId in opIndex {
        return if opIndex[m.opId] == m then Ok(DuplicateOrOld) else Err(InvalidData);
      }
      var shard := m.commitId.shardId;
      if shard >= shardCount {
        return Err(InvalidData);
      }
      if m.commitId.seqNo <= watermarks[shard] {
        return if m in history then Ok(DuplicateOrOld) else Err(InvalidData);
      }
      var ok := ApplyCommittedMutation(m);
      if !ok {
        return Err(Gap(shard, watermarks[shard] + 1, m.commitId.seqNo));
      }
      opIndex := opIndex[m.opId := m];
      history := history + [m];
      return Ok(Applied);
    }

    // apply_loaded_mutation
    method ApplyLoadedMutation(m: Mutation) returns (ok: bool)
      requires Valid()
      modifies this
      ensures Valid()
      ensures ok == ApplyLoaded(old(Value()), m).Ok?
      ensures ok ==> Value() == ApplyLoaded(old(Value()), m).value
    {
      ok := ApplyCommittedMutation(m);
      if ok {
        ok := InsertOpIndex(m);
        if ok {
          history := history + [m];
        }
      }
    }

    // the replay loop of from_mutations and from_snapshot_and_mutations
    method ReplayAll(ms: seq<Mutation>) returns (ok: bool)
      requires Valid()
      modifies this
      ensures Valid()
      ensures ok == ReplayLoaded(old(Value()), ms).Ok?
      ensures ok ==> Value() == ReplayLoaded(old(Value()), ms).value
    {
      var i := 0;
      while i < |ms|
        invariant i <= |ms| && Valid()
        invariant ReplayLoaded(Value(), ms[i..]) == ReplayLoaded(old(Value()), ms)
      {
        LoadsNext(Value(), ms, i);
        hide ReplayLoaded;
        ok := ApplyLoadedMutation(ms[i]);
        if !ok {
          return false;
        }
        i := i + 1;
      }
      return true;
    }

    // compact_mutation_history
    method CompactMutationHistory(floor: seq<nat>) returns (ok: bool)
      requires Valid()
      requires forall i :: 0 <= i < |history| ==> history[i].commitId.shardId < shardCount
      modifies this`history, this`compacted
      ensures Valid()
      ensures ok == CompactHistory(old(Value()), floor).Ok?
      ensures Value() == if ok then CompactHistory(old(Value()), floor).value else old(Value())
    {
      if |floor| != shardCount {
        return false;
      }
      for i := 0 to |floor|
        invariant forall j :: 0 <= j < i ==> floor[j] <= watermarks[j]
      {
        if floor[i] > watermarks[i] {
          return false;
        }
      }
      var kept: seq<Mutation> := [];
      for i := 0 to |history|
        invariant kept == Above(history[..i], floor)
      {
        assert history[..i + 1][..i] == history[..i];
        var m := history[i];
        if m.commitId.seqNo > floor[m.commitId.shardId] {
          kept := kept + [m];
        }
      }
      assert history[..|history|] == history;
      history := kept;
      var raised := compacted;
      for i := 0 to |floor|
        invariant |raised| == |compacted|
        invariant forall j :: 0 <= j < i ==> raised[j] == if compacted[j] < floor[j] then floor[j] else compacted[j]
        invariant forall j :: i <= j < |raised| ==> raised[j] == compacted[j]
      {
        if raised[i] < floor[i] {
          raised := raised[i := floor[i]];
        }
      }
      compacted := raised;
      assert compacted == CompactHistory(old(Value()), floor).value.compacted;
      return true;
    }

    // mutations_for_shard
    method ServeShard(shard: nat, from: nat) returns (stream: seq<Mutation>)
      ensures stream == MutationsForShard(history, shard, from)
    {
      stream := [];
      for i := 0 to |history|
        invariant stream == MutationsForShard(history[..i], shard, from)
      {
        assert history[..i + 1][..i] == history[..i];
        if history[i].commitId.shardId == shard && history[i].commitId.seqNo > from {
          stream := stream + [history[i]];
        }
      }
      assert history[..|history|] == history;
    }
  }

  // SourceOfTruth::from_mutations
  method LoadMutations(n: nat, region: string, ms: seq<Mutation>) returns (ok: bool, source: SourceOfTruth)
    ensures fresh(source) && ok == FromMutations(n, region, ms).Ok?
    ensures ok ==> source.Value() == FromMutations(n, region, ms).value
  {
    source := new SourceOfTruth(n, region);
    ok := source.ReplayAll(SortForLoad(ms));
  }
}
