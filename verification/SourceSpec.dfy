/** The source of truth as a value: what SourceOfTruth in
    crates/globacl-core/src/lib/source.rs holds, and what each of its operations does to it.
    The class in SourceOfTruth.dfy is proved against these functions. */
module SourceSpec {
  import opened Domain
  import opened Text

  datatype Source = Source(
    shardCount: nat,
    entries: map<AclKey, DenyEntry>,
    rules: map<RuleKey, RuleEntry>,
    watermarks: seq<nat>,
    compacted: seq<nat>,
    history: seq<Mutation>,
    opIndex: map<string, Mutation>,
    epoch: nat,
    region: string)
  {
    predicate Shaped() {
      shardCount > 0 && |watermarks| == shardCount && |compacted| == shardCount
    }
  }

  // SourceOfTruth::new
  function New(shardCount: nat, region: string): (s: Source)
    ensures s.Shaped()
  {
    var n := if shardCount == 0 then 1 else shardCount;
    Source(n, map[], map[], seq(n, _ => 0), seq(n, _ => 0), [], map[], 1, region)
  }

  function EntriesAfter(entries: map<AclKey, DenyEntry>, m: Mutation): map<AclKey, DenyEntry> {
    if m.rule.Some? then entries
    else if m.entry.action.Delete? then entries - {m.entry.Key()}
    else entries[m.entry.Key() := m.entry]
  }

  function RulesAfter(rules: map<RuleKey, RuleEntry>, m: Mutation): map<RuleKey, RuleEntry> {
    if m.rule.None? then rules
    else if m.rule.value.action.Delete? then rules - {m.rule.value.Key()}
    else rules[m.rule.value.Key() := m.rule.value]
  }

  // apply_committed_mutation
  function ApplyCommitted(s: Source, m: Mutation): (r: Result<Source>)
    requires s.Shaped()
    ensures r.Ok? ==> r.value.Shaped() && r.value.shardCount == s.shardCount
  {
    var shard := m.commitId.shardId;
    if shard >= s.shardCount then Err(InvalidData)
    else
      var expected := s.watermarks[shard] + 1;
      if m.commitId.seqNo != expected then Err(Gap(shard, expected, m.commitId.seqNo))
      else Ok(s.(entries := EntriesAfter(s.entries, m),
                 rules := RulesAfter(s.rules, m),
                 watermarks := s.watermarks[shard := m.commitId.seqNo]))
  }

  // insert_op_index
  function InsertOp(index: map<string, Mutation>, m: Mutation): Result<map<string, Mutation>> {
    if m.opId in index then (if index[m.opId] == m then Ok(index) else Err(InvalidData))
    else Ok(index[m.opId := m])
  }

  function InsertOps(index: map<string, Mutation>, ms: seq<Mutation>): Result<map<string, Mutation>>
    decreases |ms|
  {
    if ms == [] then Ok(index)
    else
      match InsertOp(index, ms[0])
      case Err(e) => Err(e)
      case Ok(next) => InsertOps(next, ms[1..])
  }

  // apply_loaded_mutation
  function ApplyLoaded(s: Source, m: Mutation): (r: Result<Source>)
    requires s.Shaped()
    ensures r.Ok? ==> r.value.Shaped() && r.value.shardCount == s.shardCount
  {
    match ApplyCommitted(s, m)
    case Err(e) => Err(e)
    case Ok(applied) =>
      match InsertOp(s.opIndex, m)
      case Err(e) => Err(e)
      case Ok(index) => Ok(applied.(opIndex := index, history := s.history + [m]))
  }

  // the replay loop of the constructors
  function ReplayLoaded(s: Source, ms: seq<Mutation>): (r: Result<Source>)
    requires s.Shaped()
    ensures r.Ok? ==> r.value.Shaped() && r.value.shardCount == s.shardCount
    decreases |ms|
  {
    if ms == [] then Ok(s)
    else
      match ApplyLoaded(s, ms[0])
      case Err(e) => Err(e)
      case Ok(next) => ReplayLoaded(next, ms[1..])
  }

  // apply_replicated_mutation: a failed call leaves the state as it was
  function ApplyReplicated(s: Source, m: Mutation): (r: Result<(Source, ApplyStatus)>)
    requires s.Shaped()
    ensures r.Ok? ==> r.value.0.Shaped() && r.value.0.shardCount == s.shardCount
  {
    var shard := m.commitId.shardId;
    if m.opId in s.opIndex then
      if s.opIndex[m.opId] == m then Ok((s, DuplicateOrOld)) else Err(InvalidData)
    else if shard >= s.shardCount then Err(InvalidData)
    else if m.commitId.seqNo <= s.watermarks[shard] then
      if m in s.history then Ok((s, DuplicateOrOld)) else Err(InvalidData)
    else
      match ApplyCommitted(s, m)
      case Err(e) => Err(e)
      case Ok(applied) =>
        Ok((applied.(opIndex := s.opIndex[m.opId := m], history := s.history + [m]), Applied))
  }

  // the shared end of commit_entry_direct and commit_rule_direct
  function CommitDirect(s: Source, m: Mutation): (r: Result<Source>)
    requires s.Shaped()
    ensures r.Ok? ==> r.value.Shaped() && r.value.shardCount == s.shardCount
  {
    match ApplyCommitted(s, m)
    case Err(e) => Err(e)
    case Ok(applied) => Ok(applied.(opIndex := s.opIndex[m.opId := m], history := s.history + [m]))
  }

  /** An applied mutation was the next one of its shard, under an unused op id, and it
      joins the history; nothing else of the bookkeeping moves. */
  lemma ApplyReplicatedApplied(s: Source, m: Mutation)
    requires s.Shaped()
    ensures var r := ApplyReplicated(s, m);
      (r.Ok? && r.value.1 == Applied) <==>
      (m.opId !in s.opIndex && m.commitId.shardId < s.shardCount
       && m.commitId.seqNo == s.watermarks[m.commitId.shardId] + 1)
    ensures var r := ApplyReplicated(s, m);
      r.Ok? && r.value.1 == Applied ==>
        && r.value.0.history == s.history + [m]
        && r.value.0.opIndex == s.opIndex[m.opId := m]
        && r.value.0.watermarks == s.watermarks[m.commitId.shardId := m.commitId.seqNo]
        && r.value.0.compacted == s.compacted
    ensures var r := ApplyReplicated(s, m);
      r.Ok? && r.value.1 == DuplicateOrOld ==>
        r.value.0 == s && (m in s.history || (m.opId in s.opIndex && s.opIndex[m.opId] == m))
  {
  }

  // compact_mutation_history
  function CompactHistory(s: Source, floor: seq<nat>): (r: Result<Source>)
    requires s.Shaped()
    requires forall i :: 0 <= i < |s.history| ==> s.history[i].commitId.shardId < s.shardCount
    ensures r.Ok? ==> r.value.Shaped() && r.value.shardCount == s.shardCount
  {
    if |floor| != s.shardCount then Err(InvalidData)
    else if exists shard :: 0 <= shard < |floor| && floor[shard] > s.watermarks[shard] then Err(InvalidData)
    else Ok(s.(history := Above(s.history, floor),
               compacted := seq(s.shardCount, i requires 0 <= i < s.shardCount =>
                 if s.compacted[i] < floor[i] then floor[i] else s.compacted[i])))
  }

  // the retain filter of compact_mutation_history
  function Above(ms: seq<Mutation>, floor: seq<nat>): seq<Mutation>
    requires forall i :: 0 <= i < |ms| ==> ms[i].commitId.shardId < |floor|
  {
    if ms == [] then []
    else
      var last := ms[|ms| - 1];
      Above(ms[..|ms| - 1], floor) + (if last.commitId.seqNo > floor[last.commitId.shardId] then [last] else [])
  }

  // the filter of compact_logs_to_watermarks on one shard's log
  function AboveOne(log: seq<Mutation>, floor: nat): seq<Mutation> {
    if log == [] then []
    else AboveOne(log[..|log| - 1], floor)
         + (if log[|log| - 1].commitId.seqNo > floor then [log[|log| - 1]] else [])
  }

  // mutations_for_shard with from_seq == 0 keeps every positive sequence number
  function Project(ms: seq<Mutation>, shard: nat): seq<Mutation> {
    if ms == [] then []
    else
      var last := ms[|ms| - 1];
      Project(ms[..|ms| - 1], shard) + (if last.commitId.shardId == shard then [last] else [])
  }

  // mutations_for_shard
  function MutationsForShard(ms: seq<Mutation>, shard: nat, from: nat): seq<Mutation> {
    if ms == [] then []
    else
      var last := ms[|ms| - 1];
      MutationsForShard(ms[..|ms| - 1], shard, from)
      + (if last.commitId.shardId == shard && last.commitId.seqNo > from then [last] else [])
  }

  // mutation_history_compacted
  function HistoryCompacted(s: Source, shard: nat, from: nat): Option<nat> {
    if shard >= |s.compacted| || from >= s.compacted[shard] then None else Some(s.compacted[shard])
  }

  datatype DenyRequest = DenyRequest(
    opId: string, tenantId: string, namespace: string, key: string, action: Action, priority: nat,
    reasonCode: string, expiresAt: nat, createdBy: string, deliveryPriority: DeliveryPriority)

  datatype CommitOutcome = CommitOutcome(mutation: Mutation, duplicate: bool)

  // The key hash is a parameter: nothing below depends on which function it is.
  type KeyHash = (string, string, string) -> nat

  // prepare_commit
  function PrepareCommit(s: Source, hash: KeyHash, req: DenyRequest, now: nat): (r: Result<CommitOutcome>)
    requires s.Shaped()
  {
    if Blank(req.opId) then Err(Parse)
    else if req.opId in s.opIndex then Ok(CommitOutcome(s.opIndex[req.opId], true))
    else
      var keyHash := hash(req.tenantId, req.namespace, req.key);
      var shard := ShardForHash(keyHash, s.shardCount);
      var next := s.watermarks[shard] + 1;
      var entry := DenyEntry(req.tenantId, req.namespace, keyHash, req.action, req.priority,
                             req.reasonCode, req.expiresAt, req.createdBy, next, shard);
      Ok(CommitOutcome(
           Mutation(req.opId, CommitId(shard, next, s.epoch, s.region), entry, None, req.deliveryPriority, now),
           false))
  }

  // lookup
  function Lookup(s: Source, hash: KeyHash, tenant: string, namespace: string, rawKey: string, now: nat): Decision {
    DecisionForEntry(Get(s.entries, AclKey(tenant, namespace, hash(tenant, namespace, rawKey))), now)
  }

  /** A committed request is what lookups of its key return from then on, and what no other lookup
      notices: the key denies with the request's reason and priority under the sequence number taken,
      unless the request does not deny or has expired. */
  lemma CommitThenLookup(s: Source, hash: KeyHash, req: DenyRequest, now: nat,
                         tenant: string, namespace: string, rawKey: string, later: nat)
    requires s.Shaped() && PrepareCommit(s, hash, req, now).Ok? && !PrepareCommit(s, hash, req, now).value.duplicate
    ensures var m := PrepareCommit(s, hash, req, now).value.mutation;
      var r := ApplyReplicated(s, m);
      var key := hash(req.tenantId, req.namespace, req.key);
      && r.Ok? && r.value.1 == Applied
      && Lookup(r.value.0, hash, tenant, namespace, rawKey, later) ==
           if (tenant, namespace, hash(tenant, namespace, rawKey)) != (req.tenantId, req.namespace, key)
           then Lookup(s, hash, tenant, namespace, rawKey, later)
           else if req.action == Deny && (req.expiresAt == 0 || later < req.expiresAt)
           then Denied(req.reasonCode, req.priority,
                       CommitId(key % s.shardCount, s.watermarks[key % s.shardCount] + 1, 1, ""))
           else Allow
  {
    var m := PrepareCommit(s, hash, req, now).value.mutation;
    assert m.entry.Key() == AclKey(req.tenantId, req.namespace, hash(req.tenantId, req.namespace, req.key));
  }
}
