/** The records that every part of globacl exchanges (crates/globacl-core/src/lib/domain.rs
    and the Snapshot record of signatures.rs).

    Unsigned machine integers are natural numbers here; the places where a width matters
    (codec lengths, the filter's 64-bit hashes, IPv4 addresses, the i32 year) spell the
    width out where they use it. */
module Domain {

  datatype Option<+T> = None | Some(value: T)

  datatype Error =
    | Io
    | Parse
    | InvalidData
    | Gap(shardId: nat, expectedSeq: nat, receivedSeq: nat)

  datatype Result<+T> = Ok(value: T) | Err(error: Error)
  {
    predicate IsFailure() { Err? }

    function PropagateFailure<U>(): Result<U>
      requires IsFailure()
    {
      Err(error)
    }

    function Extract(): T
      requires !IsFailure()
    {
      value
    }
  }

  datatype Action = Deny | AllowOverride | Delete

  datatype DeliveryPriority = P0 | P1 | P2

  datatype RuleKind = Ipv4Cidr | DomainSuffix

  datatype AclKey = AclKey(tenantId: string, namespace: string, keyHash: nat)

  datatype RuleKey = RuleKey(tenantId: string, kind: RuleKind, ruleHash: nat)

  datatype DenyEntry = DenyEntry(
    tenantId: string,
    namespace: string,
    keyHash: nat,
    action: Action,
    priority: nat,
    reasonCode: string,
    expiresAt: nat,
    createdBy: string,
    commitSeq: nat,
    shardId: nat)
  {
    function Key(): AclKey {
      AclKey(tenantId, namespace, keyHash)
    }

    predicate IsExpired(now: nat) {
      expiresAt != 0 && expiresAt <= now
    }
  }

  datatype RuleEntry = RuleEntry(
    tenantId: string,
    kind: RuleKind,
    pattern: string,
    ruleHash: nat,
    action: Action,
    priority: nat,
    reasonCode: string,
    expiresAt: nat,
    createdBy: string,
    commitSeq: nat,
    shardId: nat,
    ipv4Network: nat,
    ipv4PrefixLen: nat,
    domainSuffix: string)
  {
    function Key(): RuleKey {
      RuleKey(tenantId, kind, ruleHash)
    }

    predicate IsExpired(now: nat) {
      expiresAt != 0 && expiresAt <= now
    }
  }

  datatype CommitId = CommitId(shardId: nat, seqNo: nat, epoch: nat, sourceRegion: string)

  datatype Mutation = Mutation(
    opId: string,
    commitId: CommitId,
    entry: DenyEntry,
    rule: Option<RuleEntry>,
    deliveryPriority: DeliveryPriority,
    committedAt: nat)

  datatype Snapshot = Snapshot(
    shardCount: nat,
    watermarks: seq<nat>,
    entries: seq<DenyEntry>,
    rules: seq<RuleEntry>)
  {
    // Snapshot::validate
    predicate Validates() {
      && |watermarks| == shardCount
      && (forall i :: 0 <= i < |entries| ==> entries[i].shardId < shardCount)
      && (forall i :: 0 <= i < |rules| ==> rules[i].shardId < shardCount)
    }
  }

  datatype Decision =
    | Allow
    | Denied(reasonCode: string, priority: nat, commitId: CommitId)

  datatype ApplyStatus = Applied | DuplicateOrOld

  // shard_for_hash
  function ShardForHash(hash: nat, shardCount: nat): (shard: nat)
    ensures shardCount > 0 ==> shard < shardCount
  {
    hash % (if shardCount == 0 then 1 else shardCount)
  }

  // decision_for_entry
  function DecisionForEntry(entry: Option<DenyEntry>, now: nat): Decision {
    match entry
    case None => Allow
    case Some(e) =>
      if e.IsExpired(now) || e.action != Deny then Allow
      else Denied(e.reasonCode, e.priority, CommitId(e.shardId, e.commitSeq, 1, ""))
  }

  function Get<K, V>(m: map<K, V>, k: K): Option<V> {
    if k in m then Some(m[k]) else None
  }

  /** A table that answers every key the same way is the same table. */
  lemma MapsEqualByGet<K(!new), V>(a: map<K, V>, b: map<K, V>)
    requires forall k :: Get(a, k) == Get(b, k)
    ensures a == b
  {
    forall k
      ensures k in a <==> k in b
      ensures k in a ==> a[k] == b[k]
    {
      assert Get(a, k) == Get(b, k);
    }
  }
}
