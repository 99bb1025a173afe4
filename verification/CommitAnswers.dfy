/** What the replication handlers answer, as conditions on the node before the message: a prepare that may
    be answered is, and a commit message of a prepared mutation is applied
    (crates/globacl-commitd/src/app/commit.rs). */
module CommitAnswers {
  import opened Domain
  import opened Consensus
  import opened PendingStore
  import opened SourceSpec
  import opened Cluster
  import opened VoteAnswers

  // the next mutation of an existing shard
  predicate IsNext(s: Source, m: Mutation)
    requires s.Shaped()
  {
    m.commitId.shardId < s.shardCount && m.commitId.seqNo == s.watermarks[m.commitId.shardId] + 1
  }

  // its number is taken
  predicate IsPast(s: Source, m: Mutation)
    requires s.Shaped()
  {
    m.commitId.shardId < s.shardCount && m.commitId.seqNo <= s.watermarks[m.commitId.shardId]
  }

  // it is the mutation that the source knows under its op id, or under its number
  predicate IsKnown(s: Source, m: Mutation)
    requires s.Shaped()
  {
    if m.opId in s.opIndex then s.opIndex[m.opId] == m else IsPast(s, m) && m in s.history
  }

  /** m is of this cluster, and of an epoch whose leader this node may follow. */
  predicate Authorized(cfg: Config, c: ConsensusState, leader: NodeId, m: Mutation) {
    && m.commitId.sourceRegion == cfg.clusterId
    && (m.commitId.epoch > c.term || (m.commitId.epoch == c.term && FreeFor(c.leaderId, leader)))
  }

  // a follower of the leader of m's epoch
  function Following(c: ConsensusState, leader: NodeId, m: Mutation): ConsensusState {
    ConsensusState(m.commitId.epoch, if m.commitId.epoch > c.term then None else c.votedFor, Follower, Some(leader))
  }

  // a file that m may replace, or that is m
  predicate SlotFree(files: Files, m: Mutation) {
    SlotOf(m) in files ==> files[SlotOf(m)] == m || files[SlotOf(m)].commitId.epoch < m.commitId.epoch
  }

  /** A prepare is answered exactly when it is authorized and its number is taken already, or next with a free
      slot; in the second case the slot then holds exactly the mutation that was answered for. Nothing is
      applied, no other slot is touched, and an authorized leader is followed whatever the answer. */
  lemma PrepareAnsweredIff(cfg: Config, x: Node, rpc: nat, n: NodeId, prepare: nat, leader: NodeId, m: Mutation)
    requires x.store.Shaped() && LocallyEnabled(cfg, x, TakePrepare(n, prepare, leader, m))
    ensures var e := EffectOf(cfg, x, rpc, TakePrepare(n, prepare, leader, m));
      && (e.sent == Some(Prepared(prepare, n)) <==>
            Authorized(cfg, x.c, leader, m) && (IsPast(x.store, m) || (IsNext(x.store, m) && SlotFree(x.pending, m))))
      && (e.sent.Some? ==> e.sent == Some(Prepared(prepare, n)))
      && (e.sent.Some? && IsNext(x.store, m) ==> e.node.pending == x.pending[SlotOf(m) := m])
      && (e.sent.None? || IsPast(x.store, m) ==> e.node.pending == x.pending)
      && e.node.store == x.store && e.applied == None
      && e.node.c == if Authorized(cfg, x.c, leader, m) then Following(x.c, leader, m) else x.c
  {
  }

  /** What taking a commit message or a caught-up mutation does: an applied one is in the store as if
      this node had committed it, under its number, and its slot is empty; one that is known already only
      empties its slot; any other leaves both alone. */
  predicate Taken(x: Node, e: Effect, m: Mutation, known: bool)
    requires x.store.Shaped()
  {
    if e.applied.Some? then
      && e.applied == Some(m)
      && ApplyReplicated(x.store, m) == Ok((e.node.store, Applied))
      && e.node.store.watermarks == x.store.watermarks[m.commitId.shardId := m.commitId.seqNo]
      && e.node.pending == x.pending - {SlotOf(m)}
    else
      && e.node.store == x.store
      && e.node.pending == if known then x.pending - {SlotOf(m)} else x.pending
  }

  /** A commit message is applied exactly when it is authorized and the next mutation of an existing shard,
      its op id is unused and the node prepared that very mutation. */
  lemma CommitAppliedIff(cfg: Config, x: Node, rpc: nat, n: NodeId, leader: NodeId, m: Mutation)
    requires x.store.Shaped() && LocallyEnabled(cfg, x, TakeCommit(n, leader, m))
    ensures var e := EffectOf(cfg, x, rpc, TakeCommit(n, leader, m));
      && (e.applied == Some(m) <==>
            && Authorized(cfg, x.c, leader, m) && IsNext(x.store, m) && m.opId !in x.store.opIndex
            && SlotOf(m) in x.pending && x.pending[SlotOf(m)] == m)
      && Taken(x, e, m, Authorized(cfg, x.c, leader, m) && IsKnown(x.store, m)
                        && (Holds(x.pending, m) || Reached(x.store, m)))
      && e.node.c == if Authorized(cfg, x.c, leader, m) then Following(x.c, leader, m) else x.c
  {
    TakesReplicated(cfg, x, leader, m, true);
    hide DoTakeReplicated;
  }

  /** A mutation of the leader's stream is applied under the same conditions, but needs no file. */
  lemma CatchUpAppliedIff(cfg: Config, x: Node, rpc: nat, n: NodeId, leader: NodeId, m: Mutation)
    requires x.store.Shaped() && LocallyEnabled(cfg, x, CatchUp(n, leader, m))
    ensures var e := EffectOf(cfg, x, rpc, CatchUp(n, leader, m));
      && (e.applied == Some(m) <==>
            Authorized(cfg, x.c, leader, m) && IsNext(x.store, m) && m.opId !in x.store.opIndex)
      && Taken(x, e, m, Authorized(cfg, x.c, leader, m) && IsKnown(x.store, m))
      && e.node.c == if Authorized(cfg, x.c, leader, m) then Following(x.c, leader, m) else x.c
  {
    TakesReplicated(cfg, x, leader, m, false);
    hide DoTakeReplicated;
  }

  // the watermark that the handlers compare with: 0 for a shard that does not exist
  predicate Reached(s: Source, m: Mutation)
    requires s.Shaped()
  {
    m.commitId.seqNo <= if m.commitId.shardId < s.shardCount then s.watermarks[m.commitId.shardId] else 0
  }

  lemma TakesReplicated(cfg: Config, x: Node, leader: NodeId, m: Mutation, requirePending: bool)
    requires x.store.Shaped()
    ensures var e := DoTakeReplicated(cfg, x, leader, m, requirePending);
      var allowed := Authorized(cfg, x.c, leader, m) && (requirePending ==> Holds(x.pending, m) || Reached(x.store, m));
      && (e.applied == Some(m) <==> allowed && IsNext(x.store, m) && m.opId !in x.store.opIndex)
      && Taken(x, e, m, allowed && IsKnown(x.store, m))
      && e.node.c == if Authorized(cfg, x.c, leader, m) then Following(x.c, leader, m) else x.c
  {
    ApplyReplicatedApplied(x.store, m);
  }

  /** Two rounds, one mutation: a node that answered the prepare of a next mutation under an unused op id
      applies it when the commit message of the same leader arrives. */
  lemma PreparedThenCommitted(cfg: Config, x: Node, n: NodeId, rpc: nat, later: nat, prepare: nat, leader: NodeId, m: Mutation)
    requires x.store.Shaped() && LocallyEnabled(cfg, x, TakePrepare(n, prepare, leader, m))
    requires EffectOf(cfg, x, rpc, TakePrepare(n, prepare, leader, m)).sent.Some?
    requires IsNext(x.store, m) && m.opId !in x.store.opIndex
    ensures var y := EffectOf(cfg, x, rpc, TakePrepare(n, prepare, leader, m)).node;
      && y.store.Shaped() && LocallyEnabled(cfg, y, TakeCommit(n, leader, m))
      && var e := EffectOf(cfg, y, later, TakeCommit(n, leader, m));
      && e.applied == Some(m) && ApplyReplicated(x.store, m) == Ok((e.node.store, Applied))
      && e.node.pending == x.pending - {SlotOf(m)}
  {
    PrepareAnsweredIff(cfg, x, rpc, n, prepare, leader, m);
    var y := EffectOf(cfg, x, rpc, TakePrepare(n, prepare, leader, m)).node;
    assert y.inflight == x.inflight;
    CommitAppliedIff(cfg, y, later, n, leader, m);
    hide EffectOf;
  }

  /** A commit with its quorum is applied by the leader, made visible and sent to the peers, exactly when its
      mutation is still the next of its shard under an unused op id. */
  lemma FinishedIsVisibleIff(cfg: Config, x: Node, n: NodeId, rpc: nat)
    requires x.store.Shaped() && LocallyEnabled(cfg, x, FinishCommit(n))
    ensures var m := x.inflight.value.m; var e := EffectOf(cfg, x, rpc, FinishCommit(n));
      && (e.applied == Some(m) <==> IsNext(x.store, m) && m.opId !in x.store.opIndex)
      && (e.applied.Some? ==> e.visible)
      && (e.sent == Some(Commit(n, m)) <==> e.applied.Some? || IsKnown(x.store, m))
      && (e.sent.Some? ==> e.sent == Some(Commit(n, m)))
      && Taken(x, e, m, IsKnown(x.store, m)) && e.node.inflight == None && e.node.c == x.c
  {
    ApplyReplicatedApplied(x.store, x.inflight.value.m);
  }

  /** An authorized abort empties the slot and touches nothing else of the store or the directory. */
  lemma AbortEmptiesSlotIff(cfg: Config, x: Node, rpc: nat, n: NodeId, leader: NodeId, m: Mutation)
    requires x.store.Shaped() && LocallyEnabled(cfg, x, TakeAbort(n, leader, m))
    ensures var e := EffectOf(cfg, x, rpc, TakeAbort(n, leader, m));
      && e.node.store == x.store
      && e.node.pending == (if Authorized(cfg, x.c, leader, m) then x.pending - {SlotOf(m)} else x.pending)
      && e.node.c == if Authorized(cfg, x.c, leader, m) then Following(x.c, leader, m) else x.c
  {
  }
}
