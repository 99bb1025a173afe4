/** What the remaining steps of a node do: heartbeats, steps down, giving up, compacting and restarting
    (crates/globacl-commitd/src/app/consensus.rs and commit.rs). */
module NodeSteps {
  import opened Domain
  import opened Consensus
  import opened PendingStore
  import opened SourceSpec
  import opened Cluster
  import opened VoteAnswers

  // what a node holds beside its consensus record
  predicate SameRest(x: Node, y: Node) {
    y == x.(c := y.c, disk := y.disk)
  }

  /** A leader's heartbeat names it and its term and changes nothing. A heartbeat is answered with the term
      after it, which is at least its own; it is followed, and remembered on disk, exactly if its term is newer,
      or the same with no other leader known. */
  lemma BeatAnswered(cfg: Config, x: Node, rpc: nat, n: NodeId, leader: NodeId, term: nat)
    requires x.store.Shaped()
    ensures LocallyEnabled(cfg, x, SendBeat(n)) ==> EffectOf(cfg, x, rpc, SendBeat(n)) == Sending(x, Beat(n, x.c.term))
    ensures LocallyEnabled(cfg, x, TakeBeat(n, leader, term)) ==>
      var e := EffectOf(cfg, x, rpc, TakeBeat(n, leader, term)); var y := e.node;
      && SameRest(x, y) && y.disk == Persist(y.c) && y.c.term >= term
      && e == Sending(y, BeatReply(leader, term, y.c.term))
      && (if term > x.c.term || (term == x.c.term && FreeFor(x.c.leaderId, leader)) then
            y.c == ConsensusState(term, if term > x.c.term then None else x.c.votedFor, Follower, Some(leader))
          else y.c == x.c)
  {
  }

  /** A leader that hears of a newer term, from a heartbeat's answer or a voter, follows nobody in it; a
      leader whose recovery failed follows nobody in its own, with its vote. */
  lemma LeaderStepsDown(cfg: Config, x: Node, rpc: nat, n: NodeId, reqTerm: nat, term: nat)
    requires x.store.Shaped()
    ensures LocallyEnabled(cfg, x, TakeBeatReply(n, reqTerm, term)) ==>
      var e := EffectOf(cfg, x, rpc, TakeBeatReply(n, reqTerm, term)); var y := e.node;
      && e == Quiet(y) && SameRest(x, y) && y.disk == Persist(y.c)
      && y.c == ConsensusState(if term > x.c.term then term else x.c.term, if term > x.c.term then None else x.c.votedFor,
                               Follower, None)
    ensures LocallyEnabled(cfg, x, FailRecovery(n)) ==>
      var e := EffectOf(cfg, x, rpc, FailRecovery(n)); var y := e.node;
      && e == Quiet(y) && SameRest(x, y) && y.disk == Persist(y.c)
      && y.c == x.c.(role := Follower, leaderId := None)
  {
  }

  /** A voter that answers with a newer term ends the candidacy in that term. */
  lemma NewerVoterEndsElection(cfg: Config, x: Node, rpc: nat, n: NodeId, voter: NodeId, reply: VoteReply)
    requires x.store.Shaped() && LocallyEnabled(cfg, x, CollectVote(n, voter, reply)) && reply.term > x.election.value.term
    ensures var y := EffectOf(cfg, x, rpc, CollectVote(n, voter, reply)).node;
      && y.election == None && y.c.role == Follower && y.c.term >= reply.term && y.c.leaderId == None
      && y.disk == Persist(y.c) && y.store == x.store && y.pending == x.pending && y.inflight == x.inflight
  {
  }

  /** A commit that does not get its quorum, or whose leader has lost its term, is aborted: nothing was applied
      and the peers are told. */
  lemma GivenUpIsAborted(cfg: Config, x: Node, rpc: nat, n: NodeId)
    requires x.store.Shaped() && LocallyEnabled(cfg, x, GiveUpCommit(n))
    ensures var e := EffectOf(cfg, x, rpc, GiveUpCommit(n));
      && e.node == x.(inflight := None) && e.sent == Some(Abort(n, x.inflight.value.m))
      && e.applied == None && !e.visible && e.vote == None && !e.win
  {
  }

  /** A follower serves only what it holds, and a restart keeps what was durable: the term, the vote, the
      tables and the pending files; candidacies and commits under way are forgotten. */
  lemma RestartKeepsDurable(cfg: Config, x: Node, rpc: nat, n: NodeId, initialLeader: Option<NodeId>, history: seq<Mutation>)
    requires x.store.Shaped() && x.disk == Persist(x.c) && x.c.term >= 1
    requires LocallyEnabled(cfg, x, Restart(n, initialLeader, history))
    ensures var e := EffectOf(cfg, x, rpc, Restart(n, initialLeader, history)); var y := e.node;
      && e == Quiet(y) && y.c == ConsensusState(x.c.term, x.c.votedFor, Follower, initialLeader) && y.disk == x.disk
      && y.pending == x.pending && y.store.entries == x.store.entries && y.store.rules == x.store.rules
      && y.store.watermarks == x.store.watermarks && y.store.opIndex == x.store.opIndex
      && y.election == None && y.inflight == None && y.accepted == x.accepted
  {
  }

  /** What a peer asks for is served as it is held; a follower takes a leader's snapshot for its store; a
      compaction only shortens the history; a candidacy whose replies cannot be read is dropped. None of them
      touches the consensus record, and none applies anything. */
  lemma StoreSteps(cfg: Config, x: Node, rpc: nat, n: NodeId, m: Mutation, from: NodeId, snapshot: Source, history: seq<Mutation>)
    requires x.store.Shaped()
    ensures LocallyEnabled(cfg, x, Serve(n, m)) ==>
      m in x.store.history && EffectOf(cfg, x, rpc, Serve(n, m)) == Sending(x, Served(n, m))
    ensures EffectOf(cfg, x, rpc, ServeOpIds(n)) == Sending(x, OpIds(n, x.store.opIndex))
    ensures LocallyEnabled(cfg, x, InstallSnapshot(n, from, snapshot)) ==>
      EffectOf(cfg, x, rpc, InstallSnapshot(n, from, snapshot)) == Quiet(x.(store := snapshot))
    ensures LocallyEnabled(cfg, x, Compact(n, history)) ==>
      EffectOf(cfg, x, rpc, Compact(n, history)) == Quiet(x.(store := x.store.(history := history)))
      && forall k :: k in history ==> k in x.store.history
    ensures LocallyEnabled(cfg, x, DropElection(n)) ==>
      EffectOf(cfg, x, rpc, DropElection(n)) == Quiet(x.(election := None))
  {
  }
}
