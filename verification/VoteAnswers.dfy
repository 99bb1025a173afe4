/** What a node answers to votes and heartbeats, as conditions on its state before the message: a vote
    that may be granted is granted, and an election with enough votes is won (handle_request_vote,
    handle_heartbeat and start_election in crates/globacl-commitd/src/app/consensus.rs). */
module VoteAnswers {
  import opened Domain
  import opened Consensus
  import opened PendingStore

  // nobody is recorded but `other`
  predicate FreeFor(held: Option<NodeId>, other: NodeId) {
    held.Some? ==> held.value == other
  }

  /** What local_log_status reports: the largest number of each shard, applied or pending. */
  function StatusOf(watermarks: seq<nat>, logLen: nat, pending: seq<Mutation>, clusterId: string): LogStatus {
    var raised := RaiseAll(LogStatus(0, logLen, watermarks), pending, clusterId);
    raised.(lastSeq := MaxOf(raised.watermarks))
  }

  /** A candidate is up to date exactly when it reports every shard and, of each, has at least what the
      voter has applied and what the voter has prepared. */
  lemma UpToDateIff(req: VoteRequest, watermarks: seq<nat>, logLen: nat, pending: seq<Mutation>, clusterId: string)
    requires req.watermarks.Some?
    ensures UpToDate(req, StatusOf(watermarks, logLen, pending, clusterId)) <==>
      && |req.watermarks.value| == |watermarks|
      && forall s :: 0 <= s < |watermarks| ==>
           && watermarks[s] <= req.watermarks.value[s]
           && forall i :: 0 <= i < |pending| && Counts(pending[i], s, clusterId) ==>
                pending[i].commitId.seqNo <= req.watermarks.value[s]
  {
    var start := LogStatus(0, logLen, watermarks);
    RaisedShards(start, pending, clusterId);
    forall s | 0 <= s < |watermarks|
      ensures var r := RaiseAll(start, pending, clusterId).watermarks[s];
        && r >= watermarks[s]
        && (forall i :: 0 <= i < |pending| && Counts(pending[i], s, clusterId) ==> pending[i].commitId.seqNo <= r)
        && (r == watermarks[s] || exists i :: 0 <= i < |pending| && Counts(pending[i], s, clusterId)
                                              && pending[i].commitId.seqNo == r)
    {
      RaisedIsMaximum(start, pending, clusterId, s);
    }
    hide RaiseAll;
  }

  // what a candidate that reports no watermarks is compared with
  predicate NoneAbove(ws: seq<nat>, top: nat) {
    forall s :: 0 <= s < |ws| ==> ws[s] <= top
  }

  predicate SomeAt(ws: seq<nat>, top: nat) {
    top == 0 || exists s :: 0 <= s < |ws| && ws[s] == top
  }

  /** A candidate that reports only its last number and its log length is up to date exactly when the voter
      has no number above that one and, if it has that one itself, no longer log, prepared mutations included. */
  lemma OldCandidateUpToDateIff(req: VoteRequest, watermarks: seq<nat>, logLen: nat, pending: seq<Mutation>, clusterId: string)
    requires req.watermarks.None? && Ascending(pending)
    ensures var start := LogStatus(0, logLen, watermarks); var ws := RaiseAll(start, pending, clusterId).watermarks;
      UpToDate(req, StatusOf(watermarks, logLen, pending, clusterId)) <==>
        && NoneAbove(ws, req.lastSeq)
        && (SomeAt(ws, req.lastSeq) ==> req.logLen >= logLen + |AheadOf(start, pending, clusterId)|)
  {
    RaisedCountsAhead(LogStatus(0, logLen, watermarks), pending, clusterId);
    hide RaiseAll, AheadOf;
  }

  /** A vote is granted exactly when the request is not of an older term, the candidate is up to date, and
      the term is newer or neither another leader nor another vote is known in it; the voter is then in
      that term with its vote cast for the candidate. A refusal only takes over a newer term. */
  lemma VoteGrantedIff(c: ConsensusState, req: VoteRequest, local: LogStatus)
    ensures var (d, granted) := OnVoteRequest(c, req, local);
      && (granted <==>
            && req.term >= c.term && UpToDate(req, local)
            && (req.term > c.term || (FreeFor(c.leaderId, req.candidate) && FreeFor(c.votedFor, req.candidate))))
      && d.term == (if req.term > c.term then req.term else c.term)
      && (granted ==> d.votedFor == Some(req.candidate) && d.role == Follower && d.leaderId == None)
      && (!granted ==> d == if req.term > c.term then ConsensusState(req.term, None, Follower, None) else c)
  {
  }

  /** The first request of a newer term from an up-to-date candidate is granted, whomever the voter
      followed or voted for before. */
  lemma NewerTermGetsVote(c: ConsensusState, req: VoteRequest, watermarks: seq<nat>, logLen: nat,
                          pending: seq<Mutation>, clusterId: string)
    requires req.term > c.term && req.watermarks.Some? && |req.watermarks.value| == |watermarks|
    requires forall s :: 0 <= s < |watermarks| ==> watermarks[s] <= req.watermarks.value[s]
    requires forall i, s :: 0 <= i < |pending| && 0 <= s < |watermarks| && Counts(pending[i], s, clusterId) ==>
      pending[i].commitId.seqNo <= req.watermarks.value[s]
    ensures OnVoteRequest(c, req, StatusOf(watermarks, logLen, pending, clusterId))
      == (ConsensusState(req.term, Some(req.candidate), Follower, None), true)
  {
    UpToDateIff(req, watermarks, logLen, pending, clusterId);
    hide StatusOf;
  }

  /** A heartbeat is followed exactly when it is of a newer term, or of this one with no other leader known;
      the node is then a follower of that leader in that term, and its vote stays within the term. */
  lemma HeartbeatAcceptedIff(c: ConsensusState, term: nat, leader: NodeId)
    ensures var (d, accepted) := OnHeartbeat(c, term, leader);
      && (accepted <==> term > c.term || (term == c.term && FreeFor(c.leaderId, leader)))
      && (accepted ==> d.term == term && d.role == Follower && d.leaderId == Some(leader)
                       && (term == c.term ==> d.votedFor == c.votedFor))
      && (!accepted ==> d == c)
  {
  }

  /** A replication leader is followed under the very condition of a heartbeat, and to the same effect. */
  lemma ReplicationIsHeartbeat(c: ConsensusState, epoch: nat, leader: NodeId)
    ensures OnReplication(c, epoch, leader) ==
      if OnHeartbeat(c, epoch, leader).1 then Ok(OnHeartbeat(c, epoch, leader).0) else Err(InvalidData)
  {
  }

  /** A candidate still in its term that was granted a vote by `quorum - 1` peers, none of them in a newer
      term, becomes the leader; one with fewer does not. */
  lemma ElectionWonIff(c: ConsensusState, self: NodeId, replies: seq<Option<VoteReply>>, quorum: nat)
    requires forall i :: 0 <= i < |replies| && replies[i].Some? ==> replies[i].value.term <= c.term + 1
    ensures var begun := BeginElection(c, self);
      && begun.term == c.term + 1 && begun.votedFor == Some(self) && begun.role == Candidate
      && TallyVotes(begun.term, replies).Counted?
      && (TallyVotes(begun.term, replies).votes >= quorum <==> 1 + |Grants(replies)| >= quorum)
      && ConcludeElection(begun, self, begun.term) == ConsensusState(c.term + 1, Some(self), Leader, Some(self))
  {
    NoneNewer(c.term + 1, replies);
    TallyCountsGrants(c.term + 1, replies);
  }

  lemma {:induction false} NoneNewer(term: nat, replies: seq<Option<VoteReply>>)
    requires forall i :: 0 <= i < |replies| && replies[i].Some? ==> replies[i].value.term <= term
    ensures TallyVotes(term, replies).Counted?
  {
    if replies != [] {
      NoneNewer(term, replies[..|replies| - 1]);
    }
  }

  /** Stepping down ends a candidacy or a leadership, never lowers the term, and keeps the vote within it. */
  lemma StepDownOutcome(c: ConsensusState, term: nat, leader: Option<NodeId>)
    ensures var d := StepDown(c, term, leader);
      && d.role == Follower && d.leaderId == leader
      && d.term == (if term > c.term then term else c.term)
      && d.votedFor == if term > c.term then None else c.votedFor
  {
  }

  /** A mutation's epoch is refused exactly if it is older; a newer one becomes the term of a follower that has
      neither voted nor a leader. */
  lemma MutationTermIff(c: ConsensusState, epoch: nat)
    ensures var r := OnMutationTerm(c, epoch);
      && (r.Ok? <==> epoch >= c.term)
      && (epoch == c.term ==> r == Ok(c))
      && (epoch > c.term ==> r == Ok(ConsensusState(epoch, None, Follower, None)))
  {
  }

  /** A restart remembers the term and the vote that were persisted, and no role; the term is at least 1. A
      node without peers leads at once. */
  lemma RestartRemembers(c: ConsensusState, self: NodeId, initialLeader: Option<NodeId>)
    ensures var d, alone := Reload(Persist(c), initialLeader), ReloadAlone(Persist(c), self);
      && d.term == alone.term == (if c.term == 0 then 1 else c.term)
      && d.votedFor == alone.votedFor == c.votedFor
      && d.role == Follower && d.leaderId == initialLeader
      && alone.role == Leader && alone.leaderId == Some(self)
  {
  }
}
