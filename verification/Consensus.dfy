/** The fenced-leader election of globacl-commitd: ConsensusState and the transitions that
    crates/globacl-commitd/src/app/consensus.rs, commit.rs and config.rs make on it. Timers are
    left to the caller; everything else about a transition is here. The functions say what a
    transition does; the class below updates the fields in place, and persists them, as the
    source does. */
module Consensus {
  import opened Domain
  import Text

  type NodeId = string

  datatype Role = Follower | Candidate | Leader

  datatype ConsensusState = ConsensusState(
    term: nat,
    votedFor: Option<NodeId>,
    role: Role,
    leaderId: Option<NodeId>)

  // what persist_consensus_state writes
  datatype Persisted = Persisted(term: nat, votedFor: Option<NodeId>)

  function Persist(c: ConsensusState): Persisted {
    Persisted(c.term, c.votedFor)
  }

  // load_consensus_state in a cluster of more than one node
  function Reload(disk: Persisted, initialLeader: Option<NodeId>): ConsensusState {
    ConsensusState(if disk.term == 0 then 1 else disk.term, disk.votedFor, Follower, initialLeader)
  }

  // load_consensus_state of a node without peers
  function ReloadAlone(disk: Persisted, self: NodeId): ConsensusState {
    ConsensusState(if disk.term == 0 then 1 else disk.term, disk.votedFor, Leader, Some(self))
  }

  // local_log_status: last_seq, log_len and the watermarks, pending mutations included
  datatype LogStatus = LogStatus(lastSeq: nat, logLen: nat, watermarks: seq<nat>)

  datatype VoteRequest = VoteRequest(
    candidate: NodeId, term: nat, lastSeq: nat, logLen: nat, watermarks: Option<seq<nat>>)

  predicate UpToDate(req: VoteRequest, local: LogStatus) {
    match req.watermarks
    case Some(ws) =>
      |ws| == |local.watermarks| && forall i :: 0 <= i < |ws| ==> ws[i] >= local.watermarks[i]
    case None =>
      req.lastSeq > local.lastSeq || (req.lastSeq == local.lastSeq && req.logLen >= local.logLen)
  }

  // start_election, up to the first vote request
  function BeginElection(c: ConsensusState, self: NodeId): ConsensusState {
    ConsensusState(c.term + 1, Some(self), Candidate, None)
  }

  // start_election, once the votes are in
  function ConcludeElection(c: ConsensusState, self: NodeId, term: nat): ConsensusState {
    if c.term == term && c.role == Candidate then c.(role := Leader, leaderId := Some(self)) else c
  }

  // handle_request_vote
  function OnVoteRequest(c: ConsensusState, req: VoteRequest, local: LogStatus): (ConsensusState, bool) {
    var seen := if req.term > c.term then ConsensusState(req.term, None, Follower, None) else c;
    var canVote :=
      && req.term == seen.term
      && UpToDate(req, local)
      && (seen.leaderId == None || seen.leaderId == Some(req.candidate))
      && (seen.votedFor == None || seen.votedFor == Some(req.candidate));
    if canVote then (ConsensusState(seen.term, Some(req.candidate), Follower, None), true)
    else (seen, false)
  }

  // handle_heartbeat
  function OnHeartbeat(c: ConsensusState, term: nat, leader: NodeId): (ConsensusState, bool) {
    var conflicting := term == c.term && c.leaderId.Some? && c.leaderId.value != leader;
    if term > c.term || (term == c.term && !conflicting) then
      (ConsensusState(term, if term > c.term then None else c.votedFor, Follower, Some(leader)), true)
    else (c, false)
  }

  // step_down_to_term
  function StepDown(c: ConsensusState, term: nat, leader: Option<NodeId>): ConsensusState {
    if term > c.term then ConsensusState(term, None, Follower, leader)
    else c.(role := Follower, leaderId := leader)
  }

  // ensure_replication_leader
  function OnReplication(c: ConsensusState, epoch: nat, leader: NodeId): Result<ConsensusState> {
    if epoch < c.term then Err(InvalidData)
    else if epoch == c.term && c.leaderId.Some? && c.leaderId.value != leader then Err(InvalidData)
    else Ok(ConsensusState(epoch, if epoch > c.term then None else c.votedFor, Follower, Some(leader)))
  }

  // ensure_mutation_term
  function OnMutationTerm(c: ConsensusState, epoch: nat): Result<ConsensusState> {
    if epoch < c.term then Err(InvalidData)
    else if epoch > c.term then Ok(ConsensusState(epoch, None, Follower, None))
    else Ok(c)
  }

  /** The second epoch check of the prepare and commit handlers never fires: the first one
      has already brought the term to the mutation's epoch. */
  lemma MutationTermAfterReplication(c: ConsensusState, epoch: nat, leader: NodeId)
    requires OnReplication(c, epoch, leader).Ok?
    ensures OnMutationTerm(OnReplication(c, epoch, leader).value, epoch) == OnReplication(c, epoch, leader)
  {
  }

  datatype VoteReply = VoteReply(term: nat, granted: bool)

  datatype Tally = StoodDown(term: nat) | Counted(votes: nat)

  /** What the vote-counting loop of start_election makes of the replies, in the order the
      peers are asked; None is a peer that failed to answer. */
  function TallyVotes(term: nat, replies: seq<Option<VoteReply>>): Tally {
    if replies == [] then Counted(1)
    else
      var last := replies[|replies| - 1];
      match TallyVotes(term, replies[..|replies| - 1])
      case StoodDown(t) => StoodDown(t)
      case Counted(v) =>
        if last.None? then Counted(v)
        else if last.value.term > term then StoodDown(last.value.term)
        else Counted(v + if last.value.granted then 1 else 0)
  }

  // the vote-counting loop of start_election
  method CountVotes(term: nat, replies: seq<Option<VoteReply>>) returns (tally: Tally)
    ensures tally == TallyVotes(term, replies)
  {
    var votes := 1;
    for i := 0 to |replies|
      invariant TallyVotes(term, replies[..i]) == Counted(votes)
    {
      assert replies[..i + 1][..i] == replies[..i];
      if replies[i].Some? {
        if replies[i].value.term > term {
          StoodDownStays(term, replies, i + 1);
          return StoodDown(replies[i].value.term);
        }
        if replies[i].value.granted {
          votes := votes + 1;
        }
      }
    }
    assert replies[..|replies|] == replies;
    return Counted(votes);
  }

  lemma {:induction false} StoodDownStays(term: nat, replies: seq<Option<VoteReply>>, i: nat)
    requires i <= |replies| && TallyVotes(term, replies[..i]).StoodDown?
    ensures TallyVotes(term, replies) == TallyVotes(term, replies[..i])
    decreases |replies| - i
  {
    if i == |replies| {
      assert replies[..i] == replies;
    } else {
      assert replies[..i + 1][..i] == replies[..i];
      StoodDownStays(term, replies, i + 1);
    }
  }

  // the peers, by position, that granted their vote
  function Grants(replies: seq<Option<VoteReply>>): set<nat> {
    set i: nat | i < |replies| && replies[i].Some? && replies[i].value.granted
  }

  /** An election that is not abandoned counts this node and every peer that granted, once each. */
  lemma {:induction false} TallyCountsGrants(term: nat, replies: seq<Option<VoteReply>>)
    requires TallyVotes(term, replies).Counted?
    ensures TallyVotes(term, replies).votes == 1 + |Grants(replies)|
  {
    if replies == [] {
      assert Grants(replies) == {};
    } else {
      var n := |replies| - 1;
      TallyCountsGrants(term, replies[..n]);
      if replies[n].Some? && replies[n].value.granted {
        assert Grants(replies) == Grants(replies[..n]) + {n};
      } else {
        assert Grants(replies) == Grants(replies[..n]);
      }
    }
  }

  // the ack-counting loop of post_to_remote_peers_until_quorum; true is HTTP status 200
  method CountPrepared(quorum: nat, answers: seq<bool>) returns (replicated: nat)
    ensures replicated >= quorum <==>
      1 + |set i: nat | i < |answers| && answers[i]| >= quorum
    ensures replicated <= 1 + |set i: nat | i < |answers| && answers[i]|
  {
    replicated := 1;
    var i := 0;
    ghost var all := set k: nat | k < |answers| && answers[k];
    ghost var seen: set<nat> := {};
    while i < |answers| && replicated < quorum
      invariant i <= |answers|
      invariant seen == set k: nat | k < i && answers[k]
      invariant replicated == 1 + |seen|
    {
      if answers[i] {
        replicated := replicated + 1;
        seen := seen + {i};
      }
      i := i + 1;
    }
    assert seen <= all;
    SubsetSize(seen, all);
    if i == |answers| {
      assert seen == all;
    }
  }

  lemma SubsetSize<T>(a: set<T>, b: set<T>)
    requires a <= b
    ensures |a| <= |b|
  {
    assert b == a + (b - a);
    assert |b| == |a| + |b - a|;
  }

  /** One commitd's consensus record, updated in place and persisted before a handler answers. */
  class ConsensusNode {
    const self: NodeId
    const peers: set<NodeId>   // the configured nodes, this one among them
    var currentTerm: nat
    var votedFor: Option<NodeId>
    var role: Role
    var leaderId: Option<NodeId>
    var disk: Persisted

    ghost function Value(): ConsensusState
      reads this
    {
      ConsensusState(currentTerm, votedFor, role, leaderId)
    }

    ghost predicate Durable()
      reads this
    {
      disk == Persist(Value())
    }

    constructor (self: NodeId, peers: set<NodeId>, disk: Persisted, initialLeader: Option<NodeId>)
      ensures this.self == self && this.peers == peers && this.disk == disk
      ensures Value() == if |peers| == 1 then ReloadAlone(disk, self) else Reload(disk, initialLeader)
    {
      this.self, this.peers := self, peers;
      this.disk := disk;
      currentTerm := if disk.term == 0 then 1 else disk.term;
      votedFor := disk.votedFor;
      role := if |peers| == 1 then Leader else Follower;
      leaderId := if |peers| == 1 then Some(self) else initialLeader;
    }

    method PersistState()
      modifies this`disk
      ensures Durable()
    {
      disk := Persisted(currentTerm, votedFor);
    }

    method StartElection() returns (term: nat)
      modifies this
      ensures Value() == BeginElection(old(Value()), self) && Durable()
      ensures term == currentTerm == old(currentTerm) + 1
    {
      currentTerm := currentTerm + 1;
      votedFor := Some(self);
      role := Candidate;
      leaderId := None;
      PersistState();
      return currentTerm;
    }

    method FinishElection(term: nat, replies: seq<Option<VoteReply>>, quorum: nat)
      requires Durable()
      modifies this
      ensures Durable()
      ensures Value() ==
        match TallyVotes(term, replies)
        case StoodDown(t) => StepDown(old(Value()), t, None)
        case Counted(v) => if v >= quorum then ConcludeElection(old(Value()), self, term) else old(Value())
    {
      var tally := CountVotes(term, replies);
      match tally
      case StoodDown(t) => StepDownToTerm(t, None);
      case Counted(votes) =>
        if votes >= quorum && currentTerm == term && role == Candidate {
          role := Leader;
          leaderId := Some(self);
          PersistState();
        }
    }

    method HandleRequestVote(req: VoteRequest, local: LogStatus) returns (term: nat, granted: bool)
      requires Durable()
      modifies this
      ensures Durable()
      ensures (Value(), granted) == OnVoteRequest(old(Value()), req, local)
      ensures granted <==>
        && req.term >= old(currentTerm) && UpToDate(req, local)
        && (|| req.term > old(currentTerm)
            || (old(leaderId) in [None, Some(req.candidate)] && old(votedFor) in [None, Some(req.candidate)]))
      ensures granted ==> currentTerm == req.term && votedFor == Some(req.candidate) && role == Follower
      ensures term == currentTerm
    {
      if req.term > currentTerm {
        currentTerm := req.term;
        votedFor := None;
        role := Follower;
        leaderId := None;
      }
      granted := req.term == currentTerm && UpToDate(req, local)
        && (leaderId == None || leaderId == Some(req.candidate))
        && (votedFor == None || votedFor == Some(req.candidate));
      if granted {
        votedFor := Some(req.candidate);
        role := Follower;
        leaderId := None;
        PersistState();
      } else if req.term >= currentTerm {
        PersistState();
      }
      return currentTerm, granted;
    }

    method HandleHeartbeat(leaderTerm: nat, leader: NodeId) returns (accepted: bool)
      requires Durable()
      modifies this
      ensures Durable()
      ensures (Value(), accepted) == OnHeartbeat(old(Value()), leaderTerm, leader)
    {
      var higher := leaderTerm > currentTerm;
      var same := leaderTerm == currentTerm;
      var conflicting := same && leaderId.Some? && leaderId.value != leader;
      accepted := higher || (same && !conflicting);
      if accepted {
        currentTerm := leaderTerm;
        if higher {
          votedFor := None;
        }
        role := Follower;
        leaderId := Some(leader);
        PersistState();
      }
    }

    method StepDownToTerm(term: nat, leader: Option<NodeId>)
      modifies this
      ensures Durable() && Value() == StepDown(old(Value()), term, leader)
    {
      if term > currentTerm {
        currentTerm := term;
        votedFor := None;
      }
      role := Follower;
      leaderId := leader;
      PersistState();
    }

    method EnsureReplicationLeader(epoch: nat, header: string) returns (ok: bool)
      requires Durable()
      modifies this
      ensures Durable()
      ensures var leader := Text.Trim(header);
        && ok == (leader != "" && leader != self && leader in peers && OnReplication(old(Value()), epoch, leader).Ok?)
        && Value() == if ok then OnReplication(old(Value()), epoch, leader).value else old(Value())
    {
      var leader := Text.Trim(header);
      if leader == "" || leader == self || leader !in peers {
        return false;
      }
      if epoch < currentTerm {
        return false;
      }
      if epoch == currentTerm && leaderId.Some? && leaderId.value != leader {
        return false;
      }
      if epoch > currentTerm {
        currentTerm := epoch;
        votedFor := None;
      }
      role := Follower;
      leaderId := Some(leader);
      PersistState();
      return true;
    }

    method EnsureMutationTerm(epoch: nat) returns (ok: bool)
      requires Durable()
      modifies this
      ensures Durable()
      ensures ok == OnMutationTerm(old(Value()), epoch).Ok?
      ensures Value() == if ok then OnMutationTerm(old(Value()), epoch).value else old(Value())
    {
      if epoch < currentTerm {
        return false;
      }
      if epoch > currentTerm {
        currentTerm := epoch;
        votedFor := None;
        role := Follower;
        leaderId := None;
        PersistState();
      }
      return true;
    }
  }
}
