/** The commit cluster of globacl-commitd as a state machine: N nodes, a network that may lose,
    delay, reorder and duplicate messages, and restarts that keep only what was persisted. Each
    handler is one atomic step; a leader's commit is several steps, between which the node holds
    its state lock (crates/globacl-commitd/src/app/commit.rs:178-181), so handlers that need that
    lock wait and the others, such as the heartbeat handler, do not. A handler of a replication
    message checks the leader before it takes the lock, so that check may come on its own. */
module Cluster {
  import opened Domain
  import opened Consensus
  import opened PendingStore
  import opened SourceSpec

  datatype Config = Config(nodes: set<NodeId>, quorum: nat, clusterId: string, shardCount: nat)
  {
    // the checks of replication_config, for a cluster of more than one node
    predicate Valid() {
      && |nodes| > 1
      && quorum != 0 && quorum <= |nodes|
      && quorum > |nodes| / 2
      && shardCount > 0
    }
  }

  // the vote loop of start_election while it runs
  datatype Election = Election(term: nat, answered: set<NodeId>, votes: nat)

  // a commit between its prepare requests and its outcome; acks is whom `replicated` has counted
  datatype Inflight = Inflight(rpc: nat, m: Mutation, acks: set<NodeId>)

  datatype Node = Node(
    c: ConsensusState,
    disk: Persisted,
    store: Source,
    pending: Files,
    election: Option<Election>,
    inflight: Option<Inflight>,
    accepted: seq<nat>)            // history: the epochs accepted for prepare or commit, in order

  /** rpc stands for the connection that carries a prepare and its answer, reqTerm for the one
      that carries a vote request and its answer. A message stays in the network for ever, so it
      may be delivered late, twice or not at all. */
  datatype Message =
    | RequestVote(req: VoteRequest)
    | Voted(voter: NodeId, candidate: NodeId, reqTerm: nat, reply: VoteReply)
    | Beat(leader: NodeId, term: nat)
    | BeatReply(leader: NodeId, reqTerm: nat, term: nat)
    | Prepare(rpc: nat, leader: NodeId, m: Mutation)
    | Prepared(rpc: nat, from: NodeId)
    | Commit(leader: NodeId, m: Mutation)
    | Abort(leader: NodeId, m: Mutation)
    | Served(from: NodeId, m: Mutation)
    | OpIds(from: NodeId, index: map<string, Mutation>)

  datatype Vote = Vote(voter: NodeId, term: nat, candidate: NodeId)

  datatype Stamp = Stamp(epoch: nat, shardId: nat, seqNo: nat)

  function StampOf(m: Mutation): Stamp {
    Stamp(m.commitId.epoch, m.commitId.shardId, m.commitId.seqNo)
  }

  datatype Applying = Applying(node: NodeId, m: Mutation)

  datatype Win = Win(term: nat, leader: NodeId)

  /** votes, elected, applied and visible are history: everything that was ever voted, won,
      applied by a node, or applied by a leader as the outcome of its own commit. */
  datatype State = State(
    nodes: map<NodeId, Node>,
    net: set<Message>,
    nextRpc: nat,
    votes: set<Vote>,
    elected: set<Win>,
    applied: set<Applying>,
    visible: map<Stamp, Mutation>)

  predicate Init(cfg: Config, s: State) {
    && s.nodes.Keys == cfg.nodes
    && s.net == {} && s.nextRpc == 0 && s.votes == {} && s.elected == {} && s.applied == {} && s.visible == map[]
    && forall n :: n in cfg.nodes ==> FreshNode(cfg, s.nodes[n])
  }

  predicate FreshNode(cfg: Config, x: Node) {
    && x.c == Reload(Persisted(0, None), x.c.leaderId)
    && x.disk == Persist(x.c)
    && x.store == New(cfg.shardCount, cfg.clusterId)
    && x.pending == map[] && x.election == None && x.inflight == None && x.accepted == []
  }

  datatype Step =
    | Timeout(n: NodeId, status: LogStatus)
    | GrantVote(n: NodeId, req: VoteRequest, status: LogStatus)
    | CollectVote(n: NodeId, voter: NodeId, reply: VoteReply)
    | EndElection(n: NodeId)
    | DropElection(n: NodeId)
    | SendBeat(n: NodeId)
    | TakeBeat(n: NodeId, leader: NodeId, term: nat)
    | TakeBeatReply(n: NodeId, reqTerm: nat, term: nat)
    | FailRecovery(n: NodeId)
    | BeginCommit(n: NodeId, m: Mutation)
    | TakePrepare(n: NodeId, rpc: nat, leader: NodeId, m: Mutation)
    | CollectAck(n: NodeId, peer: NodeId)
    | FinishCommit(n: NodeId)
    | GiveUpCommit(n: NodeId)
    | TakeCommit(n: NodeId, leader: NodeId, m: Mutation)
    | TakeAbort(n: NodeId, leader: NodeId, m: Mutation)
    | CheckLeader(n: NodeId, msg: Message)   // a handler that goes on to wait for the state lock
    | Serve(n: NodeId, m: Mutation)
    | ServeOpIds(n: NodeId)
    | CatchUp(n: NodeId, leader: NodeId, m: Mutation)
    | Compact(n: NodeId, history: seq<Mutation>)
    | InstallSnapshot(n: NodeId, from: NodeId, snapshot: Source)
    | Restart(n: NodeId, initialLeader: Option<NodeId>, history: seq<Mutation>)

  /** What one step does: the acting node's next value, the message it sends, and what the
      histories record. A node acts on its own value and on the message it is given. */
  datatype Effect = Effect(
    node: Node,
    sent: Option<Message>,
    vote: Option<Vote>,
    win: bool,
    applied: Option<Mutation>,
    visible: bool)

  function Quiet(x: Node): Effect {
    Effect(x, None, None, false, None, false)
  }

  function Sending(x: Node, msg: Message): Effect {
    Effect(x, Some(msg), None, false, None, false)
  }

  function WithConsensus(x: Node, c: ConsensusState): Node {
    x.(c := c, disk := Persist(c))
  }

  // apply_prepared_mutation
  function ApplyPrepared(x: Node, m: Mutation): (r: (Node, Result<ApplyStatus>))
    requires x.store.Shaped()
    ensures r.0 == x.(store := r.0.store, pending := r.0.pending)
    ensures r.0.store.Shaped() && r.0.store.shardCount == x.store.shardCount
    ensures r.1 == Ok(Applied) ==>
      && m.commitId.shardId < x.store.shardCount
      && m.commitId.seqNo == x.store.watermarks[m.commitId.shardId] + 1
      && r.0.store.watermarks == x.store.watermarks[m.commitId.shardId := m.commitId.seqNo]
      && r.0.store.history == x.store.history + [m]
      && r.0.store.opIndex == x.store.opIndex[m.opId := m]
    ensures r.1 != Ok(Applied) ==> r.0.store == x.store
    ensures r.1 == Ok(DuplicateOrOld) ==>
      m in x.store.history || (m.opId in x.store.opIndex && x.store.opIndex[m.opId] == m)
  {
    ApplyReplicatedApplied(x.store, m);
    match ApplyReplicated(x.store, m)
    case Err(e) => (x, Err(e))
    case Ok((store, status)) => (x.(store := store, pending := Remove(x.pending, m)), Ok(status))
  }

  // the check that a vote request or heartbeat names another node of the cluster
  predicate IsPeer(cfg: Config, n: NodeId, other: NodeId) {
    other in cfg.nodes && other != n
  }

  predicate SubHistory(ms: seq<Mutation>, all: seq<Mutation>) {
    forall m :: m in ms ==> m in all
  }

  /** How one node's consensus record may move: the term never falls, and within a term a cast
      vote stays. */
  predicate Evolves(c: ConsensusState, d: ConsensusState) {
    d.term >= c.term && (d.term == c.term && c.votedFor.Some? ==> d.votedFor == c.votedFor)
  }

  // the record evolves, and is persisted if it moved
  predicate Evolved(x: Node, y: Node) {
    Evolves(x.c, y.c) && (y.disk == Persist(y.c) || (y.c == x.c && y.disk == x.disk))
  }

  // a step that leaves the store and its histories alone, makes no leader but by a win, and touches
  // no commit in flight
  predicate OnlyConsensus(x: Node, e: Effect) {
    && Evolved(x, e.node)
    && e.node.store == x.store && e.applied == None && !e.visible && e.node.inflight == x.inflight
    && (e.node.c.role == Leader && !e.win ==> x.c.role == Leader && e.node.c.term == x.c.term)
    && (e.sent.Some? ==> e.sent.value.RequestVote? || e.sent.value.Voted?)
  }

  // what a step applies, if anything: the next mutation of a shard
  predicate AppliesAs(x: Node, e: Effect, m: Mutation) {
    if e.applied.Some? then
      && e.applied == Some(m) && m.commitId.shardId < |x.store.watermarks|
      && m.commitId.seqNo == x.store.watermarks[m.commitId.shardId] + 1
      && e.node.store.watermarks == x.store.watermarks[m.commitId.shardId := m.commitId.seqNo]
      && e.node.store.history == x.store.history + [m]
      && e.node.store.opIndex == x.store.opIndex[m.opId := m]
    else e.node.store == x.store && !e.visible
  }

  function DoTimeout(x: Node, n: NodeId, status: LogStatus): (e: Effect)
    ensures OnlyConsensus(x, e)
  {
    var c := BeginElection(x.c, n);
    Sending(WithConsensus(x, c).(election := Some(Election(c.term, {}, 1))),
            RequestVote(VoteRequest(n, c.term, status.lastSeq, status.logLen, Some(status.watermarks))))
      .(vote := Some(Vote(n, c.term, n)))
  }

  function DoGrantVote(x: Node, n: NodeId, req: VoteRequest, status: LogStatus): (e: Effect)
    ensures OnlyConsensus(x, e)
  {
    var (c, granted) := OnVoteRequest(x.c, req, status);
    Sending(WithConsensus(x, c), Voted(n, req.candidate, req.term, VoteReply(c.term, granted)))
      .(vote := if granted then Some(Vote(n, req.term, req.candidate)) else None)
  }

  function DoCollectVote(x: Node, voter: NodeId, reply: VoteReply): (e: Effect)
    requires x.election.Some?
    ensures OnlyConsensus(x, e)
  {
    var e := x.election.value;
    if reply.term > e.term then
      Quiet(WithConsensus(x, StepDown(x.c, reply.term, None)).(election := None))
    else
      Quiet(x.(election :=
        Some(e.(answered := e.answered + {voter}, votes := e.votes + if reply.granted then 1 else 0))))
  }

  function DoEndElection(cfg: Config, x: Node, n: NodeId): (e: Effect)
    requires x.election.Some?
    ensures OnlyConsensus(x, e)
  {
    var e := x.election.value;
    var idle := x.(election := None);
    if e.votes >= cfg.quorum && x.c.term == e.term && x.c.role == Candidate then
      Quiet(WithConsensus(idle, ConcludeElection(x.c, n, e.term))).(win := true)
    else Quiet(idle)
  }

  // prepare_replicated_mutation_from_leader
  function DoTakePrepare(cfg: Config, x: Node, n: NodeId, rpc: nat, leader: NodeId, m: Mutation): (e: Effect)
    requires x.store.Shaped()
    ensures OnlyConsensus(x, e.(sent := None))
    ensures e.sent.Some? ==> e.sent.value == Prepared(rpc, n) && m.commitId.epoch >= x.c.term
  {
    var id := m.commitId;
    if id.sourceRegion != cfg.clusterId then Quiet(x)
    else
      match OnReplication(x.c, id.epoch, leader)
      case Err(_) => Quiet(x)
      case Ok(c) =>
        var fenced := WithConsensus(x, c);
        var taken := fenced.(accepted := x.accepted + [id.epoch]);
        if id.shardId >= x.store.shardCount then Quiet(fenced)
        else if id.seqNo <= x.store.watermarks[id.shardId] then Sending(taken, Prepared(rpc, n))
        else if id.seqNo != x.store.watermarks[id.shardId] + 1 then Quiet(fenced)
        else
          match Write(x.pending, m)
          case Err(_) => Quiet(fenced)
          case Ok(files) => Sending(taken.(pending := files), Prepared(rpc, n))
  }

  // commit_prepared_outcome, from the second authority check on
  function DoFinishCommit(x: Node, n: NodeId): (e: Effect)
    requires x.store.Shaped() && x.inflight.Some?
    ensures Evolved(x, e.node) && e.node.inflight == None && e.node.c == x.c && !e.win
    ensures AppliesAs(x, e, x.inflight.value.m) && (e.applied.Some? ==> e.visible)
    ensures e.node.store.Shaped() && e.node.store.shardCount == x.store.shardCount
    ensures e.sent.Some? ==> e.sent.value == Commit(n, x.inflight.value.m)
  {
    var m := x.inflight.value.m;
    match ApplyPrepared(x.(inflight := None), m)
    case (y, Err(_)) => Quiet(y)
    case (y, Ok(DuplicateOrOld)) => Sending(y, Commit(n, m))
    case (y, Ok(Applied)) =>
      Sending(y.(accepted := x.accepted + [m.commitId.epoch]), Commit(n, m)).(applied := Some(m), visible := true)
  }

  // commit_replicated_mutation_from_leader
  function DoTakeReplicated(cfg: Config, x: Node, leader: NodeId, m: Mutation, requirePending: bool): (e: Effect)
    requires x.store.Shaped()
    ensures Evolved(x, e.node) && e.node.inflight == x.inflight && e.sent == None && !e.win && !e.visible
    ensures AppliesAs(x, e, m) && (e.node.c == x.c || e.node.c.role == Follower)
    ensures e.node.store.Shaped() && e.node.store.shardCount == x.store.shardCount
  {
    var id := m.commitId;
    if id.sourceRegion != cfg.clusterId then Quiet(x)
    else
      match OnReplication(x.c, id.epoch, leader)
      case Err(_) => Quiet(x)
      case Ok(c) =>
        var fenced := WithConsensus(x, c);
        var past := (if id.shardId < x.store.shardCount then x.store.watermarks[id.shardId] else 0) >= id.seqNo;
        if requirePending && !past && !Holds(x.pending, m) then Quiet(fenced)
        else
          match ApplyPrepared(fenced, m)
          case (y, Ok(Applied)) => Quiet(y.(accepted := x.accepted + [id.epoch])).(applied := Some(m))
          case (y, _) => Quiet(y)
  }

  // abort_replicated_mutation_from_leader
  function DoTakeAbort(cfg: Config, x: Node, leader: NodeId, m: Mutation): (e: Effect)
    ensures OnlyConsensus(x, e)
  {
    if m.commitId.sourceRegion != cfg.clusterId then Quiet(x)
    else
      match OnReplication(x.c, m.commitId.epoch, leader)
      case Err(_) => Quiet(x)
      case Ok(c) => Quiet(WithConsensus(x, c).(pending := Remove(x.pending, m)))
  }

  // the leader and the mutation that a replication message names
  function ReplicationOf(msg: Message): Option<(NodeId, Mutation)> {
    match msg
    case Prepare(_, leader, m) => Some((leader, m))
    case Commit(leader, m) => Some((leader, m))
    case Served(from, m) => Some((from, m))
    case _ => None
  }

  // ensure_same_cluster and ensure_replication_leader, which come before the state lock
  function DoCheckLeader(cfg: Config, x: Node, msg: Message): (e: Effect)
    requires ReplicationOf(msg).Some?
    ensures OnlyConsensus(x, e)
  {
    var (leader, m) := ReplicationOf(msg).value;
    if m.commitId.sourceRegion != cfg.clusterId then Quiet(x)
    else
      match OnReplication(x.c, m.commitId.epoch, leader)
      case Err(_) => Quiet(x)
      case Ok(c) => Quiet(WithConsensus(x, c))
  }

  function EffectOf(cfg: Config, x: Node, rpc: nat, step: Step): Effect
    requires x.store.Shaped() && LocallyEnabled(cfg, x, step)
  {
    var n := step.n;
    match step
    case Timeout(_, status) => DoTimeout(x, n, status)
    case GrantVote(_, req, status) => DoGrantVote(x, n, req, status)
    case CollectVote(_, voter, reply) => DoCollectVote(x, voter, reply)
    case EndElection(_) => DoEndElection(cfg, x, n)
    case DropElection(_) => Quiet(x.(election := None))   // a vote reply that cannot be read
    case SendBeat(_) => Sending(x, Beat(n, x.c.term))
    case TakeBeat(_, leader, term) =>
      var c := OnHeartbeat(x.c, term, leader).0;
      Sending(WithConsensus(x, c), BeatReply(leader, term, c.term))
    case TakeBeatReply(_, _, term) => Quiet(WithConsensus(x, StepDown(x.c, term, None)))
    case FailRecovery(_) => Quiet(WithConsensus(x, StepDown(x.c, x.c.term, None)))
    case BeginCommit(_, m) => Sending(x.(inflight := Some(Inflight(rpc, m, {n}))), Prepare(rpc, n, m))
    case TakePrepare(_, prepare, leader, m) => DoTakePrepare(cfg, x, n, prepare, leader, m)
    case CollectAck(_, peer) =>
      Quiet(x.(inflight := Some(x.inflight.value.(acks := x.inflight.value.acks + {peer}))))
    case FinishCommit(_) => DoFinishCommit(x, n)
    case GiveUpCommit(_) => Sending(x.(inflight := None), Abort(n, x.inflight.value.m))
    case TakeCommit(_, leader, m) => DoTakeReplicated(cfg, x, leader, m, true)
    case TakeAbort(_, leader, m) => DoTakeAbort(cfg, x, leader, m)
    case CheckLeader(_, msg) => DoCheckLeader(cfg, x, msg)
    case Serve(_, m) => Sending(x, Served(n, m))
    case ServeOpIds(_) => Sending(x, OpIds(n, x.store.opIndex))
    case CatchUp(_, leader, m) => DoTakeReplicated(cfg, x, leader, m, false)
    case Compact(_, history) => Quiet(x.(store := x.store.(history := history)))
    case InstallSnapshot(_, _, snapshot) => Quiet(x.(store := snapshot))
    case Restart(_, initialLeader, history) =>
      var c := Reload(x.disk, initialLeader);
      Quiet(WithConsensus(x, c).(store := x.store.(history := history), election := None, inflight := None))
  }

  // what a step asks of the acting node
  predicate LocallyEnabled(cfg: Config, x: Node, step: Step)
    requires x.store.Shaped()
  {
    var n := step.n;
    match step
    case Timeout(_, _) => x.election.None? && x.c.role != Leader
    case GrantVote(_, req, _) => IsPeer(cfg, n, req.candidate)
    case CollectVote(_, voter, _) =>
      x.election.Some? && voter !in x.election.value.answered && IsPeer(cfg, n, voter)
    case EndElection(_) => x.election.Some?
    case DropElection(_) => x.election.Some?
    case SendBeat(_) => x.c.role == Leader
    case TakeBeat(_, leader, _) => IsPeer(cfg, n, leader)
    case TakeBeatReply(_, reqTerm, term) => term > reqTerm
    case FailRecovery(_) => true   // of an election in this term or an earlier one
    case BeginCommit(_, m) => x.inflight.None? && x.c.role == Leader && Proposable(cfg, x.c.term, x.store, m)
    case TakePrepare(_, _, leader, _) => x.inflight.None? && IsPeer(cfg, n, leader)
    case CollectAck(_, peer) => x.inflight.Some? && IsPeer(cfg, n, peer)
    case FinishCommit(_) =>
      && x.inflight.Some? && |x.inflight.value.acks| >= cfg.quorum
      && x.c.role == Leader && x.c.term == x.inflight.value.m.commitId.epoch
    case GiveUpCommit(_) => x.inflight.Some?
    case TakeCommit(_, leader, _) => x.inflight.None? && IsPeer(cfg, n, leader)
    case TakeAbort(_, leader, _) => IsPeer(cfg, n, leader)
    case CheckLeader(_, msg) => ReplicationOf(msg).Some? && IsPeer(cfg, n, ReplicationOf(msg).value.0)
    case Serve(_, m) => m in x.store.history
    case ServeOpIds(_) => true
    case CatchUp(_, leader, _) => x.inflight.None? && x.c.role != Leader && IsPeer(cfg, n, leader)
    case Compact(_, history) => x.inflight.None? && SubHistory(history, x.store.history)
    case InstallSnapshot(_, from, snapshot) =>
      && x.inflight.None? && x.c.role != Leader && snapshot.Shaped()
      && snapshot.shardCount == x.store.shardCount && snapshot.history == []
    case Restart(_, _, history) => SubHistory(history, x.store.history)
  }

  // the message that a step consumes
  function Consumes(x: Node, step: Step): Option<Message> {
    match step
    case GrantVote(_, req, _) => Some(RequestVote(req))
    case CollectVote(n, voter, reply) =>
      if x.election.Some? then Some(Voted(voter, n, x.election.value.term, reply)) else None
    case TakeBeat(_, leader, term) => Some(Beat(leader, term))
    case TakeBeatReply(n, reqTerm, term) => Some(BeatReply(n, reqTerm, term))
    case TakePrepare(_, rpc, leader, m) => Some(Prepare(rpc, leader, m))
    case CollectAck(_, peer) => if x.inflight.Some? then Some(Prepared(x.inflight.value.rpc, peer)) else None
    case TakeCommit(_, leader, m) => Some(Commit(leader, m))
    case TakeAbort(_, leader, m) => Some(Abort(leader, m))
    case CheckLeader(_, msg) => Some(msg)
    case CatchUp(_, leader, m) => Some(Served(leader, m))
    case InstallSnapshot(_, from, snapshot) => Some(OpIds(from, snapshot.opIndex))
    case _ => None
  }

  predicate Enabled(cfg: Config, s: State, step: Step) {
    && step.n in cfg.nodes && step.n in s.nodes && s.nodes[step.n].store.Shaped()
    && LocallyEnabled(cfg, s.nodes[step.n], step)
    && var msg := Consumes(s.nodes[step.n], step); msg.Some? ==> msg.value in s.net
  }

  function Exec(cfg: Config, s: State, step: Step): State
    requires Enabled(cfg, s, step)
  {
    var n := step.n;
    var e := EffectOf(cfg, s.nodes[n], s.nextRpc, step);
    State(s.nodes[n := e.node],
          if e.sent.Some? then s.net + {e.sent.value} else s.net,
          s.nextRpc + 1,
          if e.vote.Some? then s.votes + {e.vote.value} else s.votes,
          if e.win then s.elected + {Win(e.node.c.term, n)} else s.elected,
          if e.applied.Some? then s.applied + {Applying(n, e.applied.value)} else s.applied,
          if e.applied.Some? && e.visible then s.visible[StampOf(e.applied.value) := e.applied.value] else s.visible)
  }

  /** What a leader may propose: the next mutation of a shard, stamped with its term. A client
      request, a pending mutation re-stamped at recovery and a rollback step are all of this kind. */
  predicate Proposable(cfg: Config, term: nat, store: Source, m: Mutation)
    requires store.Shaped()
  {
    && m.commitId.epoch == term
    && m.commitId.shardId < store.shardCount
    && m.commitId.seqNo == store.watermarks[m.commitId.shardId] + 1
    && m.commitId.sourceRegion == cfg.clusterId
  }

  /** commit_request proposes only such mutations, unless it reports a duplicate or refuses. */
  lemma ClientRequestIsProposable(cfg: Config, term: nat, store: Source, hash: KeyHash, req: DenyRequest, now: nat)
    requires store.Shaped() && store.region == cfg.clusterId && term >= 1
    ensures var r := PrepareCommit(store.(epoch := term), hash, req, now);
      r.Ok? && !r.value.duplicate ==>
        Proposable(cfg, term, store, r.value.mutation) && r.value.mutation.opId !in store.opIndex
  {
  }

  /** What recovery does with a pending file. */
  datatype Recovered =
    | Foreign                    // of another cluster; left alone
    | NoShard                    // recovery fails
    | Old                        // applied already; the file goes
    | Early(expectedSeq: nat)    // recovery fails
    | Again(m: Mutation)         // committed again under the new epoch

  // one round of recover_pending_mutations_as_leader
  function Recover(cfg: Config, term: nat, store: Source, m: Mutation): Recovered
    requires store.Shaped()
  {
    var id := m.commitId;
    if id.sourceRegion != cfg.clusterId then Foreign
    else if id.shardId >= store.shardCount then NoShard
    else if id.seqNo <= store.watermarks[id.shardId] then Old
    else if id.seqNo != store.watermarks[id.shardId] + 1 then Early(store.watermarks[id.shardId] + 1)
    else Again(m.(commitId := id.(epoch := term)))
  }

  /** Recovery proposes the pending mutation itself, under the new leader's epoch, exactly when it is the
      next of its shard; it discards one exactly when its shard's watermark has passed it, leaves one of
      another cluster alone, and fails on any other. */
  lemma RecoveryIsProposable(cfg: Config, term: nat, store: Source, m: Mutation)
    requires store.Shaped()
    ensures var r := Recover(cfg, term, store, m);
      && (r.Again? <==> Proposable(cfg, term, store, m.(commitId := m.commitId.(epoch := term))))
      && (r.Again? ==> SlotOf(r.m) == SlotOf(m) && r.m.(commitId := m.commitId) == m && r.m.commitId.epoch == term)
      && (r.Old? <==> m.commitId.sourceRegion == cfg.clusterId && m.commitId.shardId < store.shardCount
                      && m.commitId.seqNo <= store.watermarks[m.commitId.shardId])
      && (r.Foreign? <==> m.commitId.sourceRegion != cfg.clusterId)
      && (r.NoShard? <==> m.commitId.sourceRegion == cfg.clusterId && m.commitId.shardId >= store.shardCount)
      && (r.Early? ==> m.commitId.seqNo > r.expectedSeq == store.watermarks[m.commitId.shardId] + 1)
  {
  }

  /** A run: it starts fresh and takes one enabled step after another. */
  ghost predicate Run(cfg: Config, states: seq<State>, steps: seq<Step>) {
    && |states| == |steps| + 1
    && Init(cfg, states[0])
    && forall i :: 0 <= i < |steps| ==>
         Enabled(cfg, states[i], steps[i]) && states[i + 1] == Exec(cfg, states[i], steps[i])
  }

  // ---------- what every step keeps ----------

  predicate SoundNode(cfg: Config, x: Node) {
    x.disk == Persist(x.c) && x.c.term >= 1 && x.store.Shaped() && x.store.shardCount == cfg.shardCount
  }

  ghost predicate Sound(cfg: Config, s: State) {
    s.nodes.Keys == cfg.nodes && forall n :: n in cfg.nodes ==> SoundNode(cfg, s.nodes[n])
  }

  lemma LocalSound(cfg: Config, x: Node, rpc: nat, step: Step)
    requires SoundNode(cfg, x) && LocallyEnabled(cfg, x, step)
    ensures var y := EffectOf(cfg, x, rpc, step).node; SoundNode(cfg, y) && Evolves(x.c, y.c)
  {
    hide ApplyPrepared, UpToDate, Write, Holds, Remove, Proposable, IsPeer, SubHistory;
    hide DoTimeout, DoGrantVote, DoCollectVote, DoEndElection, DoTakePrepare, DoTakeAbort, DoCheckLeader;
    hide DoFinishCommit, DoTakeReplicated;
  }

  /** Only the acting node moves; its record evolves and stays persisted. */
  lemma StepSound(cfg: Config, s: State, step: Step)
    requires Sound(cfg, s) && Enabled(cfg, s, step)
    ensures var t := Exec(cfg, s, step);
      && Sound(cfg, t) && step.n in cfg.nodes
      && t.nodes == s.nodes[step.n := t.nodes[step.n]]
      && Evolves(s.nodes[step.n].c, t.nodes[step.n].c)
  {
    hide EffectOf, LocallyEnabled;
    LocalSound(cfg, s.nodes[step.n], s.nextRpc, step);
  }

  // the state after a step
  lemma Moved(cfg: Config, s: State, step: Step)
    requires Enabled(cfg, s, step)
    ensures var e := EffectOf(cfg, s.nodes[step.n], s.nextRpc, step); var t := Exec(cfg, s, step);
      && t.net == (if e.sent.Some? then s.net + {e.sent.value} else s.net) && s.net <= t.net
      && t.votes == (if e.vote.Some? then s.votes + {e.vote.value} else s.votes) && s.votes <= t.votes
      && t.nextRpc == s.nextRpc + 1 && t.nodes == s.nodes[step.n := e.node] && s.elected <= t.elected
      && t.visible == (if e.applied.Some? && e.visible then s.visible[StampOf(e.applied.value) := e.applied.value]
                       else s.visible)
  {
    hide EffectOf, LocallyEnabled, Consumes;
  }

  lemma {:induction false} RunSound(cfg: Config, states: seq<State>, steps: seq<Step>, i: nat)
    requires cfg.Valid() && Run(cfg, states, steps) && i < |states|
    ensures Sound(cfg, states[i])
  {
    hide Exec, Enabled;
    if i > 0 {
      RunSound(cfg, states, steps, i - 1);
      StepSound(cfg, states[i - 1], steps[i - 1]);
    }
  }

  /** Terms never decrease over a run, restarts included. */
  lemma {:induction false} TermsNeverDecrease(
    cfg: Config, states: seq<State>, steps: seq<Step>, i: nat, j: nat, n: NodeId)
    requires cfg.Valid() && Run(cfg, states, steps) && i <= j < |states| && n in cfg.nodes
    ensures n in states[i].nodes && n in states[j].nodes
    ensures states[i].nodes[n].c.term <= states[j].nodes[n].c.term
    decreases j
  {
    hide Exec, Enabled, SoundNode, Config.Valid;
    RunSound(cfg, states, steps, i);
    if i < j {
      TermsNeverDecrease(cfg, states, steps, i, j - 1, n);
      RunSound(cfg, states, steps, j - 1);
      StepSound(cfg, states[j - 1], steps[j - 1]);
    }
  }
}
