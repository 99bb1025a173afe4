/** Election safety: over every run, with lost, late and duplicated messages and with restarts,
    at most one node ever becomes leader in a term. */
module ElectionSafety {
  import opened Domain
  import opened Consensus
  import opened PendingStore
  import opened Cluster

  /** Who voted for c in term t. */
  function Backers(cfg: Config, votes: set<Vote>, t: nat, c: NodeId): set<NodeId> {
    set v | v in cfg.nodes && Vote(v, t, c) in votes
  }

  predicate OneVotePerTerm(s: State) {
    forall a, b :: a in s.votes && b in s.votes && a.voter == b.voter && a.term == b.term ==> a == b
  }

  // a node remembers its vote until its term moves on
  predicate VotesRemembered(cfg: Config, s: State)
    requires s.nodes.Keys == cfg.nodes
  {
    forall v :: v in s.votes ==>
      && v.voter in cfg.nodes
      && v.term <= s.nodes[v.voter].c.term
      && (v.term == s.nodes[v.voter].c.term ==> s.nodes[v.voter].c.votedFor == Some(v.candidate))
  }

  predicate IsGrant(msg: Message) {
    msg.Voted? && msg.reply.granted
  }

  predicate GrantsAreVotes(s: State) {
    forall msg :: msg in s.net && IsGrant(msg) ==> Vote(msg.voter, msg.reqTerm, msg.candidate) in s.votes
  }

  // a running election has counted no one twice
  predicate HonestCount(cfg: Config, votes: set<Vote>, n: NodeId, x: Node) {
    x.election.Some? ==>
      var e := x.election.value;
      && n !in e.answered && Vote(n, e.term, n) in votes
      && e.votes <= |({n} + e.answered) * Backers(cfg, votes, e.term, n)|
  }

  predicate HonestCounts(cfg: Config, s: State)
    requires s.nodes.Keys == cfg.nodes
  {
    forall n :: n in cfg.nodes ==> HonestCount(cfg, s.votes, n, s.nodes[n])
  }

  predicate WinsHaveQuorum(cfg: Config, s: State) {
    forall w :: w in s.elected ==> |Backers(cfg, s.votes, w.term, w.leader)| >= cfg.quorum
  }

  // a leader won its term; a node does not stand again in a term it has won
  predicate WinsRemembered(cfg: Config, s: State)
    requires s.nodes.Keys == cfg.nodes
  {
    && (forall n :: n in cfg.nodes && s.nodes[n].c.role == Leader ==>
          Win(s.nodes[n].c.term, n) in s.elected && s.nodes[n].c.leaderId == Some(n))
    && (forall w :: w in s.elected ==>
          && w.leader in cfg.nodes && w.term <= s.nodes[w.leader].c.term
          && (w.term == s.nodes[w.leader].c.term ==> s.nodes[w.leader].c.role != Candidate))
  }

  ghost predicate ElectionInv(cfg: Config, s: State) {
    && Sound(cfg, s)
    && OneVotePerTerm(s) && VotesRemembered(cfg, s) && GrantsAreVotes(s)
    && HonestCounts(cfg, s) && WinsHaveQuorum(cfg, s) && WinsRemembered(cfg, s)
  }

  // a cast vote is for the node's term and is remembered; a granting reply reports it
  predicate VotesAs(e: Effect, n: NodeId) {
    && (e.vote.Some? ==>
          e.vote.value.voter == n && e.vote.value.term == e.node.c.term
          && e.node.c.votedFor == Some(e.vote.value.candidate))
    && (e.sent.Some? && IsGrant(e.sent.value) ==>
          e.vote == Some(Vote(e.sent.value.voter, e.sent.value.reqTerm, e.sent.value.candidate)))
  }

  // who wins, who leads, who stands
  predicate RolesAs(cfg: Config, x: Node, e: Effect, step: Step) {
    var y := e.node;
    && (e.win ==>
          && step.EndElection? && x.election.Some? && x.election.value.term == x.c.term
          && x.election.value.votes >= cfg.quorum
          && x.c.role == Candidate && y.c == x.c.(role := Leader, leaderId := Some(step.n)))
    && (y.c.role == Leader ==> e.win || (x.c.role == Leader && y.c.term == x.c.term && y.c.leaderId == x.c.leaderId))
    && (y.c.role == Candidate ==> y.c.term > x.c.term || (x.c.role == Candidate && y.c.term == x.c.term))
  }

  // a running election starts with its own vote, and counts a peer once
  predicate CountsAs(cfg: Config, x: Node, e: Effect, step: Step) {
    var y := e.node;
    y.election.Some? ==>
      || (step.Timeout? && y.election == Some(Election(y.c.term, {}, 1))
          && e.vote == Some(Vote(step.n, y.c.term, step.n)))
      || (step.CollectVote? && x.election.Some? && y.election.value.term == x.election.value.term
          && step.voter in cfg.nodes && step.voter != step.n && step.voter !in x.election.value.answered
          && y.election.value.answered == x.election.value.answered + {step.voter}
          && y.election.value.votes == x.election.value.votes + if step.reply.granted then 1 else 0)
      || y.election == x.election
  }

  lemma LocalVotes(cfg: Config, x: Node, rpc: nat, step: Step)
    requires SoundNode(cfg, x) && LocallyEnabled(cfg, x, step)
    ensures VotesAs(EffectOf(cfg, x, rpc, step), step.n)
  {
    hide ApplyPrepared, UpToDate, Write, Holds, Remove, Proposable, SubHistory, IsPeer;
  }

  lemma LocalRoles(cfg: Config, x: Node, rpc: nat, step: Step)
    requires SoundNode(cfg, x) && LocallyEnabled(cfg, x, step)
    ensures RolesAs(cfg, x, EffectOf(cfg, x, rpc, step), step)
  {
    hide ApplyPrepared, UpToDate, Write, Holds, Remove, Proposable, SubHistory, IsPeer, DoTakeReplicated, DoFinishCommit;
  }

  lemma LocalCounts(cfg: Config, x: Node, rpc: nat, step: Step)
    requires SoundNode(cfg, x) && LocallyEnabled(cfg, x, step)
    ensures CountsAs(cfg, x, EffectOf(cfg, x, rpc, step), step)
  {
    hide ApplyPrepared, UpToDate, Write, Holds, Remove, Proposable, SubHistory;
  }

  /** What any step does to the acting node, as far as elections are concerned. */
  lemma LocalElection(cfg: Config, x: Node, rpc: nat, step: Step)
    requires SoundNode(cfg, x) && LocallyEnabled(cfg, x, step)
    ensures var e := EffectOf(cfg, x, rpc, step);
      VotesAs(e, step.n) && RolesAs(cfg, x, e, step) && CountsAs(cfg, x, e, step)
  {
    LocalVotes(cfg, x, rpc, step);
    LocalRoles(cfg, x, rpc, step);
    LocalCounts(cfg, x, rpc, step);
    hide EffectOf, LocallyEnabled, SoundNode, VotesAs, RolesAs, CountsAs;
  }

  lemma BackersGrow(cfg: Config, a: set<Vote>, b: set<Vote>, t: nat, c: NodeId)
    requires a <= b
    ensures Backers(cfg, a, t, c) <= Backers(cfg, b, t, c)
    ensures |Backers(cfg, a, t, c)| <= |Backers(cfg, b, t, c)|
  {
    SubsetSize(Backers(cfg, a, t, c), Backers(cfg, b, t, c));
  }

  lemma HonestCountGrows(cfg: Config, a: set<Vote>, b: set<Vote>, n: NodeId, x: Node)
    requires a <= b && HonestCount(cfg, a, n, x)
    ensures HonestCount(cfg, b, n, x)
  {
    if x.election.Some? {
      var e := x.election.value;
      BackersGrow(cfg, a, b, e.term, n);
      SubsetSize(({n} + e.answered) * Backers(cfg, a, e.term, n), ({n} + e.answered) * Backers(cfg, b, e.term, n));
    }
  }

  // the votes after a step
  lemma VotesStep(cfg: Config, s: State, step: Step)
    requires Sound(cfg, s) && Enabled(cfg, s, step)
    ensures var t := Exec(cfg, s, step); var n := step.n;
      && Sound(cfg, t) && n in cfg.nodes && Evolves(s.nodes[n].c, t.nodes[n].c)
      && t.nodes == s.nodes[n := t.nodes[n]]
      && (t.votes == s.votes
          || exists v :: t.votes == s.votes + {v} && v.voter == n && v.term == t.nodes[n].c.term
               && t.nodes[n].c.votedFor == Some(v.candidate))
  {
    StepSound(cfg, s, step);
    LocalElection(cfg, s.nodes[step.n], s.nextRpc, step);
    hide EffectOf, LocallyEnabled, Sound, SoundNode, Consumes;
    var e := EffectOf(cfg, s.nodes[step.n], s.nextRpc, step);
    assert e.vote.Some? ==> Exec(cfg, s, step).votes == s.votes + {e.vote.value};
  }

  lemma VotesKept(cfg: Config, s: State, step: Step)
    requires cfg.Valid() && Sound(cfg, s) && OneVotePerTerm(s) && VotesRemembered(cfg, s) && Enabled(cfg, s, step)
    ensures var t := Exec(cfg, s, step);
      Sound(cfg, t) && OneVotePerTerm(t) && VotesRemembered(cfg, t)
  {
    VotesStep(cfg, s, step);
    hide Exec, Enabled, SoundNode, Config.Valid, OneVotePerTerm, VotesRemembered, Evolves;
    VotesGrow(cfg, s, Exec(cfg, s, step), step.n);
  }

  // a node whose record evolves may cast the vote it then remembers
  lemma VotesGrow(cfg: Config, s: State, t: State, n: NodeId)
    requires s.nodes.Keys == cfg.nodes == t.nodes.Keys && OneVotePerTerm(s) && VotesRemembered(cfg, s)
    requires n in cfg.nodes && t.nodes == s.nodes[n := t.nodes[n]] && Evolves(s.nodes[n].c, t.nodes[n].c)
    requires t.votes == s.votes
      || exists v :: t.votes == s.votes + {v} && v.voter == n && v.term == t.nodes[n].c.term
           && t.nodes[n].c.votedFor == Some(v.candidate)
    ensures OneVotePerTerm(t) && VotesRemembered(cfg, t)
  {
  }

  lemma GrantsKept(cfg: Config, s: State, step: Step)
    requires cfg.Valid() && Sound(cfg, s) && GrantsAreVotes(s) && Enabled(cfg, s, step)
    ensures GrantsAreVotes(Exec(cfg, s, step))
  {
    Moved(cfg, s, step);
    assert SoundNode(cfg, s.nodes[step.n]) && LocallyEnabled(cfg, s.nodes[step.n], step);
    hide *;
    LocalElection(cfg, s.nodes[step.n], s.nextRpc, step);
    GrantsGrow(s, Exec(cfg, s, step), EffectOf(cfg, s.nodes[step.n], s.nextRpc, step), step.n);
  }

  lemma GrantsGrow(s: State, t: State, e: Effect, n: NodeId)
    requires GrantsAreVotes(s) && VotesAs(e, n)
    requires t.net == if e.sent.Some? then s.net + {e.sent.value} else s.net
    requires t.votes == if e.vote.Some? then s.votes + {e.vote.value} else s.votes
    ensures GrantsAreVotes(t)
  {
    hide IsGrant;
  }

  // an election begins with its own vote
  lemma FreshCount(cfg: Config, votes: set<Vote>, n: NodeId, x: Node)
    requires n in cfg.nodes && x.election == Some(Election(x.c.term, {}, 1)) && Vote(n, x.c.term, n) in votes
    ensures HonestCount(cfg, votes, n, x)
  {
    assert ({n} + {}) * Backers(cfg, votes, x.c.term, n) == {n};
  }

  // one more peer has answered
  lemma NextCount(cfg: Config, votes: set<Vote>, n: NodeId, x: Node, y: Node, voter: NodeId, granted: bool)
    requires HonestCount(cfg, votes, n, x) && x.election.Some? && y.election.Some?
    requires voter in cfg.nodes && voter != n && voter !in x.election.value.answered
    requires granted ==> Vote(voter, x.election.value.term, n) in votes
    requires var e := x.election.value;
      y.election == Some(Election(e.term, e.answered + {voter}, e.votes + if granted then 1 else 0))
    ensures HonestCount(cfg, votes, n, y)
  {
    var e := x.election.value;
    var backers := Backers(cfg, votes, e.term, n);
    var before := ({n} + e.answered) * backers;
    var after := ({n} + y.election.value.answered) * backers;
    if granted {
      assert after == before + {voter};
    } else {
      SubsetSize(before, after);
    }
  }

  // the three things a step can do to a running election
  predicate CountMoves(cfg: Config, votes: set<Vote>, step: Step, x: Node, y: Node) {
    y.election.Some? ==>
      || (y.election == Some(Election(y.c.term, {}, 1)) && Vote(step.n, y.c.term, step.n) in votes)
      || (step.CollectVote? && x.election.Some? && y.election.value.term == x.election.value.term
          && step.voter in cfg.nodes && step.voter != step.n && step.voter !in x.election.value.answered
          && y.election.value.answered == x.election.value.answered + {step.voter}
          && y.election.value.votes == x.election.value.votes + (if step.reply.granted then 1 else 0)
          && (step.reply.granted ==> Vote(step.voter, x.election.value.term, step.n) in votes))
      || y.election == x.election
  }

  lemma CountAfter(cfg: Config, votes: set<Vote>, step: Step, x: Node, y: Node)
    requires HonestCount(cfg, votes, step.n, x) && step.n in cfg.nodes && CountMoves(cfg, votes, step, x, y)
    ensures HonestCount(cfg, votes, step.n, y)
  {
    hide HonestCount;
    if y.election.None? || y.election == x.election {
      CountFollowsElection(cfg, votes, step.n, x, y);
    } else if y.election == Some(Election(y.c.term, {}, 1)) && Vote(step.n, y.c.term, step.n) in votes {
      FreshCount(cfg, votes, step.n, y);
    } else {
      NextCount(cfg, votes, step.n, x, y, step.voter, step.reply.granted);
    }
  }

  lemma LocalCountMoves(cfg: Config, x: Node, rpc: nat, step: Step, votes: set<Vote>)
    requires SoundNode(cfg, x) && LocallyEnabled(cfg, x, step)
    requires var e := EffectOf(cfg, x, rpc, step); e.vote.Some? ==> e.vote.value in votes
    requires step.CollectVote? && x.election.Some? && step.reply.granted ==>
      Vote(step.voter, x.election.value.term, step.n) in votes
    ensures CountMoves(cfg, votes, step, x, EffectOf(cfg, x, rpc, step).node)
  {
    LocalElection(cfg, x, rpc, step);
    hide EffectOf, LocallyEnabled, SoundNode;
  }

  // a counted reply stands for a vote
  lemma CountedGrant(cfg: Config, s: State, step: Step)
    requires Sound(cfg, s) && GrantsAreVotes(s) && Enabled(cfg, s, step)
    ensures var x := s.nodes[step.n];
      step.CollectVote? && x.election.Some? && step.reply.granted ==> Vote(step.voter, x.election.value.term, step.n) in s.votes
  {
    var x := s.nodes[step.n];
    if step.CollectVote? && x.election.Some? && step.reply.granted {
      var reply := Voted(step.voter, step.n, x.election.value.term, step.reply);
      assert reply in s.net && IsGrant(reply);
    }
  }

  lemma ActorCountMoves(cfg: Config, s: State, step: Step)
    requires Sound(cfg, s) && GrantsAreVotes(s) && Enabled(cfg, s, step)
    ensures var t := Exec(cfg, s, step);
      && step.n in cfg.nodes && t.nodes.Keys == cfg.nodes && s.votes <= t.votes
      && CountMoves(cfg, t.votes, step, s.nodes[step.n], t.nodes[step.n])
  {
    CountedGrant(cfg, s, step);
    hide EffectOf, LocallyEnabled, Consumes, SoundNode, GrantsAreVotes, CountMoves;
    LocalCountMoves(cfg, s.nodes[step.n], s.nextRpc, step, Exec(cfg, s, step).votes);
  }

  lemma CountKept(cfg: Config, s: State, step: Step)
    requires cfg.Valid() && Sound(cfg, s) && GrantsAreVotes(s) && HonestCounts(cfg, s) && Enabled(cfg, s, step)
    ensures var t := Exec(cfg, s, step);
      t.nodes.Keys == cfg.nodes && step.n in cfg.nodes && HonestCount(cfg, t.votes, step.n, t.nodes[step.n])
  {
    ActorCountMoves(cfg, s, step);
    var t := Exec(cfg, s, step);
    hide Exec, Enabled, HonestCount, CountMoves, SoundNode;
    assert HonestCount(cfg, s.votes, step.n, s.nodes[step.n]);
    HonestCountGrows(cfg, s.votes, t.votes, step.n, s.nodes[step.n]);
    CountAfter(cfg, t.votes, step, s.nodes[step.n], t.nodes[step.n]);
  }

  lemma CountFollowsElection(cfg: Config, votes: set<Vote>, n: NodeId, x: Node, y: Node)
    requires HonestCount(cfg, votes, n, x) && (y.election.None? || y.election == x.election)
    ensures HonestCount(cfg, votes, n, y)
  {
  }

  lemma CountsKept(cfg: Config, s: State, step: Step)
    requires cfg.Valid() && ElectionInv(cfg, s) && Enabled(cfg, s, step)
    ensures var t := Exec(cfg, s, step); t.nodes.Keys == cfg.nodes && HonestCounts(cfg, t)
  {
    CountKept(cfg, s, step);
    hide EffectOf, LocallyEnabled;
    StepSound(cfg, s, step);
    var t := Exec(cfg, s, step);
    forall n | n in cfg.nodes
      ensures HonestCount(cfg, t.votes, n, t.nodes[n])
    {
      if n != step.n {
        assert t.nodes[n] == s.nodes[n];
        HonestCountGrows(cfg, s.votes, t.votes, n, s.nodes[n]);
      }
    }
  }

  // the count that wins an election is a quorum of backers
  lemma WinHasQuorum(cfg: Config, votes: set<Vote>, n: NodeId, x: Node)
    requires HonestCount(cfg, votes, n, x) && x.election.Some? && x.election.value.votes >= cfg.quorum
    ensures |Backers(cfg, votes, x.election.value.term, n)| >= cfg.quorum
  {
    var e := x.election.value;
    SubsetSize(({n} + e.answered) * Backers(cfg, votes, e.term, n), Backers(cfg, votes, e.term, n));
  }

  lemma WinsKept(cfg: Config, s: State, step: Step)
    requires cfg.Valid() && Sound(cfg, s) && HonestCounts(cfg, s) && WinsHaveQuorum(cfg, s) && Enabled(cfg, s, step)
    ensures WinsHaveQuorum(cfg, Exec(cfg, s, step))
  {
    hide EffectOf, LocallyEnabled, HonestCount, Backers;
    StepSound(cfg, s, step);
    var n := step.n;
    var x := s.nodes[n];
    LocalElection(cfg, x, s.nextRpc, step);
    var t := Exec(cfg, s, step);
    forall w | w in t.elected
      ensures |Backers(cfg, t.votes, w.term, w.leader)| >= cfg.quorum
    {
      BackersGrow(cfg, s.votes, t.votes, w.term, w.leader);
      if w !in s.elected {
        assert HonestCount(cfg, s.votes, n, x);
        WinHasQuorum(cfg, s.votes, n, x);
      }
    }
  }

  lemma LeadersKept(cfg: Config, s: State, step: Step)
    requires cfg.Valid() && Sound(cfg, s) && WinsRemembered(cfg, s) && Enabled(cfg, s, step)
    ensures var t := Exec(cfg, s, step); t.nodes.Keys == cfg.nodes && WinsRemembered(cfg, t)
  {
    StepSound(cfg, s, step);
    LocalElection(cfg, s.nodes[step.n], s.nextRpc, step);
    var t := Exec(cfg, s, step);
    hide EffectOf, LocallyEnabled, Consumes, Config.Valid, WinsRemembered, SoundNode;
    WinsGrow(cfg, s, t, step.n, EffectOf(cfg, s.nodes[step.n], s.nextRpc, step).win);
  }

  // a candidate may win its term; no other node becomes a leader or stands again for a won term
  lemma WinsGrow(cfg: Config, s: State, t: State, n: NodeId, win: bool)
    requires s.nodes.Keys == cfg.nodes == t.nodes.Keys && WinsRemembered(cfg, s)
    requires n in cfg.nodes && t.nodes == s.nodes[n := t.nodes[n]] && Evolves(s.nodes[n].c, t.nodes[n].c)
    requires t.elected == if win then s.elected + {Win(t.nodes[n].c.term, n)} else s.elected
    requires var c, d := s.nodes[n].c, t.nodes[n].c;
      && (win ==> d.role == Leader && d.leaderId == Some(n))
      && (d.role == Leader ==> win || (c.role == Leader && d.term == c.term && d.leaderId == c.leaderId))
      && (d.role == Candidate ==> d.term > c.term || (c.role == Candidate && d.term == c.term))
    ensures WinsRemembered(cfg, t)
  {
  }

  lemma ElectionInvKept(cfg: Config, s: State, step: Step)
    requires cfg.Valid() && ElectionInv(cfg, s) && Enabled(cfg, s, step)
    ensures ElectionInv(cfg, Exec(cfg, s, step))
  {
    hide Exec, Enabled;
    VotesKept(cfg, s, step);
    GrantsKept(cfg, s, step);
    CountsKept(cfg, s, step);
    WinsKept(cfg, s, step);
    LeadersKept(cfg, s, step);
  }

  lemma {:induction false} RunKeepsElectionInv(cfg: Config, states: seq<State>, steps: seq<Step>, i: nat)
    requires cfg.Valid() && Run(cfg, states, steps) && i < |states|
    ensures ElectionInv(cfg, states[i])
  {
    hide Exec, Enabled;
    if i > 0 {
      RunKeepsElectionInv(cfg, states, steps, i - 1);
      ElectionInvKept(cfg, states[i - 1], steps[i - 1]);
    }
  }

  /** Two majorities share a node. */
  lemma QuorumsMeet(cfg: Config, a: set<NodeId>, b: set<NodeId>)
    requires cfg.Valid() && a <= cfg.nodes && b <= cfg.nodes && |a| >= cfg.quorum && |b| >= cfg.quorum
    ensures exists v :: v in a && v in b
  {
    if a * b == {} {
      assert |a + b| == |a| + |b|;
      SubsetSize(a + b, cfg.nodes);
      assert false;
    }
    var v :| v in a * b;
  }

  lemma OneWinnerPerTerm(cfg: Config, s: State, v: Win, w: Win)
    requires cfg.Valid() && ElectionInv(cfg, s) && v in s.elected && w in s.elected && v.term == w.term
    ensures v == w
  {
    var a, b := Backers(cfg, s.votes, v.term, v.leader), Backers(cfg, s.votes, w.term, w.leader);
    QuorumsMeet(cfg, a, b);
    var q :| q in a && q in b;
    assert Vote(q, v.term, v.leader) in s.votes && Vote(q, w.term, w.leader) in s.votes;
  }

  /** At most one node ever becomes leader in a term: whoever leads, anywhere in a run, in the
      same term is the same node. */
  lemma AtMostOneLeaderPerTerm(
    cfg: Config, states: seq<State>, steps: seq<Step>, i: nat, j: nat, n: NodeId, m: NodeId)
    requires cfg.Valid() && Run(cfg, states, steps) && i < |states| && j < |states|
    requires n in states[i].nodes && m in states[j].nodes
    requires states[i].nodes[n].c.role == Leader && states[j].nodes[m].c.role == Leader
    requires states[i].nodes[n].c.term == states[j].nodes[m].c.term
    ensures n == m
  {
    hide Exec, Enabled;
    var k := if i <= j then j else i;
    RunKeepsElectionInv(cfg, states, steps, i);
    RunKeepsElectionInv(cfg, states, steps, j);
    RunKeepsElectionInv(cfg, states, steps, k);
    WinsStay(cfg, states, steps, i, k);
    WinsStay(cfg, states, steps, j, k);
    OneWinnerPerTerm(cfg, states[k], Win(states[i].nodes[n].c.term, n), Win(states[j].nodes[m].c.term, m));
  }

  lemma {:induction false} WinsStay(cfg: Config, states: seq<State>, steps: seq<Step>, i: nat, j: nat)
    requires Run(cfg, states, steps) && i <= j < |states|
    ensures states[i].elected <= states[j].elected
    decreases j
  {
    if i < j {
      hide EffectOf, Enabled;
      WinsStay(cfg, states, steps, i, j - 1);
      assert states[j] == Exec(cfg, states[j - 1], steps[j - 1]);
    }
  }
}
