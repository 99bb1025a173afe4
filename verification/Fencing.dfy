/** Fencing: once a quorum is in a term above T, no commit that a leader of T (or of an earlier
    term) starts from then on gathers a quorum; and the epochs a node accepts never decrease. */
module Fencing {
  import opened Domain
  import opened Consensus
  import opened PendingStore
  import opened Cluster
  import opened ElectionSafety

  // connection numbers: a message on a connection comes after the connection was numbered
  predicate Numbered(msg: Message, next: nat) {
    (msg.Prepare? || msg.Prepared?) ==> msg.rpc < next
  }

  // a commit in flight has sent its prepare, and counts nodes of the cluster
  predicate Underway(cfg: Config, net: set<Message>, n: NodeId, x: Node) {
    x.inflight.Some? ==>
      Prepare(x.inflight.value.rpc, n, x.inflight.value.m) in net && x.inflight.value.acks <= cfg.nodes
  }

  predicate OnePreparePerRpc(net: set<Message>) {
    forall a, b :: a in net && b in net && a.Prepare? && b.Prepare? && a.rpc == b.rpc ==> a == b
  }

  ghost predicate RpcInv(cfg: Config, s: State) {
    && Sound(cfg, s)
    && (forall msg :: msg in s.net ==> Numbered(msg, s.nextRpc))
    && OnePreparePerRpc(s.net)
    && (forall n :: n in cfg.nodes ==> Underway(cfg, s.net, n, s.nodes[n]))
  }

  /** The messages and commits of one step. */
  lemma LocalFence(cfg: Config, x: Node, rpc: nat, step: Step)
    requires SoundNode(cfg, x) && LocallyEnabled(cfg, x, step)
    ensures var e := EffectOf(cfg, x, rpc, step); var y := e.node;
      && (e.sent.Some? && e.sent.value.Prepared? ==>
            step.TakePrepare? && e.sent.value == Prepared(step.rpc, step.n) && step.m.commitId.epoch >= x.c.term)
      && (e.sent.Some? && e.sent.value.Prepare? ==>
            step.BeginCommit? && e.sent.value == Prepare(rpc, step.n, step.m))
      && (y.inflight.Some? ==>
            || y.inflight == x.inflight
            || (step.BeginCommit? && y.inflight == Some(Inflight(rpc, step.m, {step.n}))
                && e.sent == Some(Prepare(rpc, step.n, step.m)) && step.m.commitId.epoch == x.c.term)
            || (step.CollectAck? && x.inflight.Some? && y.inflight.value.rpc == x.inflight.value.rpc
                && y.inflight.value.m == x.inflight.value.m
                && y.inflight.value.acks == x.inflight.value.acks + {step.peer}))
  {
    hide ApplyPrepared, UpToDate, Write, Holds, Remove, IsPeer, SubHistory;
    hide DoFinishCommit, DoTakeReplicated, DoTimeout, DoGrantVote, DoCollectVote, DoEndElection, DoTakePrepare;
    hide DoTakeAbort, DoCheckLeader;
  }

  // one more message, numbered with the next connection if it opens one
  lemma NetNumbered(net: set<Message>, sent: Option<Message>, next: nat)
    requires (forall msg :: msg in net ==> Numbered(msg, next)) && OnePreparePerRpc(net)
    requires sent.Some? ==> Numbered(sent.value, next + 1) && (sent.value.Prepare? ==> sent.value.rpc == next)
    ensures var after := if sent.Some? then net + {sent.value} else net;
      (forall msg :: msg in after ==> Numbered(msg, next + 1)) && OnePreparePerRpc(after)
  {
    assert forall msg :: msg in net ==> Numbered(msg, next);
  }

  // the acting node, before the step
  lemma Actor(cfg: Config, s: State, step: Step)
    requires RpcInv(cfg, s) && Enabled(cfg, s, step)
    ensures s.nodes.Keys == cfg.nodes && step.n in cfg.nodes
    ensures SoundNode(cfg, s.nodes[step.n]) && LocallyEnabled(cfg, s.nodes[step.n], step)
    ensures Underway(cfg, s.net, step.n, s.nodes[step.n])
    ensures var msg := Consumes(s.nodes[step.n], step);
      msg.Some? ==> msg.value in s.net && Numbered(msg.value, s.nextRpc)
  {
    hide EffectOf, LocallyEnabled, Consumes, OnePreparePerRpc, Numbered, SoundNode, Underway;
  }

  lemma TakenPrepare(x: Node, step: Step)
    requires step.TakePrepare?
    ensures Consumes(x, step) == Some(Prepare(step.rpc, step.leader, step.m))
  {
  }

  lemma NumbersKept(cfg: Config, s: State, step: Step)
    requires RpcInv(cfg, s) && Enabled(cfg, s, step)
    ensures var t := Exec(cfg, s, step);
      (forall msg :: msg in t.net ==> Numbered(msg, t.nextRpc)) && OnePreparePerRpc(t.net)
  {
    var x := s.nodes[step.n];
    Actor(cfg, s, step);
    Moved(cfg, s, step);
    if step.TakePrepare? {
      TakenPrepare(x, step);
    }
    hide EffectOf, LocallyEnabled, Sound, SoundNode, Consumes, OnePreparePerRpc, Underway, Exec, Enabled;
    LocalFence(cfg, x, s.nextRpc, step);
    NetNumbered(s.net, EffectOf(cfg, x, s.nextRpc, step).sent, s.nextRpc);
  }

  // a commit in flight keeps its prepare in the network
  lemma UnderwayStays(cfg: Config, net: set<Message>, more: set<Message>, n: NodeId, x: Node)
    requires Underway(cfg, net, n, x) && net <= more
    ensures Underway(cfg, more, n, x)
  {
  }

  // the acting node's own commit
  lemma ActorUnderway(cfg: Config, s: State, step: Step)
    requires RpcInv(cfg, s) && Enabled(cfg, s, step)
    ensures var t := Exec(cfg, s, step);
      s.net <= t.net && step.n in t.nodes && Underway(cfg, t.net, step.n, t.nodes[step.n])
  {
    var x := s.nodes[step.n];
    Actor(cfg, s, step);
    Moved(cfg, s, step);
    LocalFence(cfg, x, s.nextRpc, step);
    assert step.CollectAck? ==> step.peer in cfg.nodes;
    hide EffectOf, LocallyEnabled, Consumes, RpcInv, SoundNode, Exec, Enabled;
  }

  lemma RpcInvKept(cfg: Config, s: State, step: Step)
    requires RpcInv(cfg, s) && Enabled(cfg, s, step)
    ensures RpcInv(cfg, Exec(cfg, s, step))
  {
    StepSound(cfg, s, step);
    NumbersKept(cfg, s, step);
    ActorUnderway(cfg, s, step);
    hide Exec, Enabled, SoundNode, OnePreparePerRpc, Numbered, Underway;
    var t := Exec(cfg, s, step);
    forall n | n in cfg.nodes
      ensures Underway(cfg, t.net, n, t.nodes[n])
    {
      if n != step.n {
        UnderwayStays(cfg, s.net, t.net, n, s.nodes[n]);
      }
    }
  }

  /** Every commit numbered r0 or higher of a leader of term T or below is without an answer, and
      without a counted acknowledgement, from S, whose members have all moved past T. */
  ghost predicate FencedInv(cfg: Config, s: State, S: set<NodeId>, T: nat, r0: nat) {
    && RpcInv(cfg, s) && S <= cfg.nodes
    && (forall p :: p in S ==> s.nodes[p].c.term > T)
    && (forall msg, p :: msg in s.net && msg.Prepare? && msg.rpc >= r0 && msg.m.commitId.epoch <= T && p in S ==>
          Prepared(msg.rpc, p) !in s.net)
    && (forall n :: n in cfg.nodes ==> Unacknowledged(s.nodes[n], S, T, r0))
  }

  predicate Unacknowledged(x: Node, S: set<NodeId>, T: nat, r0: nat) {
    x.inflight.Some? && x.inflight.value.rpc >= r0 && x.inflight.value.m.commitId.epoch <= T ==>
      x.inflight.value.acks !! S
  }

  lemma FenceStarts(cfg: Config, s: State, S: set<NodeId>, T: nat)
    requires RpcInv(cfg, s) && S <= cfg.nodes && forall p :: p in S ==> s.nodes[p].c.term > T
    ensures FencedInv(cfg, s, S, T, s.nextRpc)
  {
    forall n | n in cfg.nodes
      ensures Unacknowledged(s.nodes[n], S, T, s.nextRpc)
    {
      if s.nodes[n].inflight.Some? {
        assert Underway(cfg, s.net, n, s.nodes[n]);
        assert Numbered(Prepare(s.nodes[n].inflight.value.rpc, n, s.nodes[n].inflight.value.m), s.nextRpc);
      }
    }
    assert forall msg :: msg in s.net ==> Numbered(msg, s.nextRpc);
  }

  // what the step sends, seen from the fence: a new prepare has a new number, and an answer
  // goes to a prepare that was there, of an epoch that the answering node has not left behind
  lemma SentAtFence(cfg: Config, s: State, step: Step)
    requires RpcInv(cfg, s) && Enabled(cfg, s, step)
    ensures var e := EffectOf(cfg, s.nodes[step.n], s.nextRpc, step);
      && (e.sent.Some? && e.sent.value.Prepare? ==> e.sent.value.rpc == s.nextRpc)
      && (e.sent.Some? && e.sent.value.Prepared? ==>
            && step.TakePrepare? && e.sent.value == Prepared(step.rpc, step.n)
            && Prepare(step.rpc, step.leader, step.m) in s.net
            && step.m.commitId.epoch >= s.nodes[step.n].c.term)
  {
    var x := s.nodes[step.n];
    Actor(cfg, s, step);
    if step.TakePrepare? {
      TakenPrepare(x, step);
    }
    hide *;
    LocalFence(cfg, x, s.nextRpc, step);
  }

  // one more message: an answer to a prepare of an epoch past T, or anything that is no answer
  lemma AnswersStayFenced(net: set<Message>, sent: Option<Message>, next: nat, T: nat, msg: Message, p: NodeId)
    requires (forall other :: other in net ==> Numbered(other, next)) && OnePreparePerRpc(net)
    requires sent.Some? && sent.value.Prepare? ==> sent.value.rpc == next
    requires sent.Some? && sent.value.Prepared? && sent.value.from == p ==>
      exists asked :: asked in net && asked.Prepare? && asked.rpc == sent.value.rpc && asked.m.commitId.epoch > T
    requires var after := if sent.Some? then net + {sent.value} else net;
      msg in after && msg.Prepare? && msg.m.commitId.epoch <= T
    requires msg in net ==> Prepared(msg.rpc, p) !in net
    ensures Prepared(msg.rpc, p) !in if sent.Some? then net + {sent.value} else net
  {
    assert Prepared(msg.rpc, p) in net ==> Numbered(Prepared(msg.rpc, p), next);
    assert msg in net ==> Numbered(msg, next);
  }

  // no node of S answers a fenced prepare
  lemma AnswersFenced(cfg: Config, s: State, step: Step, S: set<NodeId>, T: nat, r0: nat, msg: Message, p: NodeId)
    requires FencedInv(cfg, s, S, T, r0) && Enabled(cfg, s, step)
    requires msg in Exec(cfg, s, step).net && msg.Prepare? && msg.rpc >= r0 && msg.m.commitId.epoch <= T && p in S
    ensures Prepared(msg.rpc, p) !in Exec(cfg, s, step).net
  {
    SentAtFence(cfg, s, step);
    Moved(cfg, s, step);
    var sent := EffectOf(cfg, s.nodes[step.n], s.nextRpc, step).sent;
    hide EffectOf, LocallyEnabled, Enabled, Exec, Unacknowledged, Sound, Underway, Numbered, OnePreparePerRpc;
    AnswersStayFenced(s.net, sent, s.nextRpc, T, msg, p);
  }

  // an acknowledgement in the network that a fenced commit could count is from outside the fence
  lemma AckFromOutside(cfg: Config, s: State, S: set<NodeId>, T: nat, r0: nat, n: NodeId, p: NodeId)
    requires FencedInv(cfg, s, S, T, r0) && n in cfg.nodes && s.nodes[n].inflight.Some?
    requires s.nodes[n].inflight.value.rpc >= r0 && s.nodes[n].inflight.value.m.commitId.epoch <= T
    requires Prepared(s.nodes[n].inflight.value.rpc, p) in s.net
    ensures p !in S
  {
    assert Underway(cfg, s.net, n, s.nodes[n]);
    assert Prepare(s.nodes[n].inflight.value.rpc, n, s.nodes[n].inflight.value.m) in s.net;
    hide Sound, OnePreparePerRpc, Numbered, Unacknowledged;
  }

  // counting one more acknowledgement, or starting a commit in a term that the fence allows
  lemma StaysUnacknowledged(x: Node, y: Node, S: set<NodeId>, T: nat, r0: nat, rpc: nat, step: Step)
    requires Unacknowledged(x, S, T, r0) && (step.n in S ==> x.c.term > T)
    requires y.inflight.Some? ==>
      || y.inflight == x.inflight
      || (step.BeginCommit? && y.inflight == Some(Inflight(rpc, step.m, {step.n})) && step.m.commitId.epoch == x.c.term)
      || (step.CollectAck? && x.inflight.Some? && y.inflight.value.rpc == x.inflight.value.rpc
          && y.inflight.value.m == x.inflight.value.m
          && y.inflight.value.acks == x.inflight.value.acks + {step.peer})
    requires step.CollectAck? ==>
      x.inflight.Some? && (x.inflight.value.rpc >= r0 && x.inflight.value.m.commitId.epoch <= T ==> step.peer !in S)
    ensures Unacknowledged(y, S, T, r0)
  {
  }

  // an acknowledgement that is counted is from outside the fence
  lemma CollectsOutside(cfg: Config, s: State, step: Step, S: set<NodeId>, T: nat, r0: nat)
    requires FencedInv(cfg, s, S, T, r0) && Enabled(cfg, s, step) && step.CollectAck?
    ensures var x := s.nodes[step.n];
      x.inflight.Some? && (x.inflight.value.rpc >= r0 && x.inflight.value.m.commitId.epoch <= T ==> step.peer !in S)
  {
    var x := s.nodes[step.n];
    assert x.inflight.Some? && Prepared(x.inflight.value.rpc, step.peer) in s.net;
    hide Enabled, FencedInv;
    if x.inflight.value.rpc >= r0 && x.inflight.value.m.commitId.epoch <= T {
      AckFromOutside(cfg, s, S, T, r0, step.n, step.peer);
    }
  }

  lemma FencedBefore(cfg: Config, s: State, S: set<NodeId>, T: nat, r0: nat, n: NodeId)
    requires FencedInv(cfg, s, S, T, r0) && n in cfg.nodes
    ensures RpcInv(cfg, s) && n in s.nodes && Unacknowledged(s.nodes[n], S, T, r0) && (n in S ==> s.nodes[n].c.term > T)
  {
    hide Unacknowledged, Underway, OnePreparePerRpc, Numbered, SoundNode;
  }

  lemma CommitsFenced(cfg: Config, s: State, step: Step, S: set<NodeId>, T: nat, r0: nat)
    requires FencedInv(cfg, s, S, T, r0) && Enabled(cfg, s, step)
    ensures Unacknowledged(EffectOf(cfg, s.nodes[step.n], s.nextRpc, step).node, S, T, r0)
  {
    var x := s.nodes[step.n];
    FencedBefore(cfg, s, S, T, r0, step.n);
    Actor(cfg, s, step);
    hide *;
    LocalFence(cfg, x, s.nextRpc, step);
    if step.CollectAck? {
      CollectsOutside(cfg, s, step, S, T, r0);
    }
    StaysUnacknowledged(x, EffectOf(cfg, x, s.nextRpc, step).node, S, T, r0, s.nextRpc, step);
  }

  lemma FencedMade(cfg: Config, s: State, S: set<NodeId>, T: nat, r0: nat)
    requires RpcInv(cfg, s) && S <= cfg.nodes && s.nodes.Keys == cfg.nodes && forall p :: p in S ==> s.nodes[p].c.term > T
    requires forall msg, p :: msg in s.net && msg.Prepare? && msg.rpc >= r0 && msg.m.commitId.epoch <= T && p in S ==>
      Prepared(msg.rpc, p) !in s.net
    requires forall n :: n in cfg.nodes ==> Unacknowledged(s.nodes[n], S, T, r0)
    ensures FencedInv(cfg, s, S, T, r0)
  {
    hide RpcInv, Unacknowledged;
  }

  lemma UnacknowledgedKept(cfg: Config, s: State, step: Step, S: set<NodeId>, T: nat, r0: nat, n: NodeId)
    requires FencedInv(cfg, s, S, T, r0) && Enabled(cfg, s, step) && n in cfg.nodes
    ensures n in Exec(cfg, s, step).nodes && Unacknowledged(Exec(cfg, s, step).nodes[n], S, T, r0)
  {
    Moved(cfg, s, step);
    FencedBefore(cfg, s, S, T, r0, n);
    hide *;
    if n == step.n {
      CommitsFenced(cfg, s, step, S, T, r0);
    }
  }

  lemma FencedInvKept(cfg: Config, s: State, step: Step, S: set<NodeId>, T: nat, r0: nat)
    requires FencedInv(cfg, s, S, T, r0) && Enabled(cfg, s, step)
    ensures FencedInv(cfg, Exec(cfg, s, step), S, T, r0)
  {
    FencedTerms(cfg, s, step, S, T, r0);
    assert RpcInv(cfg, s);
    hide *;
    RpcInvKept(cfg, s, step);
    var t := Exec(cfg, s, step);
    forall msg, p | msg in t.net && msg.Prepare? && msg.rpc >= r0 && msg.m.commitId.epoch <= T && p in S
      ensures Prepared(msg.rpc, p) !in t.net
    {
      AnswersFenced(cfg, s, step, S, T, r0, msg, p);
    }
    forall n | n in cfg.nodes
      ensures Unacknowledged(t.nodes[n], S, T, r0)
    {
      UnacknowledgedKept(cfg, s, step, S, T, r0, n);
    }
    FencedMade(cfg, t, S, T, r0);
  }

  lemma FencedTerms(cfg: Config, s: State, step: Step, S: set<NodeId>, T: nat, r0: nat)
    requires FencedInv(cfg, s, S, T, r0) && Enabled(cfg, s, step)
    ensures var t := Exec(cfg, s, step);
      S <= cfg.nodes && t.nodes.Keys == cfg.nodes && forall p :: p in S ==> t.nodes[p].c.term > T
  {
    StepSound(cfg, s, step);
    hide EffectOf, Enabled, Exec, Unacknowledged, SoundNode, Underway, Numbered, OnePreparePerRpc;
  }

  lemma {:induction false} RunKeepsRpcInv(cfg: Config, states: seq<State>, steps: seq<Step>, i: nat)
    requires cfg.Valid() && Run(cfg, states, steps) && i < |states|
    ensures RpcInv(cfg, states[i])
  {
    hide Exec, Enabled;
    if i > 0 {
      RunKeepsRpcInv(cfg, states, steps, i - 1);
      RpcInvKept(cfg, states[i - 1], steps[i - 1]);
    }
  }

  lemma {:induction false} RunKeepsFence(
    cfg: Config, states: seq<State>, steps: seq<Step>, i: nat, k: nat, S: set<NodeId>, T: nat)
    requires cfg.Valid() && Run(cfg, states, steps) && i <= k < |states|
    requires S <= cfg.nodes && S <= states[i].nodes.Keys && forall p :: p in S ==> states[i].nodes[p].c.term > T
    ensures FencedInv(cfg, states[k], S, T, states[i].nextRpc)
    decreases k
  {
    hide Exec, Enabled;
    if i == k {
      RunKeepsRpcInv(cfg, states, steps, i);
      FenceStarts(cfg, states[i], S, T);
    } else {
      RunKeepsFence(cfg, states, steps, i, k - 1, S, T);
      FencedInvKept(cfg, states[k - 1], steps[k - 1], S, T, states[i].nextRpc);
    }
  }

  /** The theorem: after a quorum S has moved past T at point i, a commit of term T or below that
      was started at point i or later never reaches its quorum of acknowledgements, so the step
      that would make it visible is never enabled. */
  lemma FencedCommitNeverFinishes(
    cfg: Config, states: seq<State>, steps: seq<Step>, i: nat, k: nat, S: set<NodeId>, T: nat, n: NodeId)
    requires cfg.Valid() && Run(cfg, states, steps) && i <= k < |states|
    requires S <= cfg.nodes && |S| >= cfg.quorum
    requires S <= states[i].nodes.Keys && forall p :: p in S ==> states[i].nodes[p].c.term > T
    requires n in states[k].nodes && states[k].nodes[n].inflight.Some?
    requires states[k].nodes[n].inflight.value.rpc >= states[i].nextRpc
    requires states[k].nodes[n].inflight.value.m.commitId.epoch <= T
    ensures |states[k].nodes[n].inflight.value.acks| < cfg.quorum
    ensures !Enabled(cfg, states[k], FinishCommit(n))
  {
    RunKeepsFence(cfg, states, steps, i, k, S, T);
    hide Exec, Run, Enabled, RpcInv;
    var x := states[k].nodes[n];
    InCluster(cfg, states, steps, k);
    FencedBefore(cfg, states[k], S, T, states[i].nextRpc, n);
    assert Underway(cfg, states[k].net, n, x) by { UnderwayNow(cfg, states[k], n); }
    hide FencedInv;
    if |x.inflight.value.acks| >= cfg.quorum {
      QuorumsMeet(cfg, x.inflight.value.acks, S);
    }
    NotEnabled(cfg, states[k], n);
  }

  lemma InCluster(cfg: Config, states: seq<State>, steps: seq<Step>, k: nat)
    requires cfg.Valid() && Run(cfg, states, steps) && k < |states|
    ensures states[k].nodes.Keys == cfg.nodes
  {
    RunSound(cfg, states, steps, k);
    hide Run, SoundNode;
  }

  lemma UnderwayNow(cfg: Config, s: State, n: NodeId)
    requires RpcInv(cfg, s) && n in cfg.nodes
    ensures n in s.nodes && Underway(cfg, s.net, n, s.nodes[n])
  {
    hide Underway, OnePreparePerRpc, Numbered, SoundNode;
  }

  lemma NotEnabled(cfg: Config, s: State, n: NodeId)
    requires n in s.nodes && s.nodes[n].inflight.Some? && |s.nodes[n].inflight.value.acks| < cfg.quorum
    ensures !Enabled(cfg, s, FinishCommit(n))
  {
  }

  // ---------- accepted epochs ----------

  predicate NonDecreasing(xs: seq<nat>) {
    forall i, j :: 0 <= i < j < |xs| ==> xs[i] <= xs[j]
  }

  predicate AcceptedSound(x: Node) {
    NonDecreasing(x.accepted) && (x.accepted != [] ==> x.accepted[|x.accepted| - 1] <= x.c.term)
  }

  /** A step adds at most one epoch to what its node has accepted, and that epoch is the node's
      term after the step. */
  lemma LocalAccepted(cfg: Config, x: Node, rpc: nat, step: Step)
    requires SoundNode(cfg, x) && LocallyEnabled(cfg, x, step) && AcceptedSound(x)
    ensures var y := EffectOf(cfg, x, rpc, step).node;
      && (y.accepted == x.accepted || y.accepted == x.accepted + [y.c.term])
      && AcceptedSound(y)
  {
    var y := EffectOf(cfg, x, rpc, step).node;
    LocalSound(cfg, x, rpc, step);
    AcceptedLocally(cfg, x, rpc, step);
    hide EffectOf, LocallyEnabled;
    assert y.accepted == x.accepted || y.accepted == x.accepted + [y.c.term];
  }

  lemma AcceptedLocally(cfg: Config, x: Node, rpc: nat, step: Step)
    requires SoundNode(cfg, x) && LocallyEnabled(cfg, x, step)
    ensures var y := EffectOf(cfg, x, rpc, step).node;
      y.accepted == x.accepted || y.accepted == x.accepted + [y.c.term]
  {
    hide ApplyPrepared, UpToDate, Write, Holds, Remove, IsPeer, SubHistory, Proposable;
  }

  lemma {:induction false} RunAcceptedSound(cfg: Config, states: seq<State>, steps: seq<Step>, j: nat, n: NodeId)
    requires cfg.Valid() && Run(cfg, states, steps) && j < |states| && n in cfg.nodes
    ensures Sound(cfg, states[j]) && AcceptedSound(states[j].nodes[n])
  {
    hide Exec, Enabled;
    RunSound(cfg, states, steps, j);
    if j > 0 {
      RunAcceptedSound(cfg, states, steps, j - 1, n);
      AcceptedStep(cfg, states[j - 1], steps[j - 1], n);
    }
  }

  function AcceptedBy(s: State, n: NodeId): seq<nat> {
    if n in s.nodes then s.nodes[n].accepted else []
  }

  lemma RunAcceptedGrows(cfg: Config, states: seq<State>, steps: seq<Step>, j: nat, n: NodeId)
    requires cfg.Valid() && Run(cfg, states, steps) && 0 < j < |states| && n in cfg.nodes
    ensures AcceptedBy(states[j - 1], n) <= AcceptedBy(states[j], n)
  {
    hide Exec, Enabled;
    RunAcceptedSound(cfg, states, steps, j - 1, n);
    AcceptedStep(cfg, states[j - 1], steps[j - 1], n);
  }

  /** Over its lifetime, restarts included, the epochs a node accepts for prepare or commit never
      decrease: the record of them only grows at its end, and stays in order. */
  lemma {:induction false} AcceptedEpochsNeverDecrease(
    cfg: Config, states: seq<State>, steps: seq<Step>, i: nat, j: nat, n: NodeId)
    requires cfg.Valid() && Run(cfg, states, steps) && i <= j < |states| && n in cfg.nodes
    ensures AcceptedBy(states[i], n) <= AcceptedBy(states[j], n)
    ensures NonDecreasing(AcceptedBy(states[j], n))
    decreases j
  {
    hide Run, Config.Valid;
    assert NonDecreasing(AcceptedBy(states[j], n)) by {
      RunAcceptedSound(cfg, states, steps, j, n);
    }
    hide NonDecreasing, AcceptedBy;
    if i < j {
      AcceptedEpochsNeverDecrease(cfg, states, steps, i, j - 1, n);
      RunAcceptedGrows(cfg, states, steps, j, n);
      PrefixTransitive(AcceptedBy(states[i], n), AcceptedBy(states[j - 1], n), AcceptedBy(states[j], n));
    }
  }

  lemma PrefixTransitive(a: seq<nat>, b: seq<nat>, c: seq<nat>)
    requires a <= b <= c
    ensures a <= c
  {
  }

  lemma AcceptedStep(cfg: Config, s: State, step: Step, n: NodeId)
    requires Sound(cfg, s) && Enabled(cfg, s, step) && n in cfg.nodes && AcceptedSound(s.nodes[n])
    ensures var t := Exec(cfg, s, step);
      n in t.nodes && AcceptedSound(t.nodes[n]) && s.nodes[n].accepted <= t.nodes[n].accepted
  {
    if n == step.n {
      LocalAccepted(cfg, s.nodes[n], s.nextRpc, step);
    }
    hide EffectOf, LocallyEnabled;
  }
}
