/** What a reachable quorum can do: from any sound state, a node with enough willing peers can be elected, and
    a leader with enough ready peers can commit, whatever the other nodes are doing and even if they take no
    step at all. The safety theorems say that nothing else is agreed; these say that something is. */
module Availability {
  import opened Domain
  import opened Consensus
  import opened PendingStore
  import opened SourceSpec
  import opened Cluster
  import opened VoteAnswers
  import opened CommitAnswers

  /** The steps are enabled one after another and lead from s to t; only `nodes` take them. */
  ghost predicate Leads(cfg: Config, s: State, steps: seq<Step>, t: State, nodes: set<NodeId>)
    decreases |steps|
  {
    if steps == [] then t == s
    else steps[0].n in nodes && Enabled(cfg, s, steps[0]) && Leads(cfg, Exec(cfg, s, steps[0]), steps[1..], t, nodes)
  }

  lemma {:induction false} LeadsOn(cfg: Config, s: State, a: seq<Step>, t: State, b: seq<Step>, u: State, nodes: set<NodeId>)
    requires Leads(cfg, s, a, t, nodes) && Leads(cfg, t, b, u, nodes)
    ensures Leads(cfg, s, a + b, u, nodes)
    decreases |a|
  {
    hide Exec, Enabled;
    if a == [] {
      assert a + b == b;
    } else {
      LeadsOn(cfg, Exec(cfg, s, a[0]), a[1..], t, b, u, nodes);
      LeadsFirst(cfg, s, a[0], a[1..] + b, u, nodes);
      assert a + b == [a[0]] + (a[1..] + b);
    }
  }

  lemma LeadsFirst(cfg: Config, s: State, step: Step, rest: seq<Step>, u: State, nodes: set<NodeId>)
    requires step.n in nodes && Enabled(cfg, s, step) && Leads(cfg, Exec(cfg, s, step), rest, u, nodes)
    ensures Leads(cfg, s, [step] + rest, u, nodes)
  {
    hide Exec, Enabled;
    assert ([step] + rest)[1..] == rest;
  }

  lemma LeadsOne(cfg: Config, s: State, step: Step, nodes: set<NodeId>)
    requires Enabled(cfg, s, step) && step.n in nodes
    ensures Leads(cfg, s, [step], Exec(cfg, s, step), nodes)
  {
    hide Exec, Enabled;
  }

  lemma LeadsTwo(cfg: Config, s: State, a: Step, b: Step, nodes: set<NodeId>)
    requires Enabled(cfg, s, a) && a.n in nodes && Enabled(cfg, Exec(cfg, s, a), b) && b.n in nodes
    ensures Leads(cfg, s, [a, b], Exec(cfg, Exec(cfg, s, a), b), nodes)
  {
    var t := Exec(cfg, s, a);
    LeadsOne(cfg, s, a, nodes);
    LeadsOne(cfg, t, b, nodes);
    LeadsOn(cfg, s, [a], t, [b], Exec(cfg, t, b), nodes);
    hide Exec, Enabled;
    assert [a] + [b] == [a, b];
  }

  // ---------- an election ----------

  // the request that n sends when it stands in a term
  function RequestOf(n: NodeId, term: nat, status: LogStatus): VoteRequest {
    VoteRequest(n, term, status.lastSeq, status.logLen, Some(status.watermarks))
  }

  // a voter that is in an older term and not ahead of the candidate
  predicate Willing(x: Node, req: VoteRequest, local: LogStatus) {
    x.c.term < req.term && UpToDate(req, local)
  }

  /** n stands in the term of its request and has counted exactly the votes of `voted` beside its own. */
  ghost predicate Standing(cfg: Config, s: State, n: NodeId, req: VoteRequest, voted: set<NodeId>) {
    && Sound(cfg, s) && n in cfg.nodes && req.candidate == n && RequestVote(req) in s.net
    && s.nodes[n].c == ConsensusState(req.term, Some(n), Candidate, None)
    && s.nodes[n].election == Some(Election(req.term, voted, 1 + |voted|))
  }

  /** Only `moved` took part, and no store changed. */
  ghost predicate Elsewhere(cfg: Config, s: State, t: State, moved: set<NodeId>) {
    && s.nodes.Keys == t.nodes.Keys == cfg.nodes
    && forall q :: q in cfg.nodes ==> t.nodes[q].store == s.nodes[q].store && (q !in moved ==> t.nodes[q] == s.nodes[q])
  }

  lemma ElsewhereOn(cfg: Config, s: State, t: State, u: State, a: set<NodeId>, b: set<NodeId>)
    requires Elsewhere(cfg, s, t, a) && Elsewhere(cfg, t, u, b)
    ensures Elsewhere(cfg, s, u, a + b)
  {
  }

  lemma Member(cfg: Config, s: State, n: NodeId)
    requires Sound(cfg, s) && n in cfg.nodes
    ensures n in s.nodes
  {
  }

  lemma Stands(cfg: Config, s: State, n: NodeId, status: LogStatus)
    requires Sound(cfg, s) && n in cfg.nodes && s.nodes[n].election.None? && s.nodes[n].c.role != Leader
    ensures Enabled(cfg, s, Timeout(n, status))
    ensures var t := Exec(cfg, s, Timeout(n, status));
      && Standing(cfg, t, n, RequestOf(n, s.nodes[n].c.term + 1, status), {})
      && Elsewhere(cfg, s, t, {n})
  {
    var step := Timeout(n, status);
    assert SoundNode(cfg, s.nodes[n]);
    StepSound(cfg, s, step);
  }

  lemma Grants(cfg: Config, s: State, n: NodeId, req: VoteRequest, voted: set<NodeId>, p: NodeId, local: LogStatus)
    requires Standing(cfg, s, n, req, voted)
    requires p in cfg.nodes && p != n && Willing(s.nodes[p], req, local)
    ensures Enabled(cfg, s, GrantVote(p, req, local))
    ensures var t := Exec(cfg, s, GrantVote(p, req, local));
      && Standing(cfg, t, n, req, voted) && Voted(p, n, req.term, VoteReply(req.term, true)) in t.net
      && Elsewhere(cfg, s, t, {p})
  {
    var step := GrantVote(p, req, local);
    assert SoundNode(cfg, s.nodes[p]) && IsPeer(cfg, p, n);
    VoteGrantedIff(s.nodes[p].c, req, local);
    hide UpToDate, OnVoteRequest;
    StepSound(cfg, s, step);
  }

  lemma Counts(cfg: Config, s: State, n: NodeId, req: VoteRequest, voted: set<NodeId>, p: NodeId)
    requires Standing(cfg, s, n, req, voted)
    requires p in cfg.nodes && p != n && p !in voted && Voted(p, n, req.term, VoteReply(req.term, true)) in s.net
    ensures Enabled(cfg, s, CollectVote(n, p, VoteReply(req.term, true)))
    ensures var t := Exec(cfg, s, CollectVote(n, p, VoteReply(req.term, true)));
      && Standing(cfg, t, n, req, voted + {p})
      && Elsewhere(cfg, s, t, {n})
  {
    var step := CollectVote(n, p, VoteReply(req.term, true));
    assert SoundNode(cfg, s.nodes[n]) && IsPeer(cfg, n, p);
    assert |voted + {p}| == |voted| + 1;
    StepSound(cfg, s, step);
  }

  // one more peer is asked, and its vote counted
  lemma AsksOne(cfg: Config, s: State, n: NodeId, req: VoteRequest, voted: set<NodeId>, p: NodeId, local: LogStatus,
                nodes: set<NodeId>) returns (steps: seq<Step>, t: State)
    requires Standing(cfg, s, n, req, voted) && n in nodes && p in nodes
    requires p in cfg.nodes && p != n && p !in voted && p in s.nodes && Willing(s.nodes[p], req, local)
    ensures Leads(cfg, s, steps, t, nodes) && Standing(cfg, t, n, req, voted + {p}) && Elsewhere(cfg, s, t, {p, n})
  {
    hide *;
    var a, b := GrantVote(p, req, local), CollectVote(n, p, VoteReply(req.term, true));
    Grants(cfg, s, n, req, voted, p, local);
    var mid := Exec(cfg, s, a);
    Counts(cfg, mid, n, req, voted, p);
    t := Exec(cfg, mid, b);
    LeadsTwo(cfg, s, a, b, nodes);
    steps := [a, b];
    ElsewhereOn(cfg, s, mid, t, {p}, {n});
    assert {p} + {n} == {p, n};
  }

  // all of them are willing, whatever the others did
  ghost predicate AllWilling(cfg: Config, s: State, n: NodeId, rest: set<NodeId>, req: VoteRequest, local: map<NodeId, LogStatus>) {
    && rest <= cfg.nodes && rest <= local.Keys && n !in rest
    && forall p :: p in rest ==> p in s.nodes && Willing(s.nodes[p], req, local[p])
  }

  lemma NoSteps(cfg: Config, s: State, n: NodeId, req: VoteRequest, voted: set<NodeId>, nodes: set<NodeId>)
    requires Standing(cfg, s, n, req, voted)
    ensures Leads(cfg, s, [], s, nodes) && Elsewhere(cfg, s, s, {n})
  {
  }

  lemma IsWilling(cfg: Config, s: State, n: NodeId, rest: set<NodeId>, p: NodeId, req: VoteRequest,
                  local: map<NodeId, LogStatus>)
    requires AllWilling(cfg, s, n, rest, req, local) && p in rest
    ensures p in cfg.nodes && p != n && p in s.nodes && p in local && Willing(s.nodes[p], req, local[p])
  {
  }

  lemma StillWilling(cfg: Config, s: State, t: State, n: NodeId, rest: set<NodeId>, p: NodeId, req: VoteRequest,
                     local: map<NodeId, LogStatus>)
    requires AllWilling(cfg, s, n, rest, req, local) && Elsewhere(cfg, s, t, {p, n})
    ensures AllWilling(cfg, t, n, rest - {p}, req, local)
  {
    hide Willing;
  }

  lemma {:induction false} AsksAll(cfg: Config, s: State, n: NodeId, req: VoteRequest, voted: set<NodeId>, rest: set<NodeId>,
                                   local: map<NodeId, LogStatus>, nodes: set<NodeId>) returns (steps: seq<Step>, t: State)
    requires Standing(cfg, s, n, req, voted) && n in nodes && rest <= nodes && voted !! rest
    requires AllWilling(cfg, s, n, rest, req, local)
    ensures Leads(cfg, s, steps, t, nodes) && Standing(cfg, t, n, req, voted + rest)
    ensures Elsewhere(cfg, s, t, rest + {n})
    decreases rest
  {
    hide *;
    if rest == {} {
      steps, t := [], s;
      assert voted + rest == voted;
      NoSteps(cfg, s, n, req, voted, nodes);
      assert rest + {n} == {n};
    } else {
      var p :| p in rest;
      IsWilling(cfg, s, n, rest, p, req, local);
      var asked, mid := AsksOne(cfg, s, n, req, voted, p, local[p], nodes);
      StillWilling(cfg, s, mid, n, rest, p, req, local);
      var more;
      more, t := AsksAll(cfg, mid, n, req, voted + {p}, rest - {p}, local, nodes);
      LeadsOn(cfg, s, asked, mid, more, t, nodes);
      steps := asked + more;
      assert voted + {p} + (rest - {p}) == voted + rest;
      ElsewhereOn(cfg, s, mid, t, {p, n}, rest - {p} + {n});
      assert {p, n} + (rest - {p} + {n}) == rest + {n};
    }
  }

  lemma Wins(cfg: Config, s: State, n: NodeId, req: VoteRequest, voted: set<NodeId>)
    requires Standing(cfg, s, n, req, voted) && 1 + |voted| >= cfg.quorum
    ensures Enabled(cfg, s, EndElection(n))
    ensures var t := Exec(cfg, s, EndElection(n));
      && Elsewhere(cfg, s, t, {n}) && n in t.nodes
      && t.nodes[n].c == ConsensusState(req.term, Some(n), Leader, Some(n)) && Win(req.term, n) in t.elected
  {
    assert SoundNode(cfg, s.nodes[n]);
    StepSound(cfg, s, EndElection(n));
  }

  lemma TheyAreWilling(cfg: Config, s: State, t: State, n: NodeId, voters: set<NodeId>, status: LogStatus,
                       local: map<NodeId, LogStatus>)
    requires Elsewhere(cfg, s, t, {n}) && n in cfg.nodes && voters <= cfg.nodes && n !in voters && voters <= local.Keys
    requires forall p :: p in voters ==>
      s.nodes[p].c.term <= s.nodes[n].c.term && UpToDate(RequestOf(n, s.nodes[n].c.term + 1, status), local[p])
    ensures RequestOf(n, s.nodes[n].c.term + 1, status).term == s.nodes[n].c.term + 1
    ensures AllWilling(cfg, t, n, voters, RequestOf(n, s.nodes[n].c.term + 1, status), local)
  {
    hide UpToDate;
  }

  /** A node that is not leading, and knows a term at least that of some nodes that are not ahead of it and
      make a quorum with it, can be elected by them alone, in its next term; no store changes. */
  lemma QuorumCanElect(cfg: Config, s: State, n: NodeId, voters: set<NodeId>, status: LogStatus,
                       local: map<NodeId, LogStatus>) returns (steps: seq<Step>, t: State)
    requires Sound(cfg, s) && n in cfg.nodes && s.nodes[n].election.None? && s.nodes[n].c.role != Leader
    requires voters <= cfg.nodes && n !in voters && 1 + |voters| >= cfg.quorum && voters <= local.Keys
    requires forall p :: p in voters ==>
      s.nodes[p].c.term <= s.nodes[n].c.term && UpToDate(RequestOf(n, s.nodes[n].c.term + 1, status), local[p])
    ensures Leads(cfg, s, steps, t, voters + {n}) && Elsewhere(cfg, s, t, voters + {n}) && n in t.nodes
    ensures t.nodes[n].c == ConsensusState(s.nodes[n].c.term + 1, Some(n), Leader, Some(n))
    ensures Win(s.nodes[n].c.term + 1, n) in t.elected
  {
    hide *;
    Member(cfg, s, n);
    var nodes, req, stand := voters + {n}, RequestOf(n, s.nodes[n].c.term + 1, status), Timeout(n, status);
    Stands(cfg, s, n, status);
    var first := Exec(cfg, s, stand);
    TheyAreWilling(cfg, s, first, n, voters, status, local);
    LeadsOne(cfg, s, stand, nodes);
    var asked, mid := AsksAll(cfg, first, n, req, {}, voters, local, nodes);
    assert {} + voters == voters;
    LeadsOn(cfg, s, [stand], first, asked, mid, nodes);
    Wins(cfg, mid, n, req, voters);
    t := Exec(cfg, mid, EndElection(n));
    LeadsOne(cfg, mid, EndElection(n), nodes);
    LeadsOn(cfg, s, [stand] + asked, mid, [EndElection(n)], t, nodes);
    steps := [stand] + asked + [EndElection(n)];
    ElsewhereOn(cfg, s, first, mid, {n}, voters + {n});
    ElsewhereOn(cfg, s, mid, t, {n} + (voters + {n}), {n});
    assert {n} + (voters + {n}) + {n} == voters + {n};
  }

  // ---------- a commit ----------

  // a node that would answer the prepare of m, and has no commit of its own under way
  predicate Ready(cfg: Config, x: Node, leader: NodeId, m: Mutation)
    requires x.store.Shaped()
  {
    && x.inflight.None? && Authorized(cfg, x.c, leader, m)
    && IsNext(x.store, m) && m.opId !in x.store.opIndex && SlotFree(x.pending, m)
  }

  /** n leads and has a commit of m under way, prepared by `acked`. */
  ghost predicate Proposing(cfg: Config, s: State, n: NodeId, rpc: nat, m: Mutation, acked: set<NodeId>) {
    && Sound(cfg, s) && n in cfg.nodes && Prepare(rpc, n, m) in s.net && n !in acked
    && s.nodes[n].c.role == Leader && s.nodes[n].c.term == m.commitId.epoch
    && s.nodes[n].inflight == Some(Inflight(rpc, m, acked + {n}))
    && IsNext(s.nodes[n].store, m) && m.opId !in s.nodes[n].store.opIndex
  }

  // nodes that are ready, or have prepared m
  ghost predicate AllReady(cfg: Config, s: State, n: NodeId, rest: set<NodeId>, m: Mutation) {
    && rest <= cfg.nodes && n !in rest
    && forall p :: p in rest ==> p in s.nodes && s.nodes[p].store.Shaped() && Ready(cfg, s.nodes[p], n, m)
  }

  ghost predicate AllPrepared(cfg: Config, s: State, n: NodeId, done: set<NodeId>, m: Mutation) {
    AllReady(cfg, s, n, done, m) && forall p :: p in done ==> Holds(s.nodes[p].pending, m)
  }

  lemma Proposes(cfg: Config, s: State, n: NodeId, m: Mutation)
    requires Sound(cfg, s) && n in cfg.nodes
    requires s.nodes[n].inflight.None? && s.nodes[n].c.role == Leader
    requires Proposable(cfg, s.nodes[n].c.term, s.nodes[n].store, m) && m.opId !in s.nodes[n].store.opIndex
    ensures Enabled(cfg, s, BeginCommit(n, m))
    ensures var t := Exec(cfg, s, BeginCommit(n, m));
      Proposing(cfg, t, n, s.nextRpc, m, {}) && Elsewhere(cfg, s, t, {n})
  {
    assert SoundNode(cfg, s.nodes[n]);
    StepSound(cfg, s, BeginCommit(n, m));
    assert {} + {n} == {n};
  }

  lemma Prepares(cfg: Config, s: State, n: NodeId, rpc: nat, m: Mutation, acked: set<NodeId>, p: NodeId)
    requires Proposing(cfg, s, n, rpc, m, acked)
    requires p in cfg.nodes && p != n && Ready(cfg, s.nodes[p], n, m)
    ensures Enabled(cfg, s, TakePrepare(p, rpc, n, m))
    ensures var t := Exec(cfg, s, TakePrepare(p, rpc, n, m));
      && Proposing(cfg, t, n, rpc, m, acked) && Elsewhere(cfg, s, t, {p}) && Prepared(rpc, p) in t.net
      && t.nodes[p].store.Shaped() && Ready(cfg, t.nodes[p], n, m) && Holds(t.nodes[p].pending, m)
  {
    var step := TakePrepare(p, rpc, n, m);
    assert SoundNode(cfg, s.nodes[p]) && IsPeer(cfg, p, n);
    StepSound(cfg, s, step);
    AnswersReady(cfg, s.nodes[p], s.nextRpc, p, rpc, n, m);
    hide EffectOf, Ready, IsNext, Holds, SoundNode, Config.Valid;
  }

  // a ready node answers, and stays ready
  lemma AnswersReady(cfg: Config, x: Node, next: nat, p: NodeId, rpc: nat, n: NodeId, m: Mutation)
    requires x.store.Shaped() && IsPeer(cfg, p, n) && Ready(cfg, x, n, m)
    ensures LocallyEnabled(cfg, x, TakePrepare(p, rpc, n, m))
    ensures var e := EffectOf(cfg, x, next, TakePrepare(p, rpc, n, m));
      && e.sent == Some(Prepared(rpc, p)) && e.node.store == x.store && Ready(cfg, e.node, n, m) && Holds(e.node.pending, m)
  {
    PrepareAnsweredIff(cfg, x, next, p, rpc, n, m);
    assert EffectOf(cfg, x, next, TakePrepare(p, rpc, n, m)).node.inflight == x.inflight;
    hide EffectOf;
  }

  lemma Acknowledges(cfg: Config, s: State, n: NodeId, rpc: nat, m: Mutation, acked: set<NodeId>, p: NodeId)
    requires Proposing(cfg, s, n, rpc, m, acked) && p in cfg.nodes && p != n && Prepared(rpc, p) in s.net
    ensures Enabled(cfg, s, CollectAck(n, p))
    ensures var t := Exec(cfg, s, CollectAck(n, p));
      Proposing(cfg, t, n, rpc, m, acked + {p}) && Elsewhere(cfg, s, t, {n})
  {
    assert SoundNode(cfg, s.nodes[n]) && IsPeer(cfg, n, p);
    StepSound(cfg, s, CollectAck(n, p));
    assert acked + {p} + {n} == acked + {n} + {p};
    hide IsNext, SoundNode;
  }

  // one more peer is asked, and its answer counted
  lemma PreparesOne(cfg: Config, s: State, n: NodeId, rpc: nat, m: Mutation, acked: set<NodeId>, rest: set<NodeId>, p: NodeId,
                    nodes: set<NodeId>) returns (steps: seq<Step>, t: State)
    requires Proposing(cfg, s, n, rpc, m, acked) && n in nodes && rest <= nodes && p in rest && acked !! rest
    requires AllReady(cfg, s, n, rest, m) && AllPrepared(cfg, s, n, acked, m)
    ensures Leads(cfg, s, steps, t, nodes) && Proposing(cfg, t, n, rpc, m, acked + {p})
    ensures Elsewhere(cfg, s, t, {p, n})
    ensures AllReady(cfg, t, n, rest - {p}, m) && AllPrepared(cfg, t, n, acked + {p}, m)
  {
    hide *;
    var a, b := TakePrepare(p, rpc, n, m), CollectAck(n, p);
    IsReady(cfg, s, n, rest, m, p);
    Prepares(cfg, s, n, rpc, m, acked, p);
    var mid := Exec(cfg, s, a);
    Acknowledges(cfg, mid, n, rpc, m, acked, p);
    t := Exec(cfg, mid, b);
    LeadsTwo(cfg, s, a, b, nodes);
    steps := [a, b];
    StillReady(cfg, s, mid, t, n, rest, m, p);
    StillPrepared(cfg, s, mid, t, n, acked, m, p);
    ElsewhereOn(cfg, s, mid, t, {p}, {n});
    assert {p} + {n} == {p, n};
  }

  lemma IsReady(cfg: Config, s: State, n: NodeId, rest: set<NodeId>, m: Mutation, p: NodeId)
    requires AllReady(cfg, s, n, rest, m) && p in rest
    ensures p in cfg.nodes && p != n && p in s.nodes && s.nodes[p].store.Shaped() && Ready(cfg, s.nodes[p], n, m)
  {
  }

  lemma StillReady(cfg: Config, s: State, mid: State, t: State, n: NodeId, rest: set<NodeId>, m: Mutation, p: NodeId)
    requires AllReady(cfg, s, n, rest, m) && Elsewhere(cfg, s, mid, {p}) && Elsewhere(cfg, mid, t, {n})
    ensures AllReady(cfg, t, n, rest - {p}, m)
  {
    hide Ready;
  }

  lemma StillPrepared(cfg: Config, s: State, mid: State, t: State, n: NodeId, acked: set<NodeId>, m: Mutation, p: NodeId)
    requires AllPrepared(cfg, s, n, acked, m) && Elsewhere(cfg, s, mid, {p}) && Elsewhere(cfg, mid, t, {n})
    requires p in cfg.nodes && p != n && p !in acked
    requires mid.nodes[p].store.Shaped() && Ready(cfg, mid.nodes[p], n, m) && Holds(mid.nodes[p].pending, m)
    ensures AllPrepared(cfg, t, n, acked + {p}, m)
  {
    hide Ready, Holds, IsNext;
    forall q | q in acked + {p}
      ensures q in cfg.nodes && q != n && q in t.nodes && t.nodes[q].store.Shaped()
      ensures Ready(cfg, t.nodes[q], n, m) && Holds(t.nodes[q].pending, m)
    {
      assert t.nodes[q] == mid.nodes[q];
      assert q != p ==> mid.nodes[q] == s.nodes[q];
    }
  }

  lemma {:induction false} PreparesAll(cfg: Config, s: State, n: NodeId, rpc: nat, m: Mutation, acked: set<NodeId>,
                                       rest: set<NodeId>, nodes: set<NodeId>) returns (steps: seq<Step>, t: State)
    requires Proposing(cfg, s, n, rpc, m, acked) && n in nodes && rest <= nodes && acked !! rest
    requires AllReady(cfg, s, n, rest, m) && AllPrepared(cfg, s, n, acked, m)
    ensures Leads(cfg, s, steps, t, nodes) && Proposing(cfg, t, n, rpc, m, acked + rest)
    ensures Elsewhere(cfg, s, t, rest + {n}) && AllPrepared(cfg, t, n, acked + rest, m)
    decreases rest
  {
    hide *;
    if rest == {} {
      steps, t := [], s;
      NobodyAsked(cfg, s, n, rpc, m, acked, nodes);
      assert acked + rest == acked && rest + {n} == {n};
    } else {
      var p :| p in rest;
      var asked, mid := PreparesOne(cfg, s, n, rpc, m, acked, rest, p, nodes);
      var more;
      more, t := PreparesAll(cfg, mid, n, rpc, m, acked + {p}, rest - {p}, nodes);
      LeadsOn(cfg, s, asked, mid, more, t, nodes);
      steps := asked + more;
      assert acked + {p} + (rest - {p}) == acked + rest;
      ElsewhereOn(cfg, s, mid, t, {p, n}, rest - {p} + {n});
      assert {p, n} + (rest - {p} + {n}) == rest + {n};
    }
  }

  lemma NobodyAsked(cfg: Config, s: State, n: NodeId, rpc: nat, m: Mutation, acked: set<NodeId>, nodes: set<NodeId>)
    requires Proposing(cfg, s, n, rpc, m, acked)
    ensures Leads(cfg, s, [], s, nodes) && Elsewhere(cfg, s, s, {n})
  {
  }

  /** p has applied m to the store it had in s, and holds no file of it. */
  ghost predicate HasApplied(s: State, t: State, p: NodeId, m: Mutation) {
    && p in s.nodes && p in t.nodes && s.nodes[p].store.Shaped()
    && ApplyReplicated(s.nodes[p].store, m) == Ok((t.nodes[p].store, Applied))
    && SlotOf(m) !in t.nodes[p].pending && Applying(p, m) in t.applied
  }

  // the nodes outside moved are as they were
  ghost predicate Outside(cfg: Config, s: State, t: State, moved: set<NodeId>) {
    s.nodes.Keys == t.nodes.Keys == cfg.nodes && forall q :: q in cfg.nodes && q !in moved ==> t.nodes[q] == s.nodes[q]
  }

  // and nothing that was applied or sent is lost
  ghost predicate Untouched(cfg: Config, s: State, t: State, moved: set<NodeId>) {
    Outside(cfg, s, t, moved) && s.applied <= t.applied && s.net <= t.net
  }

  lemma Finishes(cfg: Config, s: State, n: NodeId, rpc: nat, m: Mutation, acked: set<NodeId>)
    requires Proposing(cfg, s, n, rpc, m, acked) && 1 + |acked| >= cfg.quorum
    ensures Enabled(cfg, s, FinishCommit(n))
    ensures var t := Exec(cfg, s, FinishCommit(n));
      && Sound(cfg, t) && HasApplied(s, t, n, m) && Commit(n, m) in t.net
      && t.visible == s.visible[StampOf(m) := m] && t.nodes == s.nodes[n := t.nodes[n]] && s.net <= t.net
      && s.applied <= t.applied
  {
    assert |acked + {n}| == |acked| + 1;
    assert SoundNode(cfg, s.nodes[n]);
    FinishedIsVisibleIff(cfg, s.nodes[n], n, s.nextRpc);
    hide EffectOf, IsKnown;
    StepSound(cfg, s, FinishCommit(n));
  }

  lemma Takes(cfg: Config, s: State, n: NodeId, m: Mutation, p: NodeId)
    requires Sound(cfg, s) && n in cfg.nodes && p in cfg.nodes && p != n && Commit(n, m) in s.net
    requires s.nodes[p].store.Shaped() && Ready(cfg, s.nodes[p], n, m) && Holds(s.nodes[p].pending, m)
    ensures Enabled(cfg, s, TakeCommit(p, n, m))
    ensures var t := Exec(cfg, s, TakeCommit(p, n, m));
      && Sound(cfg, t) && HasApplied(s, t, p, m) && Untouched(cfg, s, t, {p})
      && t.visible == s.visible && Commit(n, m) in t.net
  {
    var step := TakeCommit(p, n, m);
    assert SoundNode(cfg, s.nodes[p]) && IsPeer(cfg, p, n);
    CommitAppliedIff(cfg, s.nodes[p], s.nextRpc, p, n, m);
    assert !EffectOf(cfg, s.nodes[p], s.nextRpc, step).visible;
    hide EffectOf, IsKnown;
    StepSound(cfg, s, step);
  }

  lemma UntouchedOn(cfg: Config, s: State, t: State, u: State, a: set<NodeId>, b: set<NodeId>)
    requires Untouched(cfg, s, t, a) && Untouched(cfg, t, u, b)
    ensures Untouched(cfg, s, u, a + b)
  {
  }

  // all of them have applied m
  ghost predicate AllApplied(s: State, t: State, done: set<NodeId>, m: Mutation) {
    forall p :: p in done ==> HasApplied(s, t, p, m)
  }

  // later steps of other nodes change nothing about it
  lemma StaysApplied(cfg: Config, s: State, t: State, u: State, done: set<NodeId>, moved: set<NodeId>, m: Mutation)
    requires AllApplied(s, t, done, m) && Untouched(cfg, t, u, moved) && done !! moved
    ensures AllApplied(s, u, done, m)
  {
    hide ApplyReplicated;
    forall p | p in done
      ensures HasApplied(s, u, p, m)
    {
      assert HasApplied(s, t, p, m);
    }
  }

  // a node that had not moved yet applies m to the store it started with
  lemma AppliesSame(cfg: Config, s: State, t: State, u: State, moved: set<NodeId>, p: NodeId, m: Mutation)
    requires Untouched(cfg, s, t, moved) && p in cfg.nodes && p !in moved && HasApplied(t, u, p, m)
    ensures HasApplied(s, u, p, m)
  {
    hide ApplyReplicated;
  }

  lemma StillHolding(cfg: Config, s: State, t: State, n: NodeId, rest: set<NodeId>, p: NodeId, m: Mutation)
    requires AllPrepared(cfg, s, n, rest, m) && Untouched(cfg, s, t, {p})
    ensures AllPrepared(cfg, t, n, rest - {p}, m) && rest - {p} <= cfg.nodes
  {
    hide Ready, Holds;
  }

  lemma HasPrepared(cfg: Config, s: State, n: NodeId, rest: set<NodeId>, p: NodeId, m: Mutation)
    requires AllPrepared(cfg, s, n, rest, m) && p in rest
    ensures p in cfg.nodes && p != n && p in s.nodes && s.nodes[p].store.Shaped()
    ensures Ready(cfg, s.nodes[p], n, m) && Holds(s.nodes[p].pending, m)
  {
  }

  lemma {:induction false} TakesAll(cfg: Config, s: State, n: NodeId, m: Mutation, rest: set<NodeId>, nodes: set<NodeId>)
    returns (steps: seq<Step>, t: State)
    requires Sound(cfg, s) && n in cfg.nodes && Commit(n, m) in s.net && rest <= nodes
    requires AllPrepared(cfg, s, n, rest, m)
    ensures Leads(cfg, s, steps, t, nodes) && Untouched(cfg, s, t, rest) && AllApplied(s, t, rest, m)
    ensures t.visible == s.visible
    decreases rest
  {
    hide *;
    if rest == {} {
      steps, t := [], s;
      NobodyTakes(cfg, s, m, nodes);
    } else {
      var p :| p in rest;
      HasPrepared(cfg, s, n, rest, p, m);
      Takes(cfg, s, n, m, p);
      var mid := Exec(cfg, s, TakeCommit(p, n, m));
      LeadsOne(cfg, s, TakeCommit(p, n, m), nodes);
      StillHolding(cfg, s, mid, n, rest, p, m);
      var more;
      more, t := TakesAll(cfg, mid, n, m, rest - {p}, nodes);
      steps := [TakeCommit(p, n, m)] + more;
      LeadsOn(cfg, s, [TakeCommit(p, n, m)], mid, more, t, nodes);
      UntouchedOn(cfg, s, mid, t, {p}, rest - {p});
      OneApplied(s, mid, p, m);
      StaysApplied(cfg, s, mid, t, {p}, rest - {p}, m);
      SameStart(cfg, s, mid, t, {p}, rest - {p}, m);
      JoinApplied(s, t, rest - {p}, {p}, m);
      assert {p} + (rest - {p}) == rest == (rest - {p}) + {p};
    }
  }

  lemma NobodyTakes(cfg: Config, s: State, m: Mutation, nodes: set<NodeId>)
    requires Sound(cfg, s)
    ensures Leads(cfg, s, [], s, nodes) && Untouched(cfg, s, s, {}) && AllApplied(s, s, {}, m)
  {
  }

  lemma OneApplied(s: State, t: State, p: NodeId, m: Mutation)
    requires HasApplied(s, t, p, m)
    ensures AllApplied(s, t, {p}, m)
  {
    hide HasApplied;
  }

  lemma JoinApplied(s: State, t: State, a: set<NodeId>, b: set<NodeId>, m: Mutation)
    requires AllApplied(s, t, a, m) && AllApplied(s, t, b, m)
    ensures AllApplied(s, t, a + b, m)
  {
    hide HasApplied;
  }

  lemma SameStart(cfg: Config, s: State, t: State, u: State, moved: set<NodeId>, done: set<NodeId>, m: Mutation)
    requires Untouched(cfg, s, t, moved) && done !! moved && done <= cfg.nodes && AllApplied(t, u, done, m)
    ensures AllApplied(s, u, done, m)
  {
    forall p | p in done
      ensures HasApplied(s, u, p, m)
    {
      AppliesSame(cfg, s, t, u, moved, p, m);
    }
    hide HasApplied;
  }

  // from the start of a commit to its outcome, stores have not moved
  lemma SameStores(cfg: Config, s: State, t: State, u: State, moved: set<NodeId>, done: set<NodeId>, m: Mutation)
    requires Elsewhere(cfg, s, t, moved) && done <= cfg.nodes && AllApplied(t, u, done, m)
    ensures AllApplied(s, u, done, m)
  {
    hide ApplyReplicated;
    forall p | p in done
      ensures HasApplied(s, u, p, m)
    {
      assert HasApplied(t, u, p, m);
    }
  }

  lemma OutsideOn(cfg: Config, s: State, t: State, u: State, a: set<NodeId>, b: set<NodeId>)
    requires Elsewhere(cfg, s, t, a) && Untouched(cfg, t, u, b)
    ensures Outside(cfg, s, u, a + b)
  {
  }

  // the leader applies; the peers still hold what they prepared
  lemma FinishesPrepared(cfg: Config, s: State, n: NodeId, rpc: nat, m: Mutation, acked: set<NodeId>, nodes: set<NodeId>)
    returns (t: State)
    requires Proposing(cfg, s, n, rpc, m, acked) && 1 + |acked| >= cfg.quorum && AllPrepared(cfg, s, n, acked, m)
    requires n in nodes
    ensures Leads(cfg, s, [FinishCommit(n)], t, nodes) && Sound(cfg, t) && n in cfg.nodes && Commit(n, m) in t.net
    ensures AllApplied(s, t, {n}, m) && Untouched(cfg, s, t, {n}) && AllPrepared(cfg, t, n, acked, m)
    ensures acked <= cfg.nodes && n !in acked
    ensures StampOf(m) in t.visible && t.visible[StampOf(m)] == m
  {
    hide *;
    Finishes(cfg, s, n, rpc, m, acked);
    t := Exec(cfg, s, FinishCommit(n));
    LeadsOne(cfg, s, FinishCommit(n), nodes);
    OneApplied(s, t, n, m);
    OnlyLeaderMoved(cfg, s, t, n, rpc, m, acked);
  }

  lemma OnlyLeaderMoved(cfg: Config, s: State, t: State, n: NodeId, rpc: nat, m: Mutation, acked: set<NodeId>)
    requires Proposing(cfg, s, n, rpc, m, acked) && AllPrepared(cfg, s, n, acked, m)
    requires n in t.nodes && t.nodes == s.nodes[n := t.nodes[n]] && s.applied <= t.applied && s.net <= t.net
    ensures n in cfg.nodes && acked <= cfg.nodes && n !in acked
    ensures Untouched(cfg, s, t, {n}) && AllPrepared(cfg, t, n, acked, m)
  {
    hide Ready, Holds, IsNext;
  }

  // a commit that is under way is finished by the leader and taken by every peer that prepared it
  lemma FinishesAndTakes(cfg: Config, s: State, n: NodeId, rpc: nat, m: Mutation, peers: set<NodeId>)
    returns (steps: seq<Step>, t: State)
    requires Proposing(cfg, s, n, rpc, m, peers) && 1 + |peers| >= cfg.quorum && AllPrepared(cfg, s, n, peers, m)
    ensures Leads(cfg, s, steps, t, peers + {n}) && Untouched(cfg, s, t, {n} + peers)
    ensures AllApplied(s, t, {n} + peers, m) && {n} + peers <= cfg.nodes
    ensures StampOf(m) in t.visible && t.visible[StampOf(m)] == m
  {
    hide *;
    var nodes := peers + {n};
    var mid := FinishesPrepared(cfg, s, n, rpc, m, peers, nodes);
    var taken;
    taken, t := TakesAll(cfg, mid, n, m, peers, nodes);
    steps := [FinishCommit(n)] + taken;
    LeadsOn(cfg, s, [FinishCommit(n)], mid, taken, t, nodes);
    StaysApplied(cfg, s, mid, t, {n}, peers, m);
    SameStart(cfg, s, mid, t, {n}, peers, m);
    JoinApplied(s, t, {n}, peers, m);
    UntouchedOn(cfg, s, mid, t, {n}, peers);
  }

  /** A leader with no commit under way, and peers that would answer a prepare of its next mutation and make
      a quorum with it, can commit that mutation with them alone: it becomes visible, and the leader and
      every one of the peers have then applied it. */
  lemma QuorumCanCommit(cfg: Config, s: State, n: NodeId, peers: set<NodeId>, m: Mutation)
    returns (steps: seq<Step>, t: State)
    requires Sound(cfg, s) && n in cfg.nodes && s.nodes[n].inflight.None? && s.nodes[n].c.role == Leader
    requires Proposable(cfg, s.nodes[n].c.term, s.nodes[n].store, m) && m.opId !in s.nodes[n].store.opIndex
    requires 1 + |peers| >= cfg.quorum && AllReady(cfg, s, n, peers, m)
    ensures Leads(cfg, s, steps, t, peers + {n}) && Outside(cfg, s, t, peers + {n})
    ensures AllApplied(s, t, peers + {n}, m)
    ensures StampOf(m) in t.visible && t.visible[StampOf(m)] == m
  {
    hide *;
    var nodes, begin := peers + {n}, BeginCommit(n, m);
    Member(cfg, s, n);
    Proposes(cfg, s, n, m);
    var first := Exec(cfg, s, begin);
    LeadsOne(cfg, s, begin, nodes);
    ReadyElsewhere(cfg, s, first, n, peers, m);
    var asked, mid := PreparesAll(cfg, first, n, s.nextRpc, m, {}, peers, nodes);
    assert {} + peers == peers;
    var done;
    done, t := FinishesAndTakes(cfg, mid, n, s.nextRpc, m, peers);
    LeadsOn(cfg, s, [begin], first, asked, mid, nodes);
    LeadsOn(cfg, s, [begin] + asked, mid, done, t, nodes);
    steps := [begin] + asked + done;
    ElsewhereOn(cfg, s, first, mid, {n}, peers + {n});
    assert {n} + peers == nodes && {n} + nodes == nodes && nodes + nodes == nodes;
    SameStores(cfg, s, mid, t, nodes, nodes, m);
    OutsideOn(cfg, s, mid, t, nodes, nodes);
  }

  lemma ReadyElsewhere(cfg: Config, s: State, t: State, n: NodeId, peers: set<NodeId>, m: Mutation)
    requires AllReady(cfg, s, n, peers, m) && Elsewhere(cfg, s, t, {n})
    ensures AllReady(cfg, t, n, peers, m) && AllPrepared(cfg, t, n, {}, m)
  {
    hide Ready;
  }
}
