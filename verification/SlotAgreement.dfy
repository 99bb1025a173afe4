/** Epoch-slot agreement: in every run, any two nodes that apply mutations with the same epoch,
    shard and sequence number apply the same mutation, whether it reached them by their own commit,
    a commit message, a recovery or a catch-up stream. */
module SlotAgreement {
  import opened Domain
  import opened Consensus
  import opened SourceSpec
  import opened PendingStore
  import opened Cluster
  import opened ElectionSafety

  predicate Visible(s: State, m: Mutation) {
    StampOf(m) in s.visible && s.visible[StampOf(m)] == m
  }

  // what a node holds and would apply or hand on was made visible by some leader
  predicate HoldsVisible(s: State, x: Node) {
    && (forall m :: m in x.store.history ==> Visible(s, m))
    && (forall op :: op in x.store.opIndex ==> Visible(s, x.store.opIndex[op]))
  }

  predicate CarriesVisible(s: State, msg: Message) {
    match msg
    case Commit(_, m) => Visible(s, m)
    case Served(_, m) => Visible(s, m)
    case OpIds(_, index) => forall op :: op in index ==> Visible(s, index[op])
    case _ => true
  }

  // some node has won the term
  predicate HasWin(s: State, term: nat) {
    exists w :: w in s.elected && w.term == term
  }

  // a node that leads the stamp's term is at or past it
  predicate LeaderPast(stamp: Stamp, x: Node) {
    x.c.role == Leader && x.c.term == stamp.epoch ==>
      stamp.shardId < |x.store.watermarks| && stamp.seqNo <= x.store.watermarks[stamp.shardId]
  }

  predicate LeadersPast(cfg: Config, s: State)
    requires s.nodes.Keys == cfg.nodes
  {
    forall stamp, n :: stamp in s.visible && n in cfg.nodes ==> LeaderPast(stamp, s.nodes[n])
  }

  ghost predicate AgreementInv(cfg: Config, s: State) {
    && ElectionInv(cfg, s)
    && (forall a :: a in s.applied ==> Visible(s, a.m))
    && (forall n :: n in cfg.nodes ==> HoldsVisible(s, s.nodes[n]))
    && (forall msg :: msg in s.net ==> CarriesVisible(s, msg))
    && (forall stamp :: stamp in s.visible ==> HasWin(s, stamp.epoch))
    && LeadersPast(cfg, s)
  }

  // what a step applies
  lemma AppliesNext(cfg: Config, x: Node, rpc: nat, step: Step)
    requires SoundNode(cfg, x) && LocallyEnabled(cfg, x, step)
    ensures var e := EffectOf(cfg, x, rpc, step); var y := e.node;
      && (e.visible ==> e.applied.Some?)
      && (e.applied.Some? ==>
            && (if e.visible then step.FinishCommit? && x.c.role == Leader && x.c.term == e.applied.value.commitId.epoch
                else (step.TakeCommit? || step.CatchUp?) && e.applied.value == step.m)
            && e.applied.value.commitId.shardId < |x.store.watermarks|
            && e.applied.value.commitId.seqNo == x.store.watermarks[e.applied.value.commitId.shardId] + 1
            && y.store.watermarks == x.store.watermarks[e.applied.value.commitId.shardId := e.applied.value.commitId.seqNo])
  {
    hide ApplyPrepared, UpToDate, Write, Holds, Remove, Proposable, IsPeer, SubHistory, DoFinishCommit, DoTakeReplicated;
    hide DoTimeout, DoGrantVote, DoCollectVote, DoEndElection, DoTakePrepare, DoTakeAbort, DoCheckLeader;
  }

  // a leader led before, and its watermarks move only when it applies
  lemma LeaderStays(cfg: Config, x: Node, rpc: nat, step: Step)
    requires SoundNode(cfg, x) && LocallyEnabled(cfg, x, step)
    ensures var e := EffectOf(cfg, x, rpc, step); var y := e.node;
      && (y.c.role == Leader && !e.win ==> x.c.role == Leader && y.c.term == x.c.term)
      && (y.c.role == Leader && e.applied.None? ==> y.store.watermarks == x.store.watermarks)
  {
    hide ApplyPrepared, UpToDate, Write, Holds, Remove, Proposable, IsPeer, SubHistory, DoFinishCommit, DoTakeReplicated;
    hide DoTimeout, DoGrantVote, DoCollectVote, DoEndElection, DoTakePrepare, DoTakeAbort, DoCheckLeader;
  }

  /** A step applies a mutation from its own commit or from the message it takes, and only the
      next one of its shard. */
  lemma LocalApply(cfg: Config, x: Node, rpc: nat, step: Step)
    requires SoundNode(cfg, x) && LocallyEnabled(cfg, x, step)
    ensures var e := EffectOf(cfg, x, rpc, step); var y := e.node;
      && (e.visible ==> e.applied.Some?)
      && (e.applied.Some? ==>
            && (if e.visible then step.FinishCommit? && x.c.role == Leader && x.c.term == e.applied.value.commitId.epoch
                else (step.TakeCommit? || step.CatchUp?) && e.applied.value == step.m)
            && e.applied.value.commitId.shardId < |x.store.watermarks|
            && e.applied.value.commitId.seqNo == x.store.watermarks[e.applied.value.commitId.shardId] + 1
            && y.store.watermarks == x.store.watermarks[e.applied.value.commitId.shardId := e.applied.value.commitId.seqNo])
      // a leader's watermarks move only when it applies
      && (y.c.role == Leader && !e.win ==> x.c.role == Leader && y.c.term == x.c.term)
      && (y.c.role == Leader && e.applied.None? ==> y.store.watermarks == x.store.watermarks)
  {
    hide *;
    AppliesNext(cfg, x, rpc, step);
    LeaderStays(cfg, x, rpc, step);
  }

  /** What any step adds to the acting node's history and op index. */
  lemma LocalHoldings(cfg: Config, x: Node, rpc: nat, step: Step)
    requires SoundNode(cfg, x) && LocallyEnabled(cfg, x, step)
    ensures var e := EffectOf(cfg, x, rpc, step); var y := e.node;
      && (forall m :: m in y.store.history ==> m in x.store.history || e.applied == Some(m))
      && (forall op :: op in y.store.opIndex ==>
            || (op in x.store.opIndex && y.store.opIndex[op] == x.store.opIndex[op])
            || e.applied == Some(y.store.opIndex[op])
            || (step.InstallSnapshot? && op in step.snapshot.opIndex && y.store.opIndex[op] == step.snapshot.opIndex[op]))
  {
    var e := EffectOf(cfg, x, rpc, step);
    HistoryLocally(cfg, x, rpc, step);
    hide EffectOf, LocallyEnabled;
  }

  lemma HistoryLocally(cfg: Config, x: Node, rpc: nat, step: Step)
    requires SoundNode(cfg, x) && LocallyEnabled(cfg, x, step)
    ensures var e := EffectOf(cfg, x, rpc, step); var y := e.node;
      || (e.applied.Some? && y.store.history == x.store.history + [e.applied.value]
          && y.store.opIndex == x.store.opIndex[e.applied.value.opId := e.applied.value])
      || (step.InstallSnapshot? && y.store == step.snapshot && y.store.history == [])
      || (SubHistory(y.store.history, x.store.history) && y.store.opIndex == x.store.opIndex)
  {
    hide ApplyPrepared, UpToDate, Write, Holds, Remove, Proposable, IsPeer, DoFinishCommit, DoTakeReplicated;
    hide DoTimeout, DoGrantVote, DoCollectVote, DoEndElection, DoTakePrepare, DoTakeAbort, DoCheckLeader;
  }

  /** What any step sends. */
  lemma LocalSent(cfg: Config, x: Node, rpc: nat, step: Step)
    requires SoundNode(cfg, x) && LocallyEnabled(cfg, x, step)
    ensures var e := EffectOf(cfg, x, rpc, step);
      e.sent.Some? ==>
        match e.sent.value
        case Commit(_, m) => (e.applied == Some(m) && e.visible) || m in x.store.history
                             || (m.opId in x.store.opIndex && x.store.opIndex[m.opId] == m)
        case Served(_, m) => m in x.store.history
        case OpIds(_, index) => index == x.store.opIndex
        case _ => true
  {
    hide ApplyPrepared, UpToDate, Write, Holds, Remove, Proposable, IsPeer, SubHistory;
  }

  /** A leader's own commit never meets a visible mutation at its stamp. */
  lemma CommitIsFresh(cfg: Config, s: State, step: Step)
    requires cfg.Valid() && AgreementInv(cfg, s) && Enabled(cfg, s, step)
    ensures var e := EffectOf(cfg, s.nodes[step.n], s.nextRpc, step);
      e.applied.Some? && e.visible ==> StampOf(e.applied.value) !in s.visible
  {
    hide EffectOf, LocallyEnabled;
    var x := s.nodes[step.n];
    LocalApply(cfg, x, s.nextRpc, step);
    var e := EffectOf(cfg, x, s.nextRpc, step);
    if e.applied.Some? && e.visible {
      var stamp := StampOf(e.applied.value);
      assert stamp in s.visible ==> LeaderPast(stamp, x);
    }
  }

  /** What was visible stays visible. */
  lemma VisibleStays(cfg: Config, s: State, step: Step, m: Mutation)
    requires cfg.Valid() && AgreementInv(cfg, s) && Enabled(cfg, s, step) && Visible(s, m)
    ensures Visible(Exec(cfg, s, step), m)
  {
    CommitIsFresh(cfg, s, step);
    Moved(cfg, s, step);
    hide *;
    StaysVisible(s, Exec(cfg, s, step), EffectOf(cfg, s.nodes[step.n], s.nextRpc, step), m);
  }

  lemma StaysVisible(s: State, t: State, e: Effect, m: Mutation)
    requires t.visible == if e.applied.Some? && e.visible then s.visible[StampOf(e.applied.value) := e.applied.value] else s.visible
    requires e.applied.Some? && e.visible ==> StampOf(e.applied.value) !in s.visible
    requires Visible(s, m)
    ensures Visible(t, m)
  {
  }

  // who acts, and that no one else moves
  lemma ActorMoves(cfg: Config, s: State, step: Step)
    requires AgreementInv(cfg, s) && Enabled(cfg, s, step)
    ensures s.nodes.Keys == cfg.nodes && step.n in cfg.nodes
    ensures SoundNode(cfg, s.nodes[step.n]) && LocallyEnabled(cfg, s.nodes[step.n], step)
    ensures Exec(cfg, s, step).nodes == s.nodes[step.n := EffectOf(cfg, s.nodes[step.n], s.nextRpc, step).node]
  {
    hide EffectOf, LocallyEnabled, SoundNode, Visible, HoldsVisible, CarriesVisible, LeadersPast;
  }

  // the mutation or the op ids that a step takes from the network
  lemma TakenIsVisible(cfg: Config, s: State, step: Step)
    requires AgreementInv(cfg, s) && Enabled(cfg, s, step)
    ensures step.TakeCommit? || step.CatchUp? ==> Visible(s, step.m)
    ensures step.InstallSnapshot? ==>
      forall op :: op in step.snapshot.opIndex ==> Visible(s, step.snapshot.opIndex[op])
  {
    hide EffectOf, LocallyEnabled, Visible, HoldsVisible, LeadersPast, ElectionInv;
    if step.TakeCommit? || step.CatchUp? || step.InstallSnapshot? {
      assert CarriesVisible(s, Consumes(s.nodes[step.n], step).value);
    }
  }

  /** Whatever a step applies is visible after it. */
  lemma AppliedIsVisible(cfg: Config, s: State, step: Step)
    requires cfg.Valid() && AgreementInv(cfg, s) && Enabled(cfg, s, step)
    ensures var e := EffectOf(cfg, s.nodes[step.n], s.nextRpc, step);
      e.applied.Some? ==> Visible(Exec(cfg, s, step), e.applied.value)
  {
    var x := s.nodes[step.n];
    ActorMoves(cfg, s, step);
    TakenIsVisible(cfg, s, step);
    MadeVisible(cfg, s, step);
    hide *;
    LocalApply(cfg, x, s.nextRpc, step);
    var e := EffectOf(cfg, x, s.nextRpc, step);
    if e.applied.Some? && !e.visible {
      VisibleStays(cfg, s, step, e.applied.value);
    }
  }

  lemma MadeVisible(cfg: Config, s: State, step: Step)
    requires Enabled(cfg, s, step)
    ensures var e := EffectOf(cfg, s.nodes[step.n], s.nextRpc, step);
      e.applied.Some? && e.visible ==> Visible(Exec(cfg, s, step), e.applied.value)
  {
    hide EffectOf, LocallyEnabled, Consumes;
  }

  lemma VisibleGrows(cfg: Config, s: State, step: Step)
    requires cfg.Valid() && AgreementInv(cfg, s) && Enabled(cfg, s, step)
    ensures forall m :: Visible(s, m) ==> Visible(Exec(cfg, s, step), m)
  {
    hide Visible, Exec, Enabled, AgreementInv;
    forall m | Visible(s, m)
      ensures Visible(Exec(cfg, s, step), m)
    {
      VisibleStays(cfg, s, step, m);
    }
  }

  // what a node holds after a step, when all it took was visible
  lemma HeldFrom(s: State, t: State, x: Node, y: Node, applied: Option<Mutation>, taken: map<string, Mutation>)
    requires HoldsVisible(s, x) && forall m :: Visible(s, m) ==> Visible(t, m)
    requires applied.Some? ==> Visible(t, applied.value)
    requires forall op :: op in taken ==> Visible(s, taken[op])
    requires forall m :: m in y.store.history ==> m in x.store.history || applied == Some(m)
    requires forall op :: op in y.store.opIndex ==>
      || (op in x.store.opIndex && y.store.opIndex[op] == x.store.opIndex[op])
      || applied == Some(y.store.opIndex[op])
      || (op in taken && y.store.opIndex[op] == taken[op])
    ensures HoldsVisible(t, y)
  {
    hide Visible;
  }

  lemma HeldBefore(cfg: Config, s: State, n: NodeId)
    requires AgreementInv(cfg, s) && n in cfg.nodes
    ensures n in s.nodes && HoldsVisible(s, s.nodes[n])
  {
    hide Visible, HoldsVisible, CarriesVisible, LeadersPast, HasWin;
  }

  // the acting node's history and op index
  lemma ActorHolds(cfg: Config, s: State, step: Step)
    requires cfg.Valid() && AgreementInv(cfg, s) && Enabled(cfg, s, step)
    ensures HoldsVisible(Exec(cfg, s, step), EffectOf(cfg, s.nodes[step.n], s.nextRpc, step).node)
  {
    var x := s.nodes[step.n];
    ActorMoves(cfg, s, step);
    HeldBefore(cfg, s, step.n);
    TakenIsVisible(cfg, s, step);
    AppliedIsVisible(cfg, s, step);
    VisibleGrows(cfg, s, step);
    hide *;
    LocalHoldings(cfg, x, s.nextRpc, step);
    var e := EffectOf(cfg, x, s.nextRpc, step);
    HeldFrom(s, Exec(cfg, s, step), x, e.node, e.applied, if step.InstallSnapshot? then step.snapshot.opIndex else map[]);
  }

  lemma HoldsVisibleGrows(s: State, t: State, x: Node)
    requires HoldsVisible(s, x) && forall m :: Visible(s, m) ==> Visible(t, m)
    ensures HoldsVisible(t, x)
  {
    hide Visible;
  }

  lemma AppliedKept(cfg: Config, s: State, step: Step)
    requires cfg.Valid() && AgreementInv(cfg, s) && Enabled(cfg, s, step)
    ensures var t := Exec(cfg, s, step); forall a :: a in t.applied ==> Visible(t, a.m)
  {
    AppliedIsVisible(cfg, s, step);
    VisibleGrows(cfg, s, step);
    AppliedBefore(cfg, s);
    AppliedGrows(cfg, s, step);
    hide *;
  }

  lemma AppliedBefore(cfg: Config, s: State)
    requires AgreementInv(cfg, s)
    ensures forall a :: a in s.applied ==> Visible(s, a.m)
  {
    hide Visible, ElectionInv, HoldsVisible, CarriesVisible, LeadersPast, HasWin;
  }

  lemma AppliedGrows(cfg: Config, s: State, step: Step)
    requires Enabled(cfg, s, step)
    ensures var t := Exec(cfg, s, step); var e := EffectOf(cfg, s.nodes[step.n], s.nextRpc, step);
      forall a :: a in t.applied ==> a in s.applied || e.applied == Some(a.m)
  {
    hide EffectOf, LocallyEnabled, Consumes;
  }

  lemma HoldingsKept(cfg: Config, s: State, step: Step)
    requires cfg.Valid() && AgreementInv(cfg, s) && Enabled(cfg, s, step)
    ensures var t := Exec(cfg, s, step);
      t.nodes.Keys == cfg.nodes && forall n :: n in cfg.nodes ==> HoldsVisible(t, t.nodes[n])
  {
    ActorMoves(cfg, s, step);
    hide *;
    ActorHolds(cfg, s, step);
    VisibleGrows(cfg, s, step);
    var t := Exec(cfg, s, step);
    forall n | n in cfg.nodes
      ensures HoldsVisible(t, t.nodes[n])
    {
      if n != step.n {
        HeldBefore(cfg, s, n);
        HoldsVisibleGrows(s, t, s.nodes[n]);
      }
    }
  }

  lemma SentIsVisible(cfg: Config, s: State, step: Step)
    requires cfg.Valid() && AgreementInv(cfg, s) && Enabled(cfg, s, step)
    ensures var e := EffectOf(cfg, s.nodes[step.n], s.nextRpc, step);
      e.sent.Some? ==> CarriesVisible(Exec(cfg, s, step), e.sent.value)
  {
    var x := s.nodes[step.n];
    ActorMoves(cfg, s, step);
    LocalSent(cfg, x, s.nextRpc, step);
    assert HoldsVisible(s, x);
    hide EffectOf, LocallyEnabled, Visible, Exec, Enabled, AgreementInv;
    AppliedIsVisible(cfg, s, step);
    VisibleGrows(cfg, s, step);
  }

  lemma MessagesKept(cfg: Config, s: State, step: Step)
    requires cfg.Valid() && AgreementInv(cfg, s) && Enabled(cfg, s, step)
    ensures var t := Exec(cfg, s, step); forall msg :: msg in t.net ==> CarriesVisible(t, msg)
  {
    SentIsVisible(cfg, s, step);
    VisibleGrows(cfg, s, step);
    hide EffectOf, LocallyEnabled, Visible, Consumes, ElectionInv, HoldsVisible, CarriesVisible, LeadersPast, HasWin;
    var t := Exec(cfg, s, step);
    forall msg | msg in s.net
      ensures CarriesVisible(t, msg)
    {
      CarriedVisibleGrows(s, t, msg);
    }
  }

  lemma CarriedVisibleGrows(s: State, t: State, msg: Message)
    requires CarriesVisible(s, msg) && forall m :: Visible(s, m) ==> Visible(t, m)
    ensures CarriesVisible(t, msg)
  {
    hide Visible;
  }

  /** A node that has just won a term finds nothing visible in it. */
  lemma WinFindsNothing(cfg: Config, s: State, step: Step, stamp: Stamp)
    requires cfg.Valid() && AgreementInv(cfg, s) && Enabled(cfg, s, step) && stamp in s.visible
    requires EffectOf(cfg, s.nodes[step.n], s.nextRpc, step).win
    ensures stamp.epoch != Exec(cfg, s, step).nodes[step.n].c.term
  {
    ElectionInvKept(cfg, s, step);
    LocalElection(cfg, s.nodes[step.n], s.nextRpc, step);
    hide EffectOf, LocallyEnabled;
    var t := Exec(cfg, s, step);
    assert HasWin(s, stamp.epoch);
    var w :| w in s.elected && w.term == stamp.epoch;
    var won := Win(t.nodes[step.n].c.term, step.n);
    if stamp.epoch == won.term {
      OneWinnerPerTerm(cfg, t, w, won);
    }
  }

  lemma LocalStaysPast(cfg: Config, x: Node, rpc: nat, step: Step, stamp: Stamp)
    requires SoundNode(cfg, x) && LocallyEnabled(cfg, x, step) && LeaderPast(stamp, x)
    requires var e := EffectOf(cfg, x, rpc, step); e.win ==> stamp.epoch != e.node.c.term
    ensures LeaderPast(stamp, EffectOf(cfg, x, rpc, step).node)
  {
    LocalApply(cfg, x, rpc, step);
    hide EffectOf, LocallyEnabled;
  }

  lemma PastBefore(cfg: Config, s: State, stamp: Stamp, n: NodeId)
    requires AgreementInv(cfg, s) && stamp in s.visible && n in cfg.nodes
    ensures n in s.nodes && LeaderPast(stamp, s.nodes[n])
  {
    hide LeaderPast, HoldsVisible, Visible, CarriesVisible, HasWin;
  }

  // a stamp that was visible before
  lemma OldStampKept(cfg: Config, s: State, step: Step, stamp: Stamp, n: NodeId)
    requires cfg.Valid() && AgreementInv(cfg, s) && Enabled(cfg, s, step) && stamp in s.visible && n in cfg.nodes
    ensures var t := Exec(cfg, s, step); n in t.nodes && LeaderPast(stamp, t.nodes[n])
  {
    ActorMoves(cfg, s, step);
    PastBefore(cfg, s, stamp, n);
    hide *;
    if n == step.n {
      if EffectOf(cfg, s.nodes[n], s.nextRpc, step).win {
        WinFindsNothing(cfg, s, step, stamp);
      }
      LocalStaysPast(cfg, s.nodes[n], s.nextRpc, step, stamp);
    }
  }

  // the stamp that this step makes visible
  lemma NewStampKept(cfg: Config, s: State, step: Step, stamp: Stamp, n: NodeId)
    requires cfg.Valid() && AgreementInv(cfg, s) && Enabled(cfg, s, step) && n in cfg.nodes
    requires stamp in Exec(cfg, s, step).visible && stamp !in s.visible
    ensures var t := Exec(cfg, s, step);
      Win(stamp.epoch, step.n) in t.elected && n in t.nodes && LeaderPast(stamp, t.nodes[n])
  {
    ElectionInvKept(cfg, s, step);
    ActorMoves(cfg, s, step);
    NewStampIsLeaders(cfg, s, step, stamp);
    var t := Exec(cfg, s, step);
    var won := Win(stamp.epoch, step.n);
    hide Exec, Enabled, EffectOf, LocallyEnabled, AgreementInv, ElectionInv;
    if t.nodes[n].c.role == Leader && t.nodes[n].c.term == stamp.epoch {
      LeaderHasWon(cfg, t, n);
      OneWinnerPerTerm(cfg, t, Win(stamp.epoch, n), won);
    }
  }

  // it is a stamp of the acting leader's term, and its shard has just moved there
  lemma NewStampIsLeaders(cfg: Config, s: State, step: Step, stamp: Stamp)
    requires cfg.Valid() && AgreementInv(cfg, s) && Enabled(cfg, s, step)
    requires stamp in Exec(cfg, s, step).visible && stamp !in s.visible
    ensures var t := Exec(cfg, s, step);
      && Win(stamp.epoch, step.n) in t.elected
      && step.n in t.nodes && LeaderPast(stamp, t.nodes[step.n])
  {
    var x := s.nodes[step.n];
    LeaderHasWon(cfg, s, step.n);
    ActorMoves(cfg, s, step);
    Moved(cfg, s, step);
    hide EffectOf, LocallyEnabled, AgreementInv, ElectionInv, SoundNode, Enabled, Exec;
    LocalApply(cfg, x, s.nextRpc, step);
  }

  lemma LeaderHasWon(cfg: Config, s: State, n: NodeId)
    requires ElectionInv(cfg, s) && n in cfg.nodes
    ensures s.nodes[n].c.role == Leader ==> Win(s.nodes[n].c.term, n) in s.elected
  {
  }

  lemma StampKept(cfg: Config, s: State, step: Step, stamp: Stamp, n: NodeId)
    requires cfg.Valid() && AgreementInv(cfg, s) && Enabled(cfg, s, step) && n in cfg.nodes
    requires stamp in Exec(cfg, s, step).visible
    ensures var t := Exec(cfg, s, step);
      n in t.nodes && LeaderPast(stamp, t.nodes[n]) && HasWin(t, stamp.epoch)
  {
    var t := Exec(cfg, s, step);
    if stamp in s.visible {
      OldStampKept(cfg, s, step, stamp, n);
      hide EffectOf, Enabled;
      assert HasWin(s, stamp.epoch);
      var w :| w in s.elected && w.term == stamp.epoch;
      assert w in t.elected;
    } else {
      hide Exec, Enabled;
      NewStampKept(cfg, s, step, stamp, n);
      assert Win(stamp.epoch, step.n) in t.elected;
    }
  }

  lemma StampsKept(cfg: Config, s: State, step: Step)
    requires cfg.Valid() && AgreementInv(cfg, s) && Enabled(cfg, s, step)
    ensures var t := Exec(cfg, s, step);
      && t.nodes.Keys == cfg.nodes
      && forall stamp, n :: stamp in t.visible && n in cfg.nodes ==> LeaderPast(stamp, t.nodes[n]) && HasWin(t, stamp.epoch)
  {
    ActorMoves(cfg, s, step);
    var t := Exec(cfg, s, step);
    assert t.nodes.Keys == cfg.nodes;
    hide *;
    forall stamp, n | stamp in t.visible && n in cfg.nodes
      ensures LeaderPast(stamp, t.nodes[n]) && HasWin(t, stamp.epoch)
    {
      StampKept(cfg, s, step, stamp, n);
    }
  }

  lemma LeadersStayPast(cfg: Config, s: State, step: Step)
    requires cfg.Valid() && AgreementInv(cfg, s) && Enabled(cfg, s, step)
    ensures var t := Exec(cfg, s, step);
      t.nodes.Keys == cfg.nodes && LeadersPast(cfg, t) && forall stamp :: stamp in t.visible ==> HasWin(t, stamp.epoch)
  {
    ActorMoves(cfg, s, step);
    StampsKept(cfg, s, step);
    hide Exec, Enabled, EffectOf, LocallyEnabled, SoundNode, AgreementInv, LeaderPast, HasWin;
    var t := Exec(cfg, s, step);
    assert forall stamp :: stamp in t.visible && step.n in cfg.nodes ==> LeaderPast(stamp, t.nodes[step.n]);
  }

  lemma AgreementInvKept(cfg: Config, s: State, step: Step)
    requires cfg.Valid() && AgreementInv(cfg, s) && Enabled(cfg, s, step)
    ensures AgreementInv(cfg, Exec(cfg, s, step))
  {
    ElectionInvKept(cfg, s, step);
    hide Exec, Enabled, ElectionInv, Visible, HoldsVisible, CarriesVisible, LeadersPast, HasWin;
    AppliedKept(cfg, s, step);
    HoldingsKept(cfg, s, step);
    MessagesKept(cfg, s, step);
    LeadersStayPast(cfg, s, step);
  }

  lemma InitAgrees(cfg: Config, s: State)
    requires Init(cfg, s) && ElectionInv(cfg, s)
    ensures AgreementInv(cfg, s)
  {
  }

  lemma {:induction false} RunKeepsAgreement(cfg: Config, states: seq<State>, steps: seq<Step>, i: nat)
    requires cfg.Valid() && Run(cfg, states, steps) && i < |states|
    ensures AgreementInv(cfg, states[i])
  {
    hide Exec, Enabled, Init, AgreementInv;
    if i == 0 {
      RunKeepsElectionInv(cfg, states, steps, 0);
      InitAgrees(cfg, states[0]);
    } else {
      RunKeepsAgreement(cfg, states, steps, i - 1);
      AgreementInvKept(cfg, states[i - 1], steps[i - 1]);
    }
  }

  /** The theorem. */
  lemma EpochSlotAgreement(cfg: Config, states: seq<State>, steps: seq<Step>, i: nat, a: Applying, b: Applying)
    requires cfg.Valid() && Run(cfg, states, steps) && i < |states|
    requires a in states[i].applied && b in states[i].applied
    requires a.m.commitId.epoch == b.m.commitId.epoch
    requires a.m.commitId.shardId == b.m.commitId.shardId && a.m.commitId.seqNo == b.m.commitId.seqNo
    ensures a.m == b.m
  {
    hide Exec, Enabled;
    RunKeepsAgreement(cfg, states, steps, i);
  }
}
