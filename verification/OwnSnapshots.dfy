/** Rolling back to a snapshot of one's own. A node archives snapshots of its source and a rollback names
    one of them (the rollback route of crates/globacl-commitd/src/app/routes.rs). Such a snapshot holds
    no Delete record, because a committed Delete removes its record, so a rollback to it always arrives. */
module OwnSnapshots {
  import opened Domain
  import opened SourceSpec
  import opened Replay
  import opened Loading
  import opened History
  import opened Rollback
  import Recovery

  /** Every record under its own key, and no Delete record. */
  ghost predicate Clean(s: Source) {
    Keyed(TablesOf(s)) && NoDeletes(TablesOf(s))
  }

  lemma CleanTables(s: Source)
    ensures Clean(s) <==>
      && (forall k :: k in s.entries ==> s.entries[k].Key() == k && s.entries[k].action != Delete)
      && (forall k :: k in s.rules ==> s.rules[k].Key() == k && s.rules[k].action != Delete)
  {
    var t := TablesOf(s);
    if Clean(s) {
      forall k | k in s.entries
        ensures s.entries[k].action != Delete
      {
        assert t.At(EntryKey(k)).value.Action() != Delete;
      }
      forall k | k in s.rules
        ensures s.rules[k].action != Delete
      {
        assert t.At(RuleItemKey(k)).value.Action() != Delete;
      }
    }
  }

  lemma AppliedClean(s: Source, m: Mutation, t: Source)
    requires Clean(s) && t.entries == EntriesAfter(s.entries, m) && t.rules == RulesAfter(s.rules, m)
    ensures Clean(t)
  {
    CleanTables(s);
    CleanTables(t);
    hide Clean;
  }

  lemma SameTablesClean(s: Source, t: Source)
    requires Clean(s) && t.entries == s.entries && t.rules == s.rules
    ensures Clean(t)
  {
  }

  lemma {:induction false} ReplayedClean(s: Source, ms: seq<Mutation>)
    requires s.Shaped() && Clean(s) && ReplayLoaded(s, ms).Ok?
    ensures Clean(ReplayLoaded(s, ms).value)
    decreases |ms|
  {
    hide Clean;
    if ms != [] {
      AppliedClean(s, ms[0], ApplyLoaded(s, ms[0]).value);
      ReplayedClean(ApplyLoaded(s, ms[0]).value, ms[1..]);
    }
  }

  lemma {:induction false} RetainedClean(s: Source, replayed: seq<nat>, ms: seq<Mutation>)
    requires s.Shaped() && |replayed| == s.shardCount && Clean(s) && RetainLoop(s, replayed, ms).Ok?
    ensures Clean(RetainLoop(s, replayed, ms).value.0)
    decreases |ms|
  {
    hide Clean;
    if ms != [] {
      var m := ms[0];
      var t := RetainNext(s, m).value;
      if m.commitId.seqNo <= s.watermarks[m.commitId.shardId] {
        SameTablesClean(s, t);
      } else {
        AppliedClean(s, m, t);
      }
      RetainedClean(t, replayed[m.commitId.shardId := m.commitId.seqNo], ms[1..]);
    }
  }

  // the snapshot that an origin starts from, if it does
  function SnapshotOf(o: Origin): Option<Snapshot> {
    match o
    case SnapshotAndTail(_, _, snap, _, _) => Some(snap)
    case SnapshotAndRetained(_, _, snap, _, _, _) => Some(snap)
    case _ => None
  }

  lemma BaseClean(n: nat, region: string, snap: Snapshot, floor: seq<nat>, index: map<string, Mutation>, s: Source)
    requires n > 0 && |snap.watermarks| == |floor| == n && Recovery.IsSnapshotOf(snap, s) && Clean(s)
    ensures Clean(FromSnapshot(n, region, snap, floor).(opIndex := index))
  {
    SameTablesClean(s, FromSnapshot(n, region, snap, floor).(opIndex := index));
  }

  lemma NewClean(n: nat, region: string)
    ensures Clean(New(n, region))
  {
  }

  /** A source built from nothing, from logs, or on a snapshot of a clean source is clean. */
  lemma BuiltClean(o: Origin, s: Source)
    requires o.n > 0 && Build(o).Ok?
    requires SnapshotOf(o).Some? ==> Recovery.IsSnapshotOf(SnapshotOf(o).value, s) && Clean(s)
    ensures Clean(Build(o).value)
  {
    hide Clean, ReplayLoaded, RetainLoop, SortForLoad, InsertOps;
    hide FromSnapshotAndRetained, FromSnapshotAndMutations, Recovery.IsSnapshotOf;
    match o
    case Empty(n, region) => NewClean(n, region);
    case Logs(n, region, ms) =>
      NewClean(n, region);
      ReplayedClean(New(n, region), SortForLoad(ms));
    case SnapshotAndTail(n, region, snap, idempotency, ms) =>
      TailIsReplay(n, region, snap, idempotency, ms);
      BaseClean(n, region, snap, snap.watermarks, InsertOps(map[], idempotency).value, s);
      ReplayedClean(FromSnapshot(n, region, snap, snap.watermarks).(opIndex := InsertOps(map[], idempotency).value),
                    SortForLoad(ms));
    case SnapshotAndRetained(n, region, snap, idempotency, ms, floor) =>
      RetainedPassed(n, region, snap, idempotency, ms, floor);
      RetainedIsLoop(n, region, snap, idempotency, ms, floor);
      BaseClean(n, region, snap, floor, InsertOps(map[], idempotency).value, s);
      RetainedClean(RetainBase(n, region, snap, idempotency, floor), floor, SortForLoad(ms));
  }

  lemma OperateClean(s: Source, op: Op)
    requires s.Shaped() && InShards(s.history, s.shardCount) && Clean(s)
    ensures Clean(Operate(s, op))
  {
    hide Clean, InShards;
    var t := Operate(s, op);
    match op
    case Replicate(m) =>
      if t == s {
      } else {
        AppliedClean(s, m, t);
      }
    case Direct(m) =>
      if CommitDirect(s, m).Ok? {
        AppliedClean(s, m, t);
      }
    case CompactTo(_) => SameTablesClean(s, t);
    case SetEpoch(_) => SameTablesClean(s, t);
  }

  // ---------- the lives of one node ----------

  datatype Event =
    | Runs(op: Op)                       // an operation on the source
    | Loads(origin: Origin, from: nat)   // a restart; its snapshot, if any, is of the state numbered from

  ghost predicate Follows(states: seq<Source>, i: nat, e: Event)
    requires i + 1 < |states|
  {
    match e
    case Runs(op) =>
      && states[i].Shaped() && InShards(states[i].history, states[i].shardCount)
      && states[i + 1] == Operate(states[i], op)
    case Loads(o, from) =>
      && o.n > 0 && Build(o) == Ok(states[i + 1])
      && (SnapshotOf(o).Some? ==> from <= i && Recovery.IsSnapshotOf(SnapshotOf(o).value, states[from]))
  }

  /** A node's sources, from an empty one, over any number of restarts. */
  ghost predicate NodeLife(states: seq<Source>, events: seq<Event>) {
    && |states| == |events| + 1
    && (exists n: nat, region :: states[0] == New(n, region))
    && forall i :: 0 <= i < |events| ==> Follows(states, i, events[i])
  }

  /** Whatever a node does, its tables are keyed and hold no Delete record. */
  lemma {:induction false} CleanThroughout(states: seq<Source>, events: seq<Event>, i: nat)
    requires NodeLife(states, events) && i < |states|
    ensures Clean(states[i])
    decreases i
  {
    hide Clean, Operate, Build, InShards, Recovery.IsSnapshotOf;
    if i == 0 {
      var n: nat, region :| states[0] == New(n, region);
      NewClean(n, region);
    } else {
      var e := events[i - 1];
      assert Follows(states, i - 1, e);
      match e
      case Runs(op) =>
        CleanThroughout(states, events, i - 1);
        OperateClean(states[i - 1], op);
      case Loads(o, from) =>
        if SnapshotOf(o).Some? {
          CleanThroughout(states, events, from);
          BuiltClean(o, states[from]);
        } else {
          BuiltClean(o, states[i - 1]);
        }
    }
  }

  /** Rolling back to a snapshot that the node took of itself, at any time, reaches it; doing so again
      emits nothing. */
  lemma OwnRollbackArrives(states: seq<Source>, events: seq<Event>, i: nat, j: nat, snap: Snapshot,
                           prefix: string, clock: Clock, orders: Orders, again: string, later: Clock, orders2: Orders)
    requires NodeLife(states, events) && i < |states| && j < |states| && states[i].Shaped()
    requires Recovery.IsSnapshotOf(snap, states[j]) && snap.shardCount == states[i].shardCount
    requires OrdersOf(orders, TablesOf(states[i]), TargetOf(snap))
    ensures var r := Restore(states[i], snap, prefix, clock, orders);
      && r.Ok? && SameTables(TablesOf(r.value.source), TablesOf(states[j]))
      && (OrdersOf(orders2, TablesOf(r.value.source), TargetOf(snap)) ==>
            var r2 := Restore(r.value.source, snap, again, later, orders2); r2.Ok? && r2.value.emitted == [])
  {
    CleanThroughout(states, events, i);
    CleanThroughout(states, events, j);
    assert TargetOf(snap) == TablesOf(states[j]);
    hide NodeLife, OrdersOf, Keyed, NoDeletes, SameTables, DeletesLive, TargetOf, TablesOf, Deletes, Puts;
    CleanDeletes(TablesOf(states[i]), TargetOf(snap));
    RestoresIff(states[i], snap, prefix, clock, orders);
    if OrdersOf(orders2, TablesOf(Restore(states[i], snap, prefix, clock, orders).value.source), TargetOf(snap)) {
      SecondRestoreSilentIff(states[i], snap, prefix, clock, orders, again, later, orders2);
    }
  }

  // ---------- a target that is never reached ----------

  /** A decoded snapshot may hold a Delete record. Rolled back to by an empty node, it is not reached:
      the record is committed and thereby removed, and a second rollback commits it again. */
  lemma DeleteRecordIsMissed(e: DenyEntry, region: string, prefix: string, clock: Clock, again: string, later: Clock)
    requires e.action == Delete && e.shardId == 0
    ensures var s, snap := New(1, region), Snapshot(1, [0], [e], []); var orders := Orders([], [e], [], []);
      && OrdersOf(orders, TablesOf(s), TargetOf(snap))
      && var r := Restore(s, snap, prefix, clock, orders);
      && r.Ok? && !SameTables(TablesOf(r.value.source), TargetOf(snap))
      && (forall orders2 :: OrdersOf(orders2, TablesOf(r.value.source), TargetOf(snap)) ==>
            var r2 := Restore(r.value.source, snap, again, later, orders2); r2.Ok? && r2.value.emitted != [])
  {
    var s, snap := New(1, region), Snapshot(1, [0], [e], []);
    var orders := Orders([], [e], [], []);
    SingleEntry(e);
    NewClean(1, region);
    var target := TargetOf(snap);
    assert target.At(EntryKey(e.Key())).value.Action() == Delete && TablesOf(s).At(EntryKey(e.Key())) == None;
    assert OrdersOf(orders, TablesOf(s), target);
    hide OrdersOf, TargetOf, TablesOf, SameTables, Deletes, Puts, Listing, Keyed, NoDeletes;
    RestoresIff(s, snap, prefix, clock, orders);
    var t := Restore(s, snap, prefix, clock, orders).value.source;
    forall orders2 | OrdersOf(orders2, TablesOf(t), target)
      ensures Restore(t, snap, again, later, orders2).Ok? && Restore(t, snap, again, later, orders2).value.emitted != []
    {
      SecondRestoreSilentIff(s, snap, prefix, clock, orders, again, later, orders2);
    }
  }

  lemma SingleEntry(e: DenyEntry)
    ensures EntryTable([e]) == map[e.Key() := e]
    ensures Listing([e], EntryKeyOf, map[e.Key() := e])
  {
    assert [e][..0] == [];
    assert EntryKeyOf(e) == e.Key();
  }
}
