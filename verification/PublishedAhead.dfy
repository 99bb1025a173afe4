/** A run of a commitd with a publisher, from an empty node, after which it cannot restart: a
    compaction cuts the log up to the published offset, the rest is then published, and no other
    compaction follows. The logs still start at the old offset, and load_source_of_truth
    (crates/globacl-commitd/src/app/commit.rs) expects them to start at the new one. */
module PublishedAhead {
  import opened Domain
  import opened SourceSpec
  import opened Loading
  import opened Recovery
  import opened Publisher
  import Reload
  import StableSort

  ghost predicate Reachable(x: Node) {
    exists states, steps :: Publisher.Life(states, steps) && states[|steps|] == x
  }

  lemma ExtendsAt(states: seq<Node>, steps: seq<Publisher.Step>, step: Publisher.Step, y: Node, i: nat)
    requires Publisher.Life(states, steps) && i <= |steps|
    requires var x := states[|steps|]; Shaped(x) && Publisher.Enabled(x, step) && y == Publisher.Exec(x, step)
    ensures var states', steps' := states + [y], steps + [step];
      && Shaped(states'[i]) && Publisher.Enabled(states'[i], steps'[i])
      && states'[i + 1] == Publisher.Exec(states'[i], steps'[i])
  {
    var states', steps' := states + [y], steps + [step];
    if i < |steps| {
      assert states'[i] == states[i] && states'[i + 1] == states[i + 1] && steps'[i] == steps[i];
    } else {
      assert states'[i] == states[i] && states'[i + 1] == y && steps'[i] == step;
    }
    hide Publisher.Exec, Publisher.Enabled, Publisher.Fresh, Shaped;
  }

  lemma Reaches(x: Node, step: Publisher.Step)
    requires Reachable(x) && Shaped(x) && Publisher.Enabled(x, step)
    ensures Reachable(Publisher.Exec(x, step))
  {
    var states, steps :| Publisher.Life(states, steps) && states[|steps|] == x;
    var y := Publisher.Exec(x, step);
    var states', steps' := states + [y], steps + [step];
    assert states'[0] == states[0];
    hide Publisher.Exec, Publisher.Enabled, Publisher.Fresh, Shaped;
    forall i | 0 <= i < |steps'|
      ensures Shaped(states'[i]) && Publisher.Enabled(states'[i], steps'[i])
      ensures states'[i + 1] == Publisher.Exec(states'[i], steps'[i])
    {
      ExtendsAt(states, steps, step, y, i);
    }
    assert Publisher.Life(states', steps');
  }

  // ---------- two mutations of one key, in a node with one shard ----------

  const KEY := AclKey("tenant", "users", 7)

  function EntryNo(k: nat): DenyEntry {
    DenyEntry("tenant", "users", 7, Deny, 1, "abuse", 0, "operator", k, 0)
  }

  function MutationNo(k: nat): Mutation {
    Mutation(if k == 1 then "first" else "second", CommitId(0, k, 1, "cluster"), EntryNo(k), None, P0, k)
  }

  const FIRST := MutationNo(1)
  const SECOND := MutationNo(2)

  // memory after k of them, with what it retains
  function MemoryAt(k: nat, floor: nat, history: seq<Mutation>): Source {
    Source(1, if k == 0 then map[] else map[KEY := EntryNo(k)], map[], [k], [floor], history,
           if k == 0 then map[] else if k == 1 then map["first" := FIRST] else map["first" := FIRST, "second" := SECOND],
           1, "cluster")
  }

  function SnapshotAt(k: nat): Snapshot {
    Snapshot(1, [k], [EntryNo(k)], [])
  }

  function NodeAt(memory: Source, disk: Disk, phase: Phase, logged: seq<Mutation>, published: nat,
                  publishing: Option<Batch>, floor: seq<nat>, sent: set<Mutation>): Node {
    Node(Machine(memory, disk, phase, [logged]), [published], publishing, floor, sent)
  }

  const ONE := MemoryAt(1, 0, [FIRST])
  const TWO := MemoryAt(2, 0, [FIRST, SECOND])
  const CUT := MemoryAt(2, 1, [SECOND])
  const SAVED := Disk(Some(SnapshotAt(2)), Some([FIRST, SECOND]), [[FIRST, SECOND]])
  const REWRITTEN := Disk(Some(SnapshotAt(2)), Some([FIRST, SECOND]), [[SECOND]])

  // the run, state by state
  const EMPTY := NodeAt(MemoryAt(0, 0, []), Disk(None, None, [[]]), Idle, [], 0, None, [], {})
  const COMMITTED := NodeAt(ONE, Disk(None, None, [[FIRST]]), Unsaved, [FIRST], 0, None, [], {})
  const SNAPPED := NodeAt(ONE, Disk(Some(SnapshotAt(1)), None, [[FIRST]]), Idle, [FIRST], 0, None, [], {})
  const PUBLISHED := NodeAt(ONE, Disk(Some(SnapshotAt(1)), None, [[FIRST]]), Idle, [FIRST], 1, None, [], {FIRST})
  const DUE := NodeAt(TWO, Disk(Some(SnapshotAt(2)), None, [[FIRST, SECOND]]), Due, [FIRST, SECOND], 1, None, [], {FIRST})
  const COMPACTED := NodeAt(CUT, REWRITTEN, Idle, [FIRST, SECOND], 1, None, [1], {FIRST})
  const AHEAD := NodeAt(CUT, REWRITTEN, Idle, [FIRST, SECOND], 2, None, [1], {FIRST, SECOND})

  lemma StartsEmpty()
    ensures Reachable(EMPTY)
  {
    assert Publisher.Fresh(EMPTY, 1, "cluster") by {
      assert EMPTY.machine.disk.logs == seq(1, _ => []);
      assert EMPTY.machine.memory == New(1, "cluster");
    }
    assert Publisher.Life([EMPTY], []);
  }

  lemma AcceptsFirst()
    ensures var step := Store(Accept(FIRST));
      Shaped(EMPTY) && Publisher.Enabled(EMPTY, step) && Publisher.Exec(EMPTY, step) == COMMITTED
  {
    var m := ApplyReplicated(EMPTY.machine.memory, FIRST);
    assert m.Ok? && m.value.0 == ONE by {
      assert EntriesAfter(map[], FIRST) == map[KEY := EntryNo(1)];
      assert [] + [FIRST] == [FIRST];
    }
  }

  lemma CommitsFirst()
    requires Reachable(EMPTY)
    ensures Reachable(SNAPPED)
  {
    hide Reachable;
    AcceptsFirst();
    TablesAt(1);
    Reaches(EMPTY, Store(Accept(FIRST)));
    Reaches(COMMITTED, Store(SaveSnapshot(SnapshotAt(1), false)));
  }

  lemma TablesAt(k: nat)
    requires k == 1 || k == 2
    ensures IsSnapshotOf(SnapshotAt(k), MemoryAt(k, 0, if k == 1 then [FIRST] else [FIRST, SECOND]))
  {
    assert [EntryNo(k)][..0] == [];
    assert EntryTable([EntryNo(k)]) == map[KEY := EntryNo(k)];
  }

  // what is published of the shard when its last mutation is all that waits
  lemma PublishesLast(x: Node, last: Mutation)
    requires Shaped(x) && x.machine.memory.shardCount == 1 && Publisher.Enabled(x, BeginPublish)
    requires last.commitId.shardId == 0 && last.commitId.seqNo == x.published[0] + 1
    requires MutationsForShard(x.machine.memory.history, 0, x.published[0]) == [last]
    ensures var y := Publisher.Exec(x, BeginPublish);
      && Shaped(y) && Publisher.Enabled(y, EndPublish)
      && Publisher.Exec(y, EndPublish) == x.(published := [x.published[0] + 1], publishing := None, sent := x.sent + {last})
  {
    assert Collected(x.machine.memory.history, x.published, 1) == [] + [last] == [last];
    assert [last][1..] == [] && [last][..0] == [];
    assert StableSort.Sort(PublishLeq, [last]) == [last];
    assert AdvanceAll(x.published, [last]) == [x.published[0] + 1];
    assert SetOf([last]) == {last};
  }

  lemma PublishesFirst()
    requires Reachable(SNAPPED)
    ensures Reachable(PUBLISHED)
  {
    assert [FIRST][..0] == [];
    PublishesLast(SNAPPED, FIRST);
    hide Reachable, Publisher.Exec;
    Reaches(SNAPPED, BeginPublish);
    Reaches(Publisher.Exec(SNAPPED, BeginPublish), EndPublish);
    assert {} + {FIRST} == {FIRST};
  }

  lemma AcceptsSecond()
    ensures var step := Store(Accept(SECOND));
      && Shaped(PUBLISHED) && Publisher.Enabled(PUBLISHED, step)
      && Publisher.Exec(PUBLISHED, step)
         == NodeAt(TWO, Disk(Some(SnapshotAt(1)), None, [[FIRST, SECOND]]), Unsaved, [FIRST, SECOND], 1, None, [], {FIRST})
  {
    var m := ApplyReplicated(PUBLISHED.machine.memory, SECOND);
    assert m.Ok? && m.value.0 == TWO by {
      assert EntriesAfter(map[KEY := EntryNo(1)], SECOND) == map[KEY := EntryNo(2)];
      assert [FIRST] + [SECOND] == [FIRST, SECOND];
    }
  }

  lemma CommitsSecond()
    requires Reachable(PUBLISHED)
    ensures Reachable(DUE)
  {
    hide Reachable;
    AcceptsSecond();
    TablesAt(2);
    Reaches(PUBLISHED, Store(Accept(SECOND)));
    Reaches(Publisher.Exec(PUBLISHED, Store(Accept(SECOND))), Store(SaveSnapshot(SnapshotAt(2), true)));
  }

  lemma Compacts()
    requires Reachable(DUE)
    ensures Reachable(COMPACTED)
  {
    hide Reachable;
    TablesAt(2);
    Reaches(DUE, Store(SaveCompactionSnapshot(SnapshotAt(2))));
    var x := Publisher.Exec(DUE, Store(SaveCompactionSnapshot(SnapshotAt(2))));
    assert x.floor == [1];
    Reaches(x, Store(SaveOpIds([FIRST, SECOND])));
    var y := Publisher.Exec(x, Store(SaveOpIds([FIRST, SECOND])));
    assert y == NodeAt(TWO, SAVED, Trimming(0), [FIRST, SECOND], 1, None, [1], {FIRST});
    Trims(y);
  }

  lemma Trims(y: Node)
    requires y == NodeAt(TWO, SAVED, Trimming(0), [FIRST, SECOND], 1, None, [1], {FIRST}) && Reachable(y)
    ensures Reachable(COMPACTED)
  {
    hide Reachable;
    assert [FIRST, SECOND][..1] == [FIRST] && [FIRST][..0] == [];
    assert [FIRST, SECOND][|[FIRST, SECOND]| - 1] == SECOND;
    assert [FIRST][0] == FIRST && [FIRST][..|[FIRST]| - 1] == [];
    assert AboveOne([FIRST], 1) == [];
    assert Above([], [1]) == [];
    assert Above([FIRST], [1]) == [];
    assert AboveOne([FIRST, SECOND], 1) == [SECOND];
    assert Above([FIRST, SECOND], [1]) == [SECOND];
    Reaches(y, TrimShard);
    var z := Publisher.Exec(y, TrimShard);
    assert z == NodeAt(TWO, REWRITTEN, Trimming(1), [FIRST, SECOND], 1, None, [1], {FIRST});
    assert CompactHistory(TWO, [1]).value == CUT by {
      assert CompactHistory(TWO, [1]).value.compacted == [1];
    }
    Reaches(z, TrimShard);
  }

  lemma PublishesSecond()
    requires Reachable(COMPACTED)
    ensures Reachable(AHEAD)
  {
    assert [SECOND][..0] == [];
    PublishesLast(COMPACTED, SECOND);
    hide Reachable, Publisher.Exec;
    Reaches(COMPACTED, BeginPublish);
    Reaches(Publisher.Exec(COMPACTED, BeginPublish), EndPublish);
    assert {FIRST} + {SECOND} == {FIRST, SECOND};
  }

  /** Publish 1, commit 2, compact, publish 2: the node can no longer restart from its disk. */
  lemma CannotRestart() returns (states: seq<Node>, steps: seq<Publisher.Step>)
    ensures Publisher.Life(states, steps)
    ensures var x := states[|steps|]; var m := x.machine;
      && m.memory.Shaped() && FlatLogs(m.disk.logs, m.memory.shardCount)
      && Load(m.disk, m.memory.shardCount, m.memory.region, Some(x.published)).Err?
  {
    hide Reachable;
    StartsEmpty();
    CommitsFirst();
    PublishesFirst();
    CommitsSecond();
    Compacts();
    PublishesSecond();
    states, steps := RunTo(AHEAD);
    RestartsIff(states, steps, |steps|);
    assert Lowered([2], [2])[0] == 2 && KeptOf(AHEAD.machine)[0] == 1;
  }

  lemma RunTo(x: Node) returns (states: seq<Node>, steps: seq<Publisher.Step>)
    requires Reachable(x)
    ensures Publisher.Life(states, steps) && states[|steps|] == x
  {
    states, steps :| Publisher.Life(states, steps) && states[|steps|] == x;
  }
}
