/** Loading with a publisher. The retained-history constructor takes a snapshot and the logs that a
    compaction has left, and load_source_of_truth (crates/globacl-commitd/src/app/commit.rs) chooses
    between it and a replay of complete logs. When that succeeds, and what it rebuilds. */
module Reload {
  import opened Domain
  import opened SourceSpec
  import opened Replay
  import opened Loading
  import opened History
  import opened Recovery

  // ---------- loading with retained history ----------

  // the retained runs a load accepts
  ghost predicate RunsFromFloor(ms: seq<Mutation>, replayed: seq<nat>) {
    InShards(ms, |replayed|) && forall s :: 0 <= s < |replayed| ==> RunsFrom(Project(ms, s), replayed[s])
  }

  lemma RunHead(ms: seq<Mutation>, replayed: seq<nat>)
    requires ms != [] && ms[0].commitId.shardId < |replayed|
    ensures var shard := ms[0].commitId.shardId;
      RunsFromFloor(ms, replayed) <==>
        ms[0].commitId.seqNo == replayed[shard] + 1 && RunsFromFloor(ms[1..], replayed[shard := replayed[shard] + 1])
  {
    var shard := ms[0].commitId.shardId;
    var next := replayed[shard := replayed[shard] + 1];
    assert InShards(ms, |replayed|) <==> InShards(ms[1..], |replayed|) by {
      assert ms == [ms[0]] + ms[1..];
    }
    ProjectHead(ms, shard);
    assert RunsFrom(Project(ms, shard), replayed[shard]) ==> Project(ms, shard)[0].commitId.seqNo == replayed[shard] + 1;
    forall s | 0 <= s < |replayed| && ms[0].commitId.seqNo == replayed[shard] + 1
      ensures RunsFrom(Project(ms, s), replayed[s]) <==> RunsFrom(Project(ms[1..], s), next[s])
    {
      ProjectHead(ms, s);
      hide Project;
      var p, q := Project(ms, s), Project(ms[1..], s);
      if s == shard {
        assert p == [ms[0]] + q;
        if RunsFrom(p, replayed[s]) {
          RunsFromDrop(p, replayed[s], 1);
          assert p[1..] == q;
        }
        if RunsFrom(q, next[s]) {
          assert forall i :: 0 < i < |p| ==> p[i] == q[i - 1];
        }
      } else {
        assert [] + q == q;
      }
    }
  }

  lemma RestIn(ms: seq<Mutation>, full: map<string, Mutation>)
    requires ms != [] && AllIndexed(ms, full)
    ensures AllIndexed(ms[1..], full)
  {
  }

  lemma RetainHead(s: Source, replayed: seq<nat>, m: Mutation, full: map<string, Mutation>)
    requires s.Shaped() && |replayed| == s.shardCount && m.commitId.shardId < s.shardCount
    requires replayed[m.commitId.shardId] <= s.watermarks[m.commitId.shardId]
    requires m.commitId.seqNo == replayed[m.commitId.shardId] + 1
    requires SubIndex(s.opIndex, full) && Get(full, m.opId) == Some(m)
    ensures var shard := m.commitId.shardId; var r := RetainNext(s, m);
      && r.Ok? && r.value.Shaped() && r.value.shardCount == s.shardCount && SubIndex(r.value.opIndex, full)
      && r.value.watermarks == s.watermarks[shard := AtLeast(s.watermarks[shard], m.commitId.seqNo)]
  {
    assert InsertOp(s.opIndex, m).Ok?;
    if m.commitId.seqNo <= s.watermarks[m.commitId.shardId] {
      assert s.watermarks[m.commitId.shardId := s.watermarks[m.commitId.shardId]] == s.watermarks;
    }
  }

  // the loop takes its first mutation, or stops
  lemma RetainLoopHead(s: Source, replayed: seq<nat>, ms: seq<Mutation>, full: map<string, Mutation>)
    requires s.Shaped() && |replayed| == s.shardCount && ms != [] && AllIndexed(ms, full) && SubIndex(s.opIndex, full)
    requires forall i :: 0 <= i < |replayed| ==> replayed[i] <= s.watermarks[i]
    ensures var m := ms[0]; var shard := m.commitId.shardId;
      if shard < s.shardCount && m.commitId.seqNo == replayed[shard] + 1 then
        && RetainNext(s, m).Ok? && RetainNext(s, m).value.Shaped() && RetainNext(s, m).value.shardCount == s.shardCount
        && RetainLoop(s, replayed, ms) == RetainLoop(RetainNext(s, m).value, replayed[shard := m.commitId.seqNo], ms[1..])
      else RetainLoop(s, replayed, ms).Err?
  {
    var m := ms[0];
    if m.commitId.shardId < s.shardCount && m.commitId.seqNo == replayed[m.commitId.shardId] + 1 {
      RetainHead(s, replayed, m, full);
      hide SubIndex;
    }
  }

  // where the loop ends, if it does
  predicate Retained(r: Result<(Source, seq<nat>)>, s: Source, replayed: seq<nat>, ms: seq<Mutation>) {
    r.Ok? ==>
      && |r.value.1| == |replayed| == |s.watermarks| == |r.value.0.watermarks|
      && forall i :: 0 <= i < |replayed| ==>
           && r.value.1[i] == replayed[i] + |Project(ms, i)|
           && r.value.0.watermarks[i] == AtLeast(s.watermarks[i], r.value.1[i])
  }

  /** With consistent op ids, the loop of the retained-history constructor accepts exactly the runs. */
  lemma {:induction false} RetainLoopAcceptsIff(s: Source, replayed: seq<nat>, ms: seq<Mutation>, full: map<string, Mutation>)
    requires s.Shaped() && |replayed| == s.shardCount
    requires forall i :: 0 <= i < |replayed| ==> replayed[i] <= s.watermarks[i]
    requires SubIndex(s.opIndex, full) && AllIndexed(ms, full)
    ensures var r := RetainLoop(s, replayed, ms);
      (r.Ok? <==> RunsFromFloor(ms, replayed)) && Retained(r, s, replayed, ms)
    decreases |ms|
  {
    if ms != [] {
      RetainLoopHead(s, replayed, ms, full);
      hide RetainLoop, RetainNext, Retained, SubIndex;
      var m := ms[0];
      var shard := m.commitId.shardId;
      if shard < s.shardCount {
        RunHead(ms, replayed);
        if m.commitId.seqNo == replayed[shard] + 1 {
          var next := replayed[shard := m.commitId.seqNo];
          RetainHead(s, replayed, m, full);
          RestIn(ms, full);
          hide RunsFromFloor;
          RetainLoopAcceptsIff(RetainNext(s, m).value, next, ms[1..], full);
          RetainedStep(RetainLoop(s, replayed, ms), s, RetainNext(s, m).value, replayed, ms);
        }
      }
    }
  }

  lemma RetainedStep(r: Result<(Source, seq<nat>)>, s: Source, t: Source, replayed: seq<nat>, ms: seq<Mutation>)
    requires ms != [] && ms[0].commitId.shardId < |replayed| == |s.watermarks|
    requires var shard := ms[0].commitId.shardId;
      && ms[0].commitId.seqNo == replayed[shard] + 1
      && t.watermarks == s.watermarks[shard := AtLeast(s.watermarks[shard], ms[0].commitId.seqNo)]
      && Retained(r, t, replayed[shard := ms[0].commitId.seqNo], ms[1..])
    ensures Retained(r, s, replayed, ms)
  {
    forall i | 0 <= i < |replayed|
      ensures |Project(ms, i)| == |Project(ms[1..], i)| + if i == ms[0].commitId.shardId then 1 else 0
    {
      ProjectHead(ms, i);
    }
    hide Project;
  }

  // ---------- the numbers of a shard ----------

  /** The sequence numbers that a list has for a shard, in no order. */
  function Numbers(ms: seq<Mutation>, s: nat): multiset<nat> {
    if ms == [] then multiset{}
    else
      var last := ms[|ms| - 1];
      Numbers(ms[..|ms| - 1], s) + (if last.commitId.shardId == s then multiset{last.commitId.seqNo} else multiset{})
  }

  function Consecutive(floor: nat, count: nat): multiset<nat> {
    if count == 0 then multiset{} else Consecutive(floor, count - 1) + multiset{floor + count}
  }

  // the numbers floor + 1, floor + 2, and so on, each once
  predicate AreConsecutive(numbers: multiset<nat>, floor: nat) {
    numbers == Consecutive(floor, |numbers|)
  }

  lemma {:induction false} NumbersConcat(a: seq<Mutation>, b: seq<Mutation>, s: nat)
    ensures Numbers(a + b, s) == Numbers(a, s) + Numbers(b, s)
    decreases |b|
  {
    if b == [] {
      assert a + b == a;
    } else {
      assert (a + b)[..|a + b| - 1] == a + b[..|b| - 1];
      NumbersConcat(a, b[..|b| - 1], s);
    }
  }

  lemma NumbersHead(ms: seq<Mutation>, s: nat)
    requires ms != []
    ensures Numbers(ms, s)
      == (if ms[0].commitId.shardId == s then multiset{ms[0].commitId.seqNo} else multiset{}) + Numbers(ms[1..], s)
  {
    assert ms == [ms[0]] + ms[1..];
    NumbersConcat([ms[0]], ms[1..], s);
    assert [ms[0]][..0] == [];
  }

  lemma {:induction false} InsertNumbers(m: Mutation, sorted: seq<Mutation>, s: nat)
    ensures Numbers(InsertForLoad(m, sorted), s) == Numbers([m] + sorted, s)
  {
    if sorted != [] && !LoadLeq(m, sorted[0]) {
      var r := InsertForLoad(m, sorted);
      InsertNumbers(m, sorted[1..], s);
      assert r[1..] == InsertForLoad(m, sorted[1..]);
      NumbersHead(r, s);
      NumbersHead([m] + sorted, s);
      NumbersHead([m] + sorted[1..], s);
      NumbersHead(sorted, s);
      hide Numbers;
      assert ([m] + sorted)[1..] == sorted && ([m] + sorted[1..])[1..] == sorted[1..];
    }
  }

  lemma {:induction false} SortNumbers(ms: seq<Mutation>, s: nat)
    ensures Numbers(SortForLoad(ms), s) == Numbers(ms, s)
  {
    if ms != [] {
      SortNumbers(ms[1..], s);
      var rest := SortForLoad(ms[1..]);
      InsertNumbers(ms[0], rest, s);
      NumbersHead(ms, s);
      NumbersHead([ms[0]] + rest, s);
      hide Numbers;
      assert ([ms[0]] + rest)[1..] == rest;
    }
  }

  // by shard, then by number
  predicate StampLeq(x: Mutation, y: Mutation) {
    var a, b := x.commitId, y.commitId;
    a.shardId < b.shardId || (a.shardId == b.shardId && a.seqNo <= b.seqNo)
  }

  ghost predicate Stamped(ms: seq<Mutation>) {
    forall i, j :: 0 <= i < j < |ms| ==> StampLeq(ms[i], ms[j])
  }

  lemma {:induction false} InsertStamped(m: Mutation, sorted: seq<Mutation>)
    requires Stamped(sorted)
    ensures Stamped(InsertForLoad(m, sorted))
  {
    var r := InsertForLoad(m, sorted);
    if sorted == [] || LoadLeq(m, sorted[0]) {
      assert forall j :: 0 < j < |r| ==> r[j] == sorted[j - 1];
    } else {
      InsertStamped(m, sorted[1..]);
      InsertIsPermutation(m, sorted[1..]);
      var rest := InsertForLoad(m, sorted[1..]);
      forall j | 0 <= j < |rest|
        ensures StampLeq(sorted[0], rest[j])
      {
        assert rest[j] in multiset(rest);
        assert rest[j] == m || rest[j] in sorted[1..];
      }
    }
  }

  lemma {:induction false} SortStamped(ms: seq<Mutation>)
    ensures Stamped(SortForLoad(ms))
  {
    if ms != [] {
      SortStamped(ms[1..]);
      InsertStamped(ms[0], SortForLoad(ms[1..]));
    }
  }

  // no number above the last one of a stamped list
  lemma {:induction false} NumbersBelow(ms: seq<Mutation>, s: nat, last: Mutation)
    requires last.commitId.shardId == s && forall i :: 0 <= i < |ms| ==> StampLeq(ms[i], last)
    ensures forall k :: k in Numbers(ms, s) ==> k <= last.commitId.seqNo
  {
    if ms != [] {
      NumbersBelow(ms[..|ms| - 1], s, last);
    }
  }

  lemma {:induction false} ConsecutiveRange(floor: nat, count: nat)
    ensures forall k :: k in Consecutive(floor, count) <==> floor < k <= floor + count
    ensures |Consecutive(floor, count)| == count
  {
    if count > 0 {
      ConsecutiveRange(floor, count - 1);
    }
  }

  // the numbers of a list with one more mutation
  lemma NumbersPush(ms: seq<Mutation>, m: Mutation, s: nat)
    ensures Numbers(ms + [m], s)
      == Numbers(ms, s) + (if m.commitId.shardId == s then multiset{m.commitId.seqNo} else multiset{})
  {
    assert (ms + [m])[..|ms|] == ms;
  }

  lemma RunPush(p: seq<Mutation>, last: Mutation, floor: nat)
    ensures RunsFrom(p + [last], floor) <==> RunsFrom(p, floor) && last.commitId.seqNo == floor + 1 + |p|
  {
    assert (p + [last])[|p|] == last;
    assert forall i :: 0 <= i < |p| ==> (p + [last])[i] == p[i];
  }

  lemma CancelOne(a: multiset<nat>, b: multiset<nat>, k: nat)
    requires a + multiset{k} == b + multiset{k}
    ensures a == b
  {
    assert a == (a + multiset{k}) - multiset{k};
    assert b == (b + multiset{k}) - multiset{k};
  }

  lemma PushConsecutive(numbers: multiset<nat>, last: nat, floor: nat)
    requires forall k :: k in numbers ==> k <= last
    ensures AreConsecutive(numbers + multiset{last}, floor)
       <==> AreConsecutive(numbers, floor) && last == floor + |numbers| + 1
  {
    var top := floor + |numbers| + 1;
    var before := Consecutive(floor, |numbers|);
    ConsecutiveRange(floor, |numbers| + 1);
    assert Consecutive(floor, |numbers| + 1) == before + multiset{top};
    hide Consecutive;
    LastOfAll(numbers, last, before, top);
  }

  // the same multiset under the same largest number
  lemma LastOfAll(a: multiset<nat>, last: nat, b: multiset<nat>, top: nat)
    requires forall k :: k in a ==> k <= last
    requires forall k :: k in b + multiset{top} ==> k <= top
    ensures a + multiset{last} == b + multiset{top} <==> a == b && last == top
  {
    if a + multiset{last} == b + multiset{top} {
      assert last in a + multiset{last};
      assert top in b + multiset{top};
      assert top in a + multiset{last};
      CancelOne(a, b, top);
    }
  }

  lemma RunStep(p: seq<Mutation>, numbers: multiset<nat>, last: Mutation, floor: nat)
    requires |numbers| == |p| && forall k :: k in numbers ==> k <= last.commitId.seqNo
    requires RunsFrom(p, floor) <==> AreConsecutive(numbers, floor)
    ensures |numbers + multiset{last.commitId.seqNo}| == |p + [last]|
    ensures RunsFrom(p + [last], floor) <==> AreConsecutive(numbers + multiset{last.commitId.seqNo}, floor)
  {
    RunPush(p, last, floor);
    PushConsecutive(numbers, last.commitId.seqNo, floor);
    hide RunsFrom, Consecutive;
  }

  lemma RunBase(floor: nat)
    ensures |Numbers([], 0)| == |Project([], 0)|
    ensures RunsFrom([], floor) && AreConsecutive(multiset{}, floor)
  {
  }

  /** In load order, a shard's mutations are a run exactly when its numbers are consecutive. */
  lemma {:induction false} RunIffConsecutive(ms: seq<Mutation>, s: nat, floor: nat)
    requires Stamped(ms)
    ensures |Numbers(ms, s)| == |Project(ms, s)|
    ensures RunsFrom(Project(ms, s), floor) <==> AreConsecutive(Numbers(ms, s), floor)
  {
    if ms == [] {
      RunBase(floor);
      hide Stamped, AreConsecutive, RunsFrom;
    } else {
      var init, last := ms[..|ms| - 1], ms[|ms| - 1];
      assert ms == init + [last];
      NumbersPush(init, last, s);
      ProjectPush(init, last, s);
      assert Stamped(init) && forall i :: 0 <= i < |init| ==> StampLeq(init[i], last);
      hide *;
      RunIffConsecutive(init, s, floor);
      if last.commitId.shardId == s {
        NumbersBelow(init, s, last);
        RunStep(Project(init, s), Numbers(init, s), last, floor);
      } else {
        assert Project(init, s) + [] == Project(init, s);
        assert Numbers(init, s) + multiset{} == Numbers(init, s);
      }
    }
  }

  /** The retained-history constructor, given consistent op ids, accepts exactly the logs that hold, of
      every shard, the consecutive numbers from its floor to at least the snapshot's watermark, in
      whatever order. */
  lemma RetainedAcceptsIff(n: nat, region: string, snap: Snapshot, idempotency: seq<Mutation>,
                           retained: seq<Mutation>, floor: seq<nat>, full: map<string, Mutation>)
    requires n > 0 && AllIndexed(idempotency, full) && AllIndexed(retained, full)
    requires snap.shardCount == n && snap.Validates()
    requires |floor| == n && forall i :: 0 <= i < n ==> floor[i] <= snap.watermarks[i]
    ensures FromSnapshotAndRetained(n, region, snap, idempotency, retained, floor).Ok? <==>
      && InShards(retained, n)
      && forall s :: 0 <= s < n ==>
           && AreConsecutive(Numbers(retained, s), floor[s])
           && floor[s] + |Numbers(retained, s)| >= snap.watermarks[s]
  {
    var sorted := SortForLoad(retained);
    RetainedAcceptsRuns(n, region, snap, idempotency, retained, floor, full);
    SortInShards(retained, n);
    SortStamped(retained);
    hide FromSnapshotAndRetained, SortForLoad, Project, RunsFrom, Numbers, AreConsecutive, AllIndexed, Stamped, InShards;
    forall s | 0 <= s < n
      ensures |Numbers(retained, s)| == |Project(sorted, s)|
      ensures RunsFrom(Project(sorted, s), floor[s]) <==> AreConsecutive(Numbers(retained, s), floor[s])
    {
      SortNumbers(retained, s);
      RunIffConsecutive(sorted, s, floor[s]);
    }
  }

  lemma SortInShards(ms: seq<Mutation>, n: nat)
    ensures InShards(SortForLoad(ms), n) <==> InShards(ms, n)
  {
    var sorted := SortForLoad(ms);
    forall m
      ensures m in sorted <==> m in ms
    {
      assert m in multiset(sorted) <==> m in multiset(ms);
    }
    hide SortForLoad;
    if !InShards(sorted, n) {
      var i :| 0 <= i < |sorted| && sorted[i].commitId.shardId >= n;
      assert sorted[i] in ms;
    }
    if !InShards(ms, n) {
      var i :| 0 <= i < |ms| && ms[i].commitId.shardId >= n;
      assert ms[i] in sorted;
    }
  }

  // the same of the list in load order, as runs
  lemma RetainedAcceptsRuns(n: nat, region: string, snap: Snapshot, idempotency: seq<Mutation>,
                            retained: seq<Mutation>, floor: seq<nat>, full: map<string, Mutation>)
    requires n > 0 && AllIndexed(idempotency, full) && AllIndexed(retained, full)
    requires snap.shardCount == n && snap.Validates()
    requires |floor| == n && forall i :: 0 <= i < n ==> floor[i] <= snap.watermarks[i]
    ensures FromSnapshotAndRetained(n, region, snap, idempotency, retained, floor).Ok? <==>
      && RunsFromFloor(SortForLoad(retained), floor)
      && forall s :: 0 <= s < n ==> floor[s] + |Project(SortForLoad(retained), s)| >= snap.watermarks[s]
  {
    var sorted := SortForLoad(retained);
    AllIndexedPermutation(retained, sorted, full);
    InsertOpsWithin(map[], idempotency, full);
    RetainedIsLoop(n, region, snap, idempotency, retained, floor);
    var base := RetainBase(n, region, snap, idempotency, floor);
    assert base.watermarks == snap.watermarks;
    hide SortForLoad, InsertOps, RunsFromFloor, Project, RetainLoop, SubIndex, AllIndexed;
    hide FromSnapshotAndRetained, FromSnapshot, RetainBase;
    RetainLoopAcceptsIff(base, floor, sorted, full);
  }

  // what the retained-history loop keeps: the tables of its watermarks, and op ids of one full index
  ghost predicate Rebuilding(src: Source, replayed: seq<nat>, logs: seq<seq<Mutation>>, full: map<string, Mutation>) {
    && src.Shaped() && src.shardCount == |logs| && ValidLogs(logs)
    && Within(replayed, logs) && Within(src.watermarks, logs)
    && (forall s :: 0 <= s < |logs| ==> replayed[s] <= src.watermarks[s])
    && Represents(src.entries, src.rules, logs, src.watermarks) && SubIndex(src.opIndex, full)
  }

  lemma RebuildNext(src: Source, replayed: seq<nat>, s: nat, logs: seq<seq<Mutation>>, full: map<string, Mutation>)
    requires Rebuilding(src, replayed, logs, full)
    requires s < |logs| && replayed[s] < |logs[s]| && Get(full, logs[s][replayed[s]].opId) == Some(logs[s][replayed[s]])
    ensures var m := logs[s][replayed[s]];
      && m.commitId.shardId == s && m.commitId.seqNo == replayed[s] + 1
      && var r := RetainNext(src, m);
      && r.Ok? && Rebuilding(r.value, replayed[s := replayed[s] + 1], logs, full)
      && r.value.history == src.history + [m] && r.value.compacted == src.compacted
      && (forall op :: op in src.opIndex ==> op in r.value.opIndex)
  {
    var m := logs[s][replayed[s]];
    assert m.commitId.shardId == s && m.commitId.seqNo == replayed[s] + 1;
    assert InsertOp(src.opIndex, m).Ok?;
    if replayed[s] == src.watermarks[s] {
      LoadNext(src, logs, src.watermarks, s);
    }
    hide Represents, ValidLogs;
  }

  // one round of the loop
  lemma RebuildStep(src: Source, replayed: seq<nat>, ms: seq<Mutation>, logs: seq<seq<Mutation>>, full: map<string, Mutation>)
    requires Rebuilding(src, replayed, logs, full) && ms != []
    requires Interleaves(ms, logs, replayed, Lengths(logs)) && AllIndexed(ms, full)
    ensures var s := ms[0].commitId.shardId;
      && s < |logs| && src.Shaped() && src.shardCount == |replayed| == |logs| && RetainNext(src, ms[0]).Ok?
      && var next, after := RetainNext(src, ms[0]).value, replayed[s := replayed[s] + 1];
      && Rebuilding(next, after, logs, full) && Interleaves(ms[1..], logs, after, Lengths(logs)) && AllIndexed(ms[1..], full)
      && next.history == src.history + [ms[0]] && next.compacted == src.compacted
      && (forall op :: op in src.opIndex ==> op in next.opIndex)
      && RetainLoop(src, replayed, ms) == RetainLoop(next, after, ms[1..])
  {
    RebuildingShape(src, replayed, logs, full);
    hide *;
    InterleavesHead(ms, logs, replayed, Lengths(logs));
    HeadIn(ms, full);
    RestIn(ms, full);
    RebuildNext(src, replayed, ms[0].commitId.shardId, logs, full);
    RetainLoopNext(src, replayed, ms);
  }

  /** The loop over what the logs still hold above the floor ends at the last number logged, with the
      tables that the logs determine there. */
  lemma {:induction false} RetainLoopRebuilds(src: Source, replayed: seq<nat>, ms: seq<Mutation>,
                                              logs: seq<seq<Mutation>>, full: map<string, Mutation>)
    requires Rebuilding(src, replayed, logs, full)
    requires Interleaves(ms, logs, replayed, Lengths(logs)) && AllIndexed(ms, full)
    ensures var r := RetainLoop(src, replayed, ms);
      && r.Ok? && r.value.1 == Lengths(logs) && Rebuilding(r.value.0, Lengths(logs), logs, full)
      && r.value.0.history == src.history + ms && r.value.0.compacted == src.compacted
      && (forall op :: op in src.opIndex ==> op in r.value.0.opIndex)
    decreases |ms|
  {
    if ms == [] {
      RebuildNothing(src, replayed, logs, full);
      hide *;
    } else {
      RebuildStep(src, replayed, ms, logs, full);
      hide *;
      var s := ms[0].commitId.shardId;
      RetainLoopRebuilds(RetainNext(src, ms[0]).value, replayed[s := replayed[s] + 1], ms[1..], logs, full);
      SplitHead(src.history, ms);
    }
  }

  lemma SplitHead(a: seq<Mutation>, ms: seq<Mutation>)
    requires ms != []
    ensures a + [ms[0]] + ms[1..] == a + ms
  {
  }

  lemma RebuildNothing(src: Source, replayed: seq<nat>, logs: seq<seq<Mutation>>, full: map<string, Mutation>)
    requires Rebuilding(src, replayed, logs, full) && Interleaves([], logs, replayed, Lengths(logs))
    ensures src.Shaped() && |replayed| == src.shardCount
    ensures replayed == Lengths(logs) && RetainLoop(src, replayed, []) == Ok((src, replayed)) && src.history + [] == src.history
  {
    InterleavesNothing(logs, replayed, Lengths(logs));
    hide Represents, ValidLogs, Interleaves, SubIndex;
  }

  lemma HeadIn(ms: seq<Mutation>, full: map<string, Mutation>)
    requires ms != [] && AllIndexed(ms, full)
    ensures Get(full, ms[0].opId) == Some(ms[0])
  {
  }

  lemma RebuildingShape(src: Source, replayed: seq<nat>, logs: seq<seq<Mutation>>, full: map<string, Mutation>)
    requires Rebuilding(src, replayed, logs, full)
    ensures Within(replayed, logs) && Within(Lengths(logs), logs) && src.Shaped() && src.shardCount == |logs|
  {
  }

  lemma RetainLoopNext(s: Source, replayed: seq<nat>, ms: seq<Mutation>)
    requires s.Shaped() && |replayed| == s.shardCount && ms != [] && ms[0].commitId.shardId < s.shardCount
    requires ms[0].commitId.seqNo == replayed[ms[0].commitId.shardId] + 1 && RetainNext(s, ms[0]).Ok?
    ensures RetainNext(s, ms[0]).value.Shaped() && RetainNext(s, ms[0]).value.shardCount == s.shardCount
    ensures RetainLoop(s, replayed, ms)
         == RetainLoop(RetainNext(s, ms[0]).value, replayed[ms[0].commitId.shardId := ms[0].commitId.seqNo], ms[1..])
  {
  }

  // logs that were rewritten up to kept
  ghost predicate KeptFrom(logs: seq<seq<Mutation>>, logged: seq<seq<Mutation>>, kept: seq<nat>) {
    && ValidLogs(logged) && Within(kept, logged) && |logs| == |logged|
    && forall s :: 0 <= s < |logged| ==> ShardKept(logs[s], logged[s], kept[s])
  }

  lemma KeptShards(logs: seq<seq<Mutation>>, logged: seq<seq<Mutation>>, kept: seq<nat>)
    requires KeptFrom(logs, logged, kept)
    ensures forall t, i {:trigger logs[t][i]} :: 0 <= t < |logs| && 0 <= i < |logs[t]| ==> logs[t][i].commitId.shardId == t
  {
    forall t, i {:trigger logs[t][i]} | 0 <= t < |logs| && 0 <= i < |logs[t]|
      ensures logs[t][i].commitId.shardId == t
    {
      assert ShardKept(logs[t], logged[t], kept[t]);
      assert logs[t][i] == logged[t][kept[t] + i];
    }
  }

  lemma KeptOfShard(logs: seq<seq<Mutation>>, logged: seq<seq<Mutation>>, kept: seq<nat>, s: nat)
    requires KeptFrom(logs, logged, kept) && s < |logged|
    ensures kept[s] <= |logged[s]| && Project(Flatten(logs), s) == logged[s][kept[s]..Lengths(logged)[s]]
    ensures InShards(Flatten(logs), |logged|)
  {
    KeptShards(logs, logged, kept);
    assert ShardKept(logs[s], logged[s], kept[s]);
    hide KeptFrom, Flatten, Project, InShards, ValidLogs;
    FlattenProjects(logs, s);
    assert logged[s][kept[s]..] == logged[s][kept[s]..Lengths(logged)[s]];
  }

  lemma KeptInterleaves(logs: seq<seq<Mutation>>, logged: seq<seq<Mutation>>, kept: seq<nat>)
    requires KeptFrom(logs, logged, kept)
    ensures Interleaves(Flatten(logs), logged, kept, Lengths(logged))
  {
    assert Within(kept, logged);
    hide ValidLogs, Flatten, Project, ShardKept, KeptFrom;
    forall s | 0 <= s < |logged|
      ensures Project(Flatten(logs), s) == logged[s][kept[s]..Lengths(logged)[s]] && InShards(Flatten(logs), |logged|)
    {
      KeptOfShard(logs, logged, kept, s);
    }
    KeptOfShard(logs, logged, kept, 0);
  }

  // what a load reads of one shard
  lemma KeptStream(logs: seq<seq<Mutation>>, logged: seq<seq<Mutation>>, kept: seq<nat>, s: nat)
    requires KeptFrom(logs, logged, kept) && s < |logged|
    ensures Project(SortForLoad(Flatten(logs)), s) == logged[s][kept[s]..]
    ensures RunsFrom(logged[s][kept[s]..], kept[s]) && InShards(SortForLoad(Flatten(logs)), |logged|)
  {
    KeptInterleaves(logs, logged, kept);
    SortedInterleaves(Flatten(logs), logged, kept, Lengths(logged));
    SuffixRuns(logged, s, kept[s]);
    hide ValidLogs, Flatten, SortForLoad, Project, ShardKept, RunsFrom;
    assert logged[s][kept[s]..Lengths(logged)[s]] == logged[s][kept[s]..];
  }

  // one shard: what it kept runs from the floor exactly when it starts there
  lemma ShardReload(stream: seq<Mutation>, kept: nat, floor: nat, snapshot: nat)
    requires RunsFrom(stream, kept) && kept <= floor <= snapshot <= kept + |stream|
    ensures RunsFrom(stream, floor) && floor + |stream| >= snapshot <==> kept == floor
  {
    if stream != [] {
      assert stream[0].commitId.seqNo == kept + 1;
    }
  }


  // ---------- load_source_of_truth ----------

  predicate Untrimmed(kept: seq<nat>) {
    forall s :: 0 <= s < |kept| ==> kept[s] == 0
  }

  predicate AtMostEach(a: seq<nat>, b: seq<nat>) {
    |a| == |b| && forall s :: 0 <= s < |a| ==> a[s] <= b[s]
  }

  ghost predicate SnapshotFits(snap: Snapshot, logged: seq<seq<Mutation>>, kept: seq<nat>) {
    snap.Validates() && snap.shardCount == |logged| && Within(snap.watermarks, logged) && AtMostEach(kept, snap.watermarks)
  }

  /** A disk whose logs were rewritten up to kept, never beyond its snapshot; every record on it comes
      from one op index. */
  ghost predicate DiskHolds(disk: Disk, logged: seq<seq<Mutation>>, kept: seq<nat>, full: map<string, Mutation>) {
    && |logged| > 0 && KeptFrom(disk.logs, logged, kept) && AllIndexed(IdempotencyOf(disk), full)
    && (disk.snapshot.None? ==> Untrimmed(kept))
    && (disk.snapshot.Some? ==> SnapshotFits(disk.snapshot.value, logged, kept))
  }

  lemma SuffixIn(a: seq<Mutation>, b: seq<Mutation>, full: map<string, Mutation>)
    requires AllIndexed(a + b, full)
    ensures AllIndexed(b, full)
  {
    assert forall i :: 0 <= i < |b| ==> b[i] == (a + b)[|a| + i];
  }

  lemma LogsIn(disk: Disk, full: map<string, Mutation>)
    requires AllIndexed(IdempotencyOf(disk), full)
    ensures AllIndexed(Flatten(disk.logs), full)
  {
    hide Flatten, AllIndexed;
    if disk.opIds.Some? {
      SuffixIn(disk.opIds.value, Flatten(disk.logs), full);
    }
  }

  lemma HeldLogs(disk: Disk, logged: seq<seq<Mutation>>, kept: seq<nat>, full: map<string, Mutation>)
    requires DiskHolds(disk, logged, kept, full)
    ensures FlatLogs(disk.logs, |logged|)
  {
    KeptShards(disk.logs, logged, kept);
    FlattenProjects(disk.logs, 0);
    hide ValidLogs, Flatten, SnapshotFits, ShardKept;
  }

  // ---------- complete logs ----------

  lemma {:induction false} ReplayKeepsFloor(s: Source, ms: seq<Mutation>)
    requires s.Shaped() && ReplayLoaded(s, ms).Ok?
    ensures var r := ReplayLoaded(s, ms).value; r.history == s.history + ms && r.compacted == s.compacted
    decreases |ms|
  {
    if ms == [] {
      assert s.history + ms == s.history;
    } else {
      ReplayKeepsFloor(ApplyLoaded(s, ms[0]).value, ms[1..]);
      assert s.history + ms == s.history + [ms[0]] + ms[1..];
    }
  }

  // a source replayed from nothing retains everything it has seen
  lemma ReplayedWindow(n: nat, region: string, ms: seq<Mutation>, s: nat)
    requires s < n && FromMutations(n, region, ms).Ok?
    ensures var r := FromMutations(n, region, ms).value; var p := Project(SortForLoad(ms), s);
      r.shardCount == n && r.watermarks[s] == |p| && RunsFrom(p, 0)
  {
    MutationsWindowed(n, region, ms);
    ReplayKeepsFloor(New(n, region), SortForLoad(ms));
    var r := FromMutations(n, region, ms).value;
    hide SortForLoad, Project, RunsFrom;
    assert [] + SortForLoad(ms) == SortForLoad(ms);
    assert WindowOf(r.history, s, r.compacted[s], r.watermarks[s]);
  }

  // logs that replay from nothing to the snapshot's watermarks are complete, and the snapshot is up to date
  lemma ShortcutOnlyComplete(n: nat, region: string, logs: seq<seq<Mutation>>, logged: seq<seq<Mutation>>,
                             kept: seq<nat>, w: seq<nat>)
    requires n == |logged| > 0 && KeptFrom(logs, logged, kept) && AtMostEach(kept, w)
    requires FromMutations(n, region, Flatten(logs)).Ok? && FromMutations(n, region, Flatten(logs)).value.watermarks == w
    ensures Untrimmed(kept) && w == Lengths(logged)
  {
    forall s | 0 <= s < n
      ensures kept[s] == 0 && w[s] == |logged[s]|
    {
      ReplayedWindow(n, region, Flatten(logs), s);
      KeptStream(logs, logged, kept, s);
      assert kept[s] <= |logged[s]| by { assert Within(kept, logged); }
      hide FromMutations, Flatten, SortForLoad, Project, KeptFrom;
      if kept[s] < |logged[s]| {
        assert logged[s][kept[s]..][0].commitId.seqNo == kept[s] + 1;
      }
    }
  }

  /** What a load rebuilds: everything logged, with the history that the logs still had. */
  ghost predicate Rebuilt(r: Source, logs: seq<seq<Mutation>>, logged: seq<seq<Mutation>>, kept: seq<nat>) {
    && |logged| > 0 && r.Shaped() && r.shardCount == |logged| && r.watermarks == Lengths(logged)
    && Represents(r.entries, r.rules, logged, Lengths(logged))
    && r.history == SortForLoad(Flatten(logs)) && r.compacted == kept
  }

  lemma NewRepresents(n: nat, region: string, logged: seq<seq<Mutation>>, kept: seq<nat>)
    requires n == |logged| == |kept| > 0 && Untrimmed(kept)
    ensures var src := New(n, region);
      && src.watermarks == kept && src.compacted == kept && src.shardCount == n && src.history == [] && src.opIndex == map[]
      && Within(kept, logged) && Represents(src.entries, src.rules, logged, kept)
  {
    EmptyRepresents(logged);
    assert kept == seq(n, _ => 0);
    hide Represents;
  }

  lemma CompleteLogsRebuild(n: nat, region: string, logs: seq<seq<Mutation>>, logged: seq<seq<Mutation>>,
                            kept: seq<nat>, full: map<string, Mutation>)
    requires n == |logged| > 0 && KeptFrom(logs, logged, kept) && Untrimmed(kept)
    requires AllIndexed(Flatten(logs), full)
    ensures var r := FromMutations(n, region, Flatten(logs));
      && r.Ok? && Rebuilt(r.value, logs, logged, kept) && SubIndex(r.value.opIndex, full)
      && (forall i :: 0 <= i < |Flatten(logs)| ==> Flatten(logs)[i].opId in r.value.opIndex)
  {
    var src := New(n, region);
    var all := Flatten(logs);
    NewRepresents(n, region, logged, kept);
    KeptInterleaves(logs, logged, kept);
    hide Represents, New, Flatten, ShardKept, Interleaves, SortForLoad, AllIndexed, ReplayLoaded, ValidLogs, Indexes;
    LoadTail(src, logged, kept, all, full);
    assert [] + SortForLoad(all) == SortForLoad(all);
  }

  // ---------- retained logs ----------

  lemma RetainBaseFits(region: string, disk: Disk, logged: seq<seq<Mutation>>, kept: seq<nat>, full: map<string, Mutation>)
    requires DiskHolds(disk, logged, kept, full) && disk.snapshot.Some?
    requires Represents(EntryTable(disk.snapshot.value.entries), RuleTable(disk.snapshot.value.rules),
                        logged, disk.snapshot.value.watermarks)
    ensures InsertOps(map[], IdempotencyOf(disk)).Ok? && |disk.snapshot.value.watermarks| == |kept| == |logged|
    ensures var base := RetainBase(|logged|, region, disk.snapshot.value, IdempotencyOf(disk), kept);
      && Rebuilding(base, kept, logged, full) && base.history == [] && base.compacted == kept
      && (forall i :: 0 <= i < |IdempotencyOf(disk)| ==> IdempotencyOf(disk)[i].opId in base.opIndex)
  {
    InsertOpsWithin(map[], IdempotencyOf(disk), full);
    hide Represents, ValidLogs, InsertOps, ShardKept, IdempotencyOf, AllIndexed, SubIndex, EntryTable, RuleTable;
  }

  lemma KeptSorted(disk: Disk, logged: seq<seq<Mutation>>, kept: seq<nat>, full: map<string, Mutation>)
    requires DiskHolds(disk, logged, kept, full)
    ensures var sorted := SortForLoad(Flatten(disk.logs));
      AllIndexed(sorted, full) && Within(kept, logged) && Interleaves(sorted, logged, kept, Lengths(logged))
  {
    var all := Flatten(disk.logs);
    LogsIn(disk, full);
    KeptInterleaves(disk.logs, logged, kept);
    hide Flatten, SortForLoad, AllIndexed, Interleaves, ShardKept, SnapshotFits;
    AllIndexedPermutation(all, SortForLoad(all), full);
    SortedInterleaves(all, logged, kept, Lengths(logged));
  }

  lemma RebuildingEnd(src: Source, logs: seq<seq<Mutation>>, full: map<string, Mutation>)
    requires Rebuilding(src, Lengths(logs), logs, full)
    ensures |logs| > 0 && Within(Lengths(logs), logs) && src.Shaped() && src.shardCount == |logs| && SubIndex(src.opIndex, full)
    ensures src.watermarks == Lengths(logs) && Represents(src.entries, src.rules, logs, Lengths(logs))
  {
    assert forall s :: 0 <= s < |logs| ==> src.watermarks[s] == Lengths(logs)[s];
    hide Represents, ValidLogs, SubIndex;
  }

  lemma HeldIsLoop(region: string, disk: Disk, logged: seq<seq<Mutation>>, kept: seq<nat>, full: map<string, Mutation>)
    requires DiskHolds(disk, logged, kept, full) && disk.snapshot.Some? && InsertOps(map[], IdempotencyOf(disk)).Ok?
    ensures |disk.snapshot.value.watermarks| == |kept| == |logged|
    ensures FromSnapshotAndRetained(|logged|, region, disk.snapshot.value, IdempotencyOf(disk), Flatten(disk.logs), kept)
      == RetainOutcome(RetainLoop(RetainBase(|logged|, region, disk.snapshot.value, IdempotencyOf(disk), kept),
                                  kept, SortForLoad(Flatten(disk.logs))))
  {
    hide AllIndexed, InsertOps, IdempotencyOf, ShardKept, ValidLogs, Flatten, FromSnapshotAndRetained, RetainLoop, SortForLoad;
    RetainedIsLoop(|logged|, region, disk.snapshot.value, IdempotencyOf(disk), Flatten(disk.logs), kept);
  }

  lemma RetainedRebuild(region: string, disk: Disk, logged: seq<seq<Mutation>>, kept: seq<nat>, full: map<string, Mutation>)
    requires DiskHolds(disk, logged, kept, full) && disk.snapshot.Some?
    requires Represents(EntryTable(disk.snapshot.value.entries), RuleTable(disk.snapshot.value.rules),
                        logged, disk.snapshot.value.watermarks)
    ensures var r := FromSnapshotAndRetained(|logged|, region, disk.snapshot.value, IdempotencyOf(disk), Flatten(disk.logs), kept);
      && r.Ok? && Rebuilt(r.value, disk.logs, logged, kept) && SubIndex(r.value.opIndex, full)
      && (forall i :: 0 <= i < |IdempotencyOf(disk)| ==> IdempotencyOf(disk)[i].opId in r.value.opIndex)
  {
    KeptSorted(disk, logged, kept, full);
    RetainBaseFits(region, disk, logged, kept, full);
    HeldIsLoop(region, disk, logged, kept, full);
    hide *;
    var sorted, base := SortForLoad(Flatten(disk.logs)), RetainBase(|logged|, region, disk.snapshot.value, IdempotencyOf(disk), kept);
    RetainLoopRebuilds(base, kept, sorted, logged, full);
    var t := RetainLoop(base, kept, sorted).value.0;
    RebuildingEnd(t, logged, full);
    assert t.history == [] + sorted == sorted;
    RebuiltOf(t, disk.logs, logged, kept);
  }

  lemma RebuiltOf(r: Source, logs: seq<seq<Mutation>>, logged: seq<seq<Mutation>>, kept: seq<nat>)
    requires |logged| > 0 && r.Shaped() && r.shardCount == |logged| && r.watermarks == Lengths(logged)
    requires Within(Lengths(logged), logged) && Represents(r.entries, r.rules, logged, Lengths(logged))
    requires r.history == SortForLoad(Flatten(logs)) && r.compacted == kept
    ensures Rebuilt(r, logs, logged, kept)
  {
  }

  // ---------- what a load with a publisher does ----------

  /** The choice that load_source_of_truth makes. */
  lemma LoadChooses(disk: Disk, n: nat, region: string, published: seq<nat>)
    requires n > 0 && FlatLogs(disk.logs, n) && |published| == n
    requires disk.snapshot.Some? && disk.snapshot.value.Validates() && disk.snapshot.value.shardCount == n
    ensures var all, snap := Flatten(disk.logs), disk.snapshot.value; var replayed := FromMutations(n, region, all);
      Load(disk, n, region, Some(published)) ==
        if all != [] && replayed.Ok? && replayed.value.watermarks == snap.watermarks then replayed
        else FromSnapshotAndRetained(n, region, snap, IdempotencyOf(disk), all, Lowered(published, snap.watermarks))
  {
    hide Flatten, FromMutations, FromSnapshotAndRetained, Lowered;
  }

  // the logs are complete, and the snapshot is up to date with them
  predicate Complete(disk: Disk, logged: seq<seq<Mutation>>, kept: seq<nat>) {
    && disk.snapshot.Some? && Flatten(disk.logs) != [] && Untrimmed(kept)
    && disk.snapshot.value.watermarks == Lengths(logged)
  }

  lemma ShortcutTakenIff(disk: Disk, region: string, logged: seq<seq<Mutation>>, kept: seq<nat>, full: map<string, Mutation>)
    requires DiskHolds(disk, logged, kept, full) && disk.snapshot.Some?
    ensures var all := Flatten(disk.logs); var r := FromMutations(|logged|, region, all);
      all != [] && r.Ok? && r.value.watermarks == disk.snapshot.value.watermarks <==> Complete(disk, logged, kept)
  {
    var all, w := Flatten(disk.logs), disk.snapshot.value.watermarks;
    LogsIn(disk, full);
    hide FromMutations, Flatten, AllIndexed, IdempotencyOf, KeptFrom, Lengths;
    if Untrimmed(kept) {
      CompleteLogsRebuild(|logged|, region, disk.logs, logged, kept, full);
      hide Represents, SubIndex;
    } else if FromMutations(|logged|, region, all).Ok? && FromMutations(|logged|, region, all).value.watermarks == w {
      ShortcutOnlyComplete(|logged|, region, disk.logs, logged, kept, w);
    }
  }

  // of one shard, what is kept runs from the floor, up to the snapshot, exactly when it starts there
  lemma ShardTakenIff(logs: seq<seq<Mutation>>, logged: seq<seq<Mutation>>, kept: seq<nat>, s: nat, floor: nat, snapshot: nat)
    requires KeptFrom(logs, logged, kept) && s < |logged| && kept[s] <= floor <= snapshot <= |logged[s]|
    ensures var p := Project(SortForLoad(Flatten(logs)), s);
      RunsFrom(p, floor) && floor + |p| >= snapshot <==> kept[s] == floor
  {
    KeptStream(logs, logged, kept, s);
    hide KeptFrom, Project, SortForLoad, Flatten, RunsFrom;
    ShardReload(logged[s][kept[s]..], kept[s], floor, snapshot);
  }

  lemma FitsShape(disk: Disk, logged: seq<seq<Mutation>>, kept: seq<nat>, published: seq<nat>, full: map<string, Mutation>)
    requires DiskHolds(disk, logged, kept, full) && disk.snapshot.Some? && AtMostEach(kept, published)
    ensures var snap := disk.snapshot.value; var floor := Lowered(published, snap.watermarks);
      && snap.Validates() && snap.shardCount == |logged| == |kept| == |floor| > 0 && AllIndexed(IdempotencyOf(disk), full)
      && KeptFrom(disk.logs, logged, kept)
      && forall s :: 0 <= s < |logged| ==> kept[s] <= floor[s] <= snap.watermarks[s] <= |logged[s]|
  {
    hide AllIndexed, IdempotencyOf, KeptFrom;
  }

  lemma RetainedTakenIff(disk: Disk, region: string, logged: seq<seq<Mutation>>, kept: seq<nat>,
                         published: seq<nat>, full: map<string, Mutation>)
    requires DiskHolds(disk, logged, kept, full) && disk.snapshot.Some? && AtMostEach(kept, published)
    ensures var snap := disk.snapshot.value;
      && |snap.watermarks| == |published| == |logged|
      && var floor := Lowered(published, snap.watermarks);
      FromSnapshotAndRetained(|logged|, region, snap, IdempotencyOf(disk), Flatten(disk.logs), floor).Ok? <==> kept == floor
  {
    var n, snap, all := |logged|, disk.snapshot.value, Flatten(disk.logs);
    FitsShape(disk, logged, kept, published, full);
    var floor := Lowered(published, snap.watermarks);
    LogsIn(disk, full);
    KeptStream(disk.logs, logged, kept, 0);
    hide AllIndexed, Flatten, SortForLoad, FromSnapshotAndRetained, RunsFromFloor, Project, RunsFrom, IdempotencyOf, KeptFrom, DiskHolds;
    RetainedAcceptsRuns(n, region, snap, IdempotencyOf(disk), all, floor, full);
    forall s | 0 <= s < n
      ensures (RunsFrom(Project(SortForLoad(all), s), floor[s])
               && floor[s] + |Project(SortForLoad(all), s)| >= snap.watermarks[s]) <==> kept[s] == floor[s]
    {
      ShardTakenIff(disk.logs, logged, kept, s, floor[s], snap.watermarks[s]);
    }
    RunsFromEach(SortForLoad(all), floor, n);
  }

  lemma RunsFromEach(ms: seq<Mutation>, floor: seq<nat>, n: nat)
    requires InShards(ms, n) && n == |floor|
    ensures RunsFromFloor(ms, floor) <==> forall s :: 0 <= s < n ==> RunsFrom(Project(ms, s), floor[s])
  {
  }

  /** Reloading with a publisher, exactly. Of a disk whose logs were rewritten up to kept, never beyond
      the published offsets or the snapshot, load_source_of_truth makes a source if and only if there is
      no snapshot, or every shard was rewritten up to precisely the lower of its offset and its snapshot
      watermark, or nothing was rewritten and the snapshot has everything logged. */
  lemma PublisherReloadIff(disk: Disk, region: string, logged: seq<seq<Mutation>>, kept: seq<nat>,
                           published: seq<nat>, full: map<string, Mutation>)
    requires DiskHolds(disk, logged, kept, full) && AtMostEach(kept, published)
    ensures FlatLogs(disk.logs, |logged|)
    ensures Load(disk, |logged|, region, Some(published)).Ok? <==>
      || disk.snapshot.None?
      || (|disk.snapshot.value.watermarks| == |published| && kept == Lowered(published, disk.snapshot.value.watermarks))
      || Complete(disk, logged, kept)
  {
    HeldLogs(disk, logged, kept, full);
    hide AllIndexed, Flatten, FromMutations, FromSnapshotAndRetained, KeptFrom, Represents, Indexes;
    if disk.snapshot.None? {
      LogsIn(disk, full);
      hide IdempotencyOf;
      CompleteLogsRebuild(|logged|, region, disk.logs, logged, kept, full);
    } else {
      hide IdempotencyOf, Load;
      ShortcutTakenIff(disk, region, logged, kept, full);
      RetainedTakenIff(disk, region, logged, kept, published, full);
      LoadChooses(disk, |logged|, region, published);
    }
  }

  // ---------- what it rebuilds ----------

  /** The disk tells everything: the snapshot has the tables of its watermarks, the op-id file and the
      logs have every op id. */
  ghost predicate Tells(disk: Disk, logged: seq<seq<Mutation>>, full: map<string, Mutation>) {
    && |logged| > 0 && Indexes(full, logged, Lengths(logged))
    && (forall s :: 0 <= s < |logged| ==> ShardListed(logged[s], |logged[s]|, IdempotencyOf(disk)))
    && (disk.snapshot.Some? ==>
          var snap := disk.snapshot.value;
          Within(snap.watermarks, logged)
          && Represents(EntryTable(snap.entries), RuleTable(snap.rules), logged, snap.watermarks))
  }

  // op ids of one index that cover the logs are that index
  lemma IndexFull(index: map<string, Mutation>, ms: seq<Mutation>, logged: seq<seq<Mutation>>, full: map<string, Mutation>)
    requires |logged| > 0 && Indexes(full, logged, Lengths(logged)) && SubIndex(index, full)
    requires forall i :: 0 <= i < |ms| ==> ms[i].opId in index
    requires forall s :: 0 <= s < |logged| ==> ShardListed(logged[s], |logged[s]|, ms)
    ensures index == full
  {
    hide Indexes, SubIndex;
    forall s | 0 <= s < |logged|
      ensures ShardIndexed(logged[s], index)
    {
      ListedIndexed(logged[s], ms, index);
    }
    CoveringIsFull(index, full, logged);
  }

  // logs that were never rewritten have everything
  lemma UntrimmedListed(logs: seq<seq<Mutation>>, logged: seq<seq<Mutation>>, kept: seq<nat>, s: nat)
    requires KeptFrom(logs, logged, kept) && Untrimmed(kept) && s < |logged|
    ensures ShardListed(logged[s], |logged[s]|, Flatten(logs))
  {
    assert ShardKept(logs[s], logged[s], kept[s]);
    hide Flatten, ValidLogs;
    forall i | 0 <= i < |logged[s]|
      ensures logged[s][i] in Flatten(logs)
    {
      FlattenMembers(logs, s, i);
    }
  }

  lemma CompleteLoadRebuilds(disk: Disk, region: string, logged: seq<seq<Mutation>>, kept: seq<nat>, full: map<string, Mutation>)
    requires DiskHolds(disk, logged, kept, full) && Tells(disk, logged, full) && Untrimmed(kept)
    ensures var r := FromMutations(|logged|, region, Flatten(disk.logs));
      r.Ok? && Rebuilt(r.value, disk.logs, logged, kept) && r.value.opIndex == full && Windowed(r.value)
  {
    var all := Flatten(disk.logs);
    LogsIn(disk, full);
    forall s | 0 <= s < |logged|
      ensures ShardListed(logged[s], |logged[s]|, all)
    {
      UntrimmedListed(disk.logs, logged, kept, s);
    }
    hide Flatten, FromMutations, IdempotencyOf, AllIndexed, KeptFrom, Rebuilt, Indexes, Represents, Windowed, ShardListed, SubIndex;
    CompleteLogsRebuild(|logged|, region, disk.logs, logged, kept, full);
    IndexFull(FromMutations(|logged|, region, all).value.opIndex, all, logged, full);
    MutationsWindowed(|logged|, region, all);
  }

  lemma RetainedLoadRebuilds(disk: Disk, region: string, logged: seq<seq<Mutation>>, kept: seq<nat>, full: map<string, Mutation>)
    requires DiskHolds(disk, logged, kept, full) && Tells(disk, logged, full) && disk.snapshot.Some?
    ensures var r := FromSnapshotAndRetained(|logged|, region, disk.snapshot.value, IdempotencyOf(disk), Flatten(disk.logs), kept);
      r.Ok? && Rebuilt(r.value, disk.logs, logged, kept) && r.value.opIndex == full && Windowed(r.value)
  {
    var snap, ms, all := disk.snapshot.value, IdempotencyOf(disk), Flatten(disk.logs);
    hide Flatten, FromSnapshotAndRetained, IdempotencyOf, DiskHolds, Rebuilt, Indexes, Represents, Windowed, ShardListed, SubIndex;
    RetainedRebuild(region, disk, logged, kept, full);
    IndexFull(FromSnapshotAndRetained(|logged|, region, snap, ms, all, kept).value.opIndex, ms, logged, full);
    RetainedWindowed(|logged|, region, snap, ms, all, kept);
  }

  /** A load with a publisher that succeeds rebuilds the tables, the watermarks and the op index of
      everything logged; its history is what the logs still had, a window from where they were rewritten. */
  lemma PublisherReloadRebuilds(disk: Disk, region: string, logged: seq<seq<Mutation>>, kept: seq<nat>,
                                published: seq<nat>, full: map<string, Mutation>)
    requires DiskHolds(disk, logged, kept, full) && AtMostEach(kept, published) && Tells(disk, logged, full)
    requires FlatLogs(disk.logs, |logged|) && Load(disk, |logged|, region, Some(published)).Ok?
    ensures var r := Load(disk, |logged|, region, Some(published)).value;
      Rebuilt(r, disk.logs, logged, kept) && r.opIndex == full && Windowed(r)
  {
    PublisherReloadIff(disk, region, logged, kept, published, full);
    hide Flatten, FromMutations, FromSnapshotAndRetained, IdempotencyOf, DiskHolds, Tells, Rebuilt, Windowed;
    if disk.snapshot.None? {
      assert Untrimmed(kept) by { HoldsUntrimmed(disk, logged, kept, full); }
      CompleteLoadRebuilds(disk, region, logged, kept, full);
    } else {
      FitsShape(disk, logged, kept, published, full);
      ShortcutTakenIff(disk, region, logged, kept, full);
      LoadChooses(disk, |logged|, region, published);
      hide Load;
      if Complete(disk, logged, kept) {
        CompleteLoadRebuilds(disk, region, logged, kept, full);
      } else {
        RetainedLoadRebuilds(disk, region, logged, kept, full);
      }
    }
  }

  lemma HoldsUntrimmed(disk: Disk, logged: seq<seq<Mutation>>, kept: seq<nat>, full: map<string, Mutation>)
    requires DiskHolds(disk, logged, kept, full) && disk.snapshot.None?
    ensures Untrimmed(kept)
  {
  }
}
