/** Replaying sharded logs. A mutation's shard is a function of the key it touches, so what a
    key holds depends on its own shard's log alone; every interleaving of the shard logs, and
    the shard-sorted order used at load, therefore rebuilds the same tables. */
module Replay {
  import opened Domain
  import opened Text
  import opened SourceSpec

  // The shard that prepare_commit, prepare_rule_commit and the rollback commits route to.
  predicate Routed(m: Mutation, n: nat) {
    m.commitId.shardId ==
    ShardForHash(if m.rule.Some? then m.rule.value.ruleHash else m.entry.keyHash, n)
  }

  /** What a log says about one key: the last mutation that touches it decides. */
  function EntryOf(log: seq<Mutation>, k: AclKey): Option<DenyEntry> {
    if log == [] then None
    else
      var m := log[|log| - 1];
      if m.rule.None? && m.entry.Key() == k then (if m.entry.action.Delete? then None else Some(m.entry))
      else EntryOf(log[..|log| - 1], k)
  }

  function RuleOf(log: seq<Mutation>, k: RuleKey): Option<RuleEntry> {
    if log == [] then None
    else
      var m := log[|log| - 1];
      if m.rule.Some? && m.rule.value.Key() == k then
        (if m.rule.value.action.Delete? then None else Some(m.rule.value))
      else RuleOf(log[..|log| - 1], k)
  }

  /** The committed logs: shard s holds its mutations 1, 2, 3, ... each routed there. */
  ghost predicate ValidLogs(logs: seq<seq<Mutation>>) {
    forall s, i {:trigger logs[s][i]} :: 0 <= s < |logs| && 0 <= i < |logs[s]| ==>
      logs[s][i].commitId.shardId == s && logs[s][i].commitId.seqNo == i + 1 && Routed(logs[s][i], |logs|)
  }

  ghost predicate Within(w: seq<nat>, logs: seq<seq<Mutation>>) {
    |w| == |logs| > 0 && forall s :: 0 <= s < |w| ==> w[s] <= |logs[s]|
  }

  function Lengths(logs: seq<seq<Mutation>>): (w: seq<nat>)
    ensures |w| == |logs| && forall s :: 0 <= s < |w| ==> w[s] == |logs[s]|
  {
    seq(|logs|, s requires 0 <= s < |logs| => |logs[s]|)
  }

  function ShardOfEntry(k: AclKey, n: nat): nat { ShardForHash(k.keyHash, n) }

  function ShardOfRule(k: RuleKey, n: nat): nat { ShardForHash(k.ruleHash, n) }

  /** The tables hold exactly what the first w[s] mutations of every shard log s say. */
  ghost predicate Represents(entries: map<AclKey, DenyEntry>, rules: map<RuleKey, RuleEntry>,
                             logs: seq<seq<Mutation>>, w: seq<nat>)
    requires Within(w, logs)
  {
    && (forall k :: Get(entries, k) == EntryOf(logs[ShardOfEntry(k, |w|)][..w[ShardOfEntry(k, |w|)]], k))
    && (forall k :: Get(rules, k) == RuleOf(logs[ShardOfRule(k, |w|)][..w[ShardOfRule(k, |w|)]], k))
  }

  /** The watermark vector alone determines the tables. */
  lemma WatermarksDetermineTables(
    e1: map<AclKey, DenyEntry>, r1: map<RuleKey, RuleEntry>,
    e2: map<AclKey, DenyEntry>, r2: map<RuleKey, RuleEntry>,
    logs: seq<seq<Mutation>>, w: seq<nat>)
    requires Within(w, logs)
    requires Represents(e1, r1, logs, w) && Represents(e2, r2, logs, w)
    ensures e1 == e2 && r1 == r2
  {
    MapsEqualByGet(e1, e2);
    MapsEqualByGet(r1, r2);
  }

  lemma EmptyRepresents(logs: seq<seq<Mutation>>)
    requires |logs| > 0
    ensures var w := seq(|logs|, _ => 0); Within(w, logs) && Represents(map[], map[], logs, w)
  {
  }

  /** Applying the next mutation of one shard moves that shard's watermark and nothing else. */
  lemma StepRepresents(entries: map<AclKey, DenyEntry>, rules: map<RuleKey, RuleEntry>,
                       logs: seq<seq<Mutation>>, w: seq<nat>, s: nat)
    requires ValidLogs(logs) && Within(w, logs) && s < |w| && w[s] < |logs[s]|
    requires Represents(entries, rules, logs, w)
    ensures Within(w[s := w[s] + 1], logs)
    ensures Represents(EntriesAfter(entries, logs[s][w[s]]), RulesAfter(rules, logs[s][w[s]]),
                       logs, w[s := w[s] + 1])
  {
    var m := logs[s][w[s]];
    var w' := w[s := w[s] + 1];
    assert logs[s][..w[s] + 1][..w[s]] == logs[s][..w[s]];
    var entries' := EntriesAfter(entries, m);
    forall k
      ensures Get(entries', k) == EntryOf(logs[ShardOfEntry(k, |w'|)][..w'[ShardOfEntry(k, |w'|)]], k)
    {
      assert Get(entries, k) == EntryOf(logs[ShardOfEntry(k, |w|)][..w[ShardOfEntry(k, |w|)]], k);
      assert m.rule.None? ==> ShardOfEntry(m.entry.Key(), |w|) == s;
    }
    var rules' := RulesAfter(rules, m);
    forall k
      ensures Get(rules', k) == RuleOf(logs[ShardOfRule(k, |w'|)][..w'[ShardOfRule(k, |w'|)]], k)
    {
      assert Get(rules, k) == RuleOf(logs[ShardOfRule(k, |w|)][..w[ShardOfRule(k, |w|)]], k);
      assert m.rule.Some? ==> ShardOfRule(m.rule.value.Key(), |w|) == s;
    }
  }

  // ---------- op ids ----------

  ghost predicate Logged(m: Mutation, logs: seq<seq<Mutation>>, w: seq<nat>)
    requires Within(w, logs)
  {
    exists s, i :: 0 <= s < |w| && 0 <= i < w[s] && logs[s][i] == m
  }

  /** The op index holds the mutations below the watermarks, each under its own op id. */
  ghost predicate Indexes(index: map<string, Mutation>, logs: seq<seq<Mutation>>, w: seq<nat>)
    requires Within(w, logs)
  {
    && (forall s, i {:trigger logs[s][i]} :: 0 <= s < |w| && 0 <= i < w[s] ==>
          Get(index, logs[s][i].opId) == Some(logs[s][i]))
    && (forall op :: op in index ==> index[op].opId == op && Logged(index[op], logs, w))
  }

  lemma StepIndexes(index: map<string, Mutation>, logs: seq<seq<Mutation>>, w: seq<nat>, s: nat)
    requires Within(w, logs) && s < |w| && w[s] < |logs[s]|
    requires Indexes(index, logs, w)
    requires logs[s][w[s]].opId !in index
    ensures Within(w[s := w[s] + 1], logs)
    ensures Indexes(index[logs[s][w[s]].opId := logs[s][w[s]]], logs, w[s := w[s] + 1])
  {
    var m := logs[s][w[s]];
    var w' := w[s := w[s] + 1];
    var index' := index[m.opId := m];
    forall op | op in index'
      ensures Logged(index'[op], logs, w')
    {
      if op == m.opId {
        assert logs[s][w[s]] == m && w[s] < w'[s];
      } else {
        assert Logged(index[op], logs, w);
        var t, i :| 0 <= t < |w| && 0 <= i < w[t] && logs[t][i] == index[op];
        assert i < w'[t];
      }
    }
  }

  ghost predicate SubIndex(index: map<string, Mutation>, full: map<string, Mutation>) {
    forall op :: op in index ==> Get(full, op) == Some(index[op])
  }

  ghost predicate AllIndexed(ms: seq<Mutation>, full: map<string, Mutation>) {
    forall i :: 0 <= i < |ms| ==> Get(full, ms[i].opId) == Some(ms[i])
  }

  /** Op ids that all come from one index never clash. */
  lemma {:induction false} InsertOpsWithin(index: map<string, Mutation>, ms: seq<Mutation>, full: map<string, Mutation>)
    requires SubIndex(index, full) && AllIndexed(ms, full)
    ensures var r := InsertOps(index, ms);
      && r.Ok? && SubIndex(r.value, full)
      && (forall op :: op in index ==> op in r.value)
      && (forall i :: 0 <= i < |ms| ==> ms[i].opId in r.value)
    decreases |ms|
  {
    if ms != [] {
      assert Get(full, ms[0].opId) == Some(ms[0]);
      var next := InsertOp(index, ms[0]).value;
      assert AllIndexed(ms[1..], full);
      InsertOpsWithin(next, ms[1..], full);
      forall i | 0 <= i < |ms|
        ensures ms[i].opId in InsertOps(index, ms).value
      {
        if i > 0 {
          assert ms[i] == ms[1..][i - 1];
        }
      }
    }
  }

  lemma AllIndexedPermutation(a: seq<Mutation>, b: seq<Mutation>, full: map<string, Mutation>)
    requires multiset(a) == multiset(b) && AllIndexed(a, full)
    ensures AllIndexed(b, full)
  {
    forall i | 0 <= i < |b|
      ensures Get(full, b[i].opId) == Some(b[i])
    {
      assert b[i] in multiset(b);
      assert b[i] in a;
    }
  }

  lemma {:induction false} InsertedOps(index: map<string, Mutation>, ms: seq<Mutation>)
    requires InsertOps(index, ms).Ok?
    ensures var r := InsertOps(index, ms).value;
      && (forall op :: op in index ==> Get(r, op) == Some(index[op]))
      && (forall m :: m in ms ==> Get(r, m.opId) == Some(m))
    decreases |ms|
  {
    if ms != [] {
      var next := InsertOp(index, ms[0]).value;
      InsertedOps(next, ms[1..]);
      assert ms == [ms[0]] + ms[1..];
      assert Get(next, ms[0].opId) == Some(ms[0]);
    }
  }

  /** The order of a list does not matter to the op ids it leaves, nor to whether they clash. */
  lemma InsertOpsPermuted(a: seq<Mutation>, b: seq<Mutation>)
    requires multiset(a) == multiset(b) && InsertOps(map[], a).Ok?
    ensures InsertOps(map[], b) == InsertOps(map[], a)
  {
    var full := InsertOps(map[], a).value;
    InsertedOps(map[], a);
    assert AllIndexed(a, full);
    AllIndexedPermutation(a, b, full);
    InsertOpsWithin(map[], a, full);
    InsertOpsWithin(map[], b, full);
    var index := InsertOps(map[], b).value;
    InsertedOps(map[], b);
    InsertOpsOnly(map[], a);
    hide InsertOps;
    forall op
      ensures Get(index, op) == Get(full, op)
    {
      if op in full {
        var m :| m in a && m.opId == op;
        assert m in multiset(b);
        assert m in b;
      }
    }
    MapsEqualByGet(index, full);
  }

  // every op id of the index came from the list
  lemma {:induction false} InsertOpsOnly(index: map<string, Mutation>, ms: seq<Mutation>)
    requires InsertOps(index, ms).Ok?
    ensures forall op :: op in InsertOps(index, ms).value ==> op in index || exists m :: m in ms && m.opId == op
    decreases |ms|
  {
    if ms != [] {
      var next := InsertOp(index, ms[0]).value;
      InsertOpsOnly(next, ms[1..]);
      assert ms == [ms[0]] + ms[1..];
      forall op | op in InsertOps(index, ms).value && op !in index
        ensures exists m :: m in ms && m.opId == op
      {
        if op == ms[0].opId {
          assert ms[0] in ms;
        } else {
          var m :| m in ms[1..] && m.opId == op;
          assert m in ms;
        }
      }
    }
  }

  // ---------- replay of an interleaving ----------

  /** ms takes every shard s from position a[s] to position b[s], in order. */
  ghost predicate Interleaves(ms: seq<Mutation>, logs: seq<seq<Mutation>>, a: seq<nat>, b: seq<nat>)
    requires Within(a, logs) && Within(b, logs)
  {
    && (forall i :: 0 <= i < |ms| ==> ms[i].commitId.shardId < |logs|)
    && (forall s :: 0 <= s < |logs| ==> a[s] <= b[s] && Project(ms, s) == logs[s][a[s]..b[s]])
  }

  lemma {:induction false} ProjectConcat(x: seq<Mutation>, y: seq<Mutation>, s: nat)
    ensures Project(x + y, s) == Project(x, s) + Project(y, s)
    decreases |y|
  {
    if y == [] {
      assert x + y == x;
    } else {
      assert (x + y)[..|x + y| - 1] == x + y[..|y| - 1];
      ProjectConcat(x, y[..|y| - 1], s);
    }
  }

  lemma ProjectHead(ms: seq<Mutation>, s: nat)
    requires ms != []
    ensures Project(ms, s) == (if ms[0].commitId.shardId == s then [ms[0]] else []) + Project(ms[1..], s)
  {
    assert ms == [ms[0]] + ms[1..];
    ProjectConcat([ms[0]], ms[1..], s);
    assert [ms[0]][..0] == [];
    assert Project([ms[0]], s) == if ms[0].commitId.shardId == s then [ms[0]] else [];
  }

  lemma InterleavesHead(ms: seq<Mutation>, logs: seq<seq<Mutation>>, a: seq<nat>, b: seq<nat>)
    requires Within(a, logs) && Within(b, logs) && Interleaves(ms, logs, a, b) && ms != []
    ensures var s := ms[0].commitId.shardId;
      && s < |logs| && a[s] < b[s] && ms[0] == logs[s][a[s]]
      && Within(a[s := a[s] + 1], logs) && Interleaves(ms[1..], logs, a[s := a[s] + 1], b)
  {
    var s := ms[0].commitId.shardId;
    ProjectHead(ms, s);
    assert logs[s][a[s]..b[s]] == Project(ms, s);
    assert logs[s][a[s]..b[s]][0] == ms[0];
    var a' := a[s := a[s] + 1];
    forall t | 0 <= t < |logs|
      ensures a'[t] <= b[t] && Project(ms[1..], t) == logs[t][a'[t]..b[t]]
    {
      ProjectHead(ms, t);
      if t == s {
        assert logs[s][a[s]..b[s]] == [ms[0]] + Project(ms[1..], s);
        assert logs[s][a'[s]..b[s]] == logs[s][a[s]..b[s]][1..];
      } else {
        assert logs[t][a[t]..b[t]] == [] + Project(ms[1..], t);
      }
    }
  }

  /** Loading the next mutation of a shard succeeds when its op id is unused or already its own. */
  lemma LoadNext(src: Source, logs: seq<seq<Mutation>>, a: seq<nat>, s: nat)
    requires src.Shaped() && src.shardCount == |logs|
    requires ValidLogs(logs) && Within(a, logs) && s < |logs| && a[s] < |logs[s]|
    requires src.watermarks == a && Represents(src.entries, src.rules, logs, a)
    requires InsertOp(src.opIndex, logs[s][a[s]]).Ok?
    ensures var m := logs[s][a[s]]; var r := ApplyLoaded(src, m);
      && r.Ok? && Within(a[s := a[s] + 1], logs) && r.value.watermarks == a[s := a[s] + 1]
      && Represents(r.value.entries, r.value.rules, logs, a[s := a[s] + 1])
      && r.value == src.(entries := r.value.entries, rules := r.value.rules, watermarks := r.value.watermarks,
                         history := src.history + [m], opIndex := InsertOp(src.opIndex, m).value)
  {
    StepRepresents(src.entries, src.rules, logs, a, s);
    hide Represents;
  }

  /** Shard commutation. Loading any interleaving of the logs from a to b succeeds, ends at
      watermarks b with the tables that b determines, and appends the interleaving to the
      history. */
  lemma {:induction false} ReplayInterleaving(
    src: Source, logs: seq<seq<Mutation>>, a: seq<nat>, b: seq<nat>, ms: seq<Mutation>)
    requires src.Shaped() && src.shardCount == |logs|
    requires ValidLogs(logs) && Within(a, logs) && Within(b, logs) && Interleaves(ms, logs, a, b)
    requires src.watermarks == a && Represents(src.entries, src.rules, logs, a)
    requires InsertOps(src.opIndex, ms).Ok?
    ensures var r := ReplayLoaded(src, ms);
      && r.Ok? && r.value.watermarks == b
      && Represents(r.value.entries, r.value.rules, logs, b)
      && r.value.history == src.history + ms
      && r.value.opIndex == InsertOps(src.opIndex, ms).value
      && r.value.compacted == src.compacted
      && r.value.epoch == src.epoch && r.value.region == src.region
    decreases |ms|
  {
    hide Represents, Interleaves, ValidLogs;
    if ms == [] {
      InterleavesNothing(logs, a, b);
      assert src.history + ms == src.history;
    } else {
      InterleavesHead(ms, logs, a, b);
      LoadNext(src, logs, a, ms[0].commitId.shardId);
      ReplayInterleaving(ApplyLoaded(src, ms[0]).value, logs,
                         a[ms[0].commitId.shardId := a[ms[0].commitId.shardId] + 1], b, ms[1..]);
      assert src.history + ms == src.history + [ms[0]] + ms[1..];
    }
  }

  lemma InterleavesNothing(logs: seq<seq<Mutation>>, a: seq<nat>, b: seq<nat>)
    requires Within(a, logs) && Within(b, logs) && Interleaves([], logs, a, b)
    ensures a == b
  {
    forall s | 0 <= s < |logs|
      ensures a[s] == b[s]
    {
      assert Project([], s) == logs[s][a[s]..b[s]];
    }
  }

  lemma {:induction false} ProjectCount(ms: seq<Mutation>, m: Mutation)
    ensures multiset(Project(ms, m.commitId.shardId))[m] == multiset(ms)[m]
  {
    if ms != [] {
      var init, last := ms[..|ms| - 1], ms[|ms| - 1];
      ProjectCount(init, m);
      assert ms == init + [last];
    }
  }

  /** Two interleavings of the same stretch of the logs hold the same mutations. */
  lemma SameMutations(logs: seq<seq<Mutation>>, a: seq<nat>, b: seq<nat>, x: seq<Mutation>, y: seq<Mutation>)
    requires Within(a, logs) && Within(b, logs) && Interleaves(x, logs, a, b) && Interleaves(y, logs, a, b)
    ensures multiset(x) == multiset(y)
  {
    forall m
      ensures multiset(x)[m] == multiset(y)[m]
    {
      var s := m.commitId.shardId;
      ProjectCount(x, m);
      ProjectCount(y, m);
      if s < |logs| {
        assert Project(x, s) == Project(y, s);
      } else {
        assert m !in x && m !in y;
      }
    }
  }

  /** Two replays that keep each shard's order end in the same tables, watermarks and op index,
      however they interleave the shards. */
  lemma ShardCommutation(n: nat, region: string, logs: seq<seq<Mutation>>, b: seq<nat>,
                         x: seq<Mutation>, y: seq<Mutation>)
    requires n == |logs| && ValidLogs(logs) && Within(b, logs)
    requires Interleaves(x, logs, seq(n, _ => 0), b) && Interleaves(y, logs, seq(n, _ => 0), b)
    requires InsertOps(map[], x).Ok?
    ensures var rx, ry := ReplayLoaded(New(n, region), x), ReplayLoaded(New(n, region), y);
      && rx.Ok? && ry.Ok?
      && rx.value.entries == ry.value.entries && rx.value.rules == ry.value.rules
      && rx.value.watermarks == ry.value.watermarks == b && rx.value.opIndex == ry.value.opIndex
  {
    var src := New(n, region);
    EmptyRepresents(logs);
    hide Represents, ValidLogs, Interleaves, ReplayLoaded, InsertOps;
    SameMutations(logs, src.watermarks, b, x, y);
    InsertOpsPermuted(x, y);
    ReplayInterleaving(src, logs, src.watermarks, b, x);
    ReplayInterleaving(src, logs, src.watermarks, b, y);
    var rx, ry := ReplayLoaded(src, x).value, ReplayLoaded(src, y).value;
    WatermarksDetermineTables(rx.entries, rx.rules, ry.entries, ry.rules, logs, b);
  }

  // ---------- the shard-sorted order used at load ----------

  // the sort key (shard_id, seq, op_id) of the constructors
  predicate LoadLeq(x: Mutation, y: Mutation) {
    var a, b := x.commitId, y.commitId;
    || a.shardId < b.shardId
    || (a.shardId == b.shardId
        && (a.seqNo < b.seqNo || (a.seqNo == b.seqNo && StringLeq(x.opId, y.opId))))
  }

  function InsertForLoad(m: Mutation, sorted: seq<Mutation>): seq<Mutation> {
    if sorted == [] || LoadLeq(m, sorted[0]) then [m] + sorted
    else [sorted[0]] + InsertForLoad(m, sorted[1..])
  }

  // sort_by_key is a stable sort, as insertion is
  function SortForLoad(ms: seq<Mutation>): (r: seq<Mutation>)
    ensures multiset(r) == multiset(ms)
  {
    if ms == [] then []
    else
      assert ms == [ms[0]] + ms[1..];
      var rest := SortForLoad(ms[1..]);
      InsertIsPermutation(ms[0], rest);
      InsertForLoad(ms[0], rest)
  }

  lemma {:induction false} InsertIsPermutation(m: Mutation, sorted: seq<Mutation>)
    ensures multiset(InsertForLoad(m, sorted)) == multiset(sorted) + multiset{m}
  {
    if sorted != [] && !LoadLeq(m, sorted[0]) {
      InsertIsPermutation(m, sorted[1..]);
      assert sorted == [sorted[0]] + sorted[1..];
    }
  }

  lemma {:induction false} InsertProjects(m: Mutation, sorted: seq<Mutation>, s: nat)
    requires m.commitId.shardId == s ==>
      forall i :: 0 <= i < |sorted| && sorted[i].commitId.shardId == s ==> m.commitId.seqNo < sorted[i].commitId.seqNo
    ensures Project(InsertForLoad(m, sorted), s)
         == (if m.commitId.shardId == s then [m] else []) + Project(sorted, s)
  {
    var r := InsertForLoad(m, sorted);
    if sorted == [] || LoadLeq(m, sorted[0]) {
      ProjectHead(r, s);
      assert r[1..] == sorted;
    } else {
      InsertProjects(m, sorted[1..], s);
      ProjectHead(r, s);
      assert r[1..] == InsertForLoad(m, sorted[1..]);
      ProjectHead(sorted, s);
    }
  }

  ghost predicate Ascending(ms: seq<Mutation>) {
    forall i, j :: 0 <= i < j < |ms| && ms[i].commitId.shardId == ms[j].commitId.shardId ==>
      ms[i].commitId.seqNo < ms[j].commitId.seqNo
  }

  /** Sorting for load keeps every shard's stream when the streams ascend. */
  lemma {:induction false} SortProjects(ms: seq<Mutation>, s: nat)
    requires Ascending(ms)
    ensures Project(SortForLoad(ms), s) == Project(ms, s)
  {
    if ms != [] {
      var rest := SortForLoad(ms[1..]);
      forall i | 0 <= i < |rest| && rest[i].commitId.shardId == ms[0].commitId.shardId
        ensures ms[0].commitId.seqNo < rest[i].commitId.seqNo
      {
        assert rest[i] in multiset(rest);
        assert rest[i] in ms[1..];
        var j :| 0 <= j < |ms[1..]| && ms[1..][j] == rest[i];
        assert ms[j + 1] == rest[i];
      }
      SortProjects(ms[1..], s);
      InsertProjects(ms[0], rest, s);
      ProjectHead(ms, s);
    }
  }

  lemma {:induction false} ProjectIndex(ms: seq<Mutation>, i: nat)
    requires i < |ms|
    ensures var s := ms[i].commitId.shardId;
      |Project(ms[..i], s)| < |Project(ms, s)| && Project(ms, s)[|Project(ms[..i], s)|] == ms[i]
  {
    var s := ms[i].commitId.shardId;
    assert ms == ms[..i] + [ms[i]] + ms[i + 1..];
    ProjectConcat(ms[..i] + [ms[i]], ms[i + 1..], s);
    ProjectConcat(ms[..i], [ms[i]], s);
    assert [ms[i]][..0] == [];
    assert Project([ms[i]], s) == [ms[i]];
  }

  lemma InterleavingAscends(ms: seq<Mutation>, logs: seq<seq<Mutation>>, a: seq<nat>, b: seq<nat>)
    requires ValidLogs(logs) && Within(a, logs) && Within(b, logs) && Interleaves(ms, logs, a, b)
    ensures Ascending(ms)
  {
    forall i, j | 0 <= i < j < |ms| && ms[i].commitId.shardId == ms[j].commitId.shardId
      ensures ms[i].commitId.seqNo < ms[j].commitId.seqNo
    {
      var s := ms[i].commitId.shardId;
      ProjectIndex(ms, i);
      ProjectIndex(ms, j);
      ProjectIndex(ms[..j], i);
      assert ms[..j][..i] == ms[..i];
      var p := Project(ms, s);
      var x, y := |Project(ms[..i], s)|, |Project(ms[..j], s)|;
      assert p == logs[s][a[s]..b[s]];
      assert p[x] == logs[s][a[s] + x] && p[y] == logs[s][a[s] + y];
    }
  }

  /** The order used at load is one of the interleavings that ReplayInterleaving covers. */
  lemma SortedInterleaves(ms: seq<Mutation>, logs: seq<seq<Mutation>>, a: seq<nat>, b: seq<nat>)
    requires ValidLogs(logs) && Within(a, logs) && Within(b, logs) && Interleaves(ms, logs, a, b)
    ensures Interleaves(SortForLoad(ms), logs, a, b)
  {
    InterleavingAscends(ms, logs, a, b);
    var r := SortForLoad(ms);
    forall i | 0 <= i < |r|
      ensures r[i].commitId.shardId < |logs|
    {
      assert r[i] in multiset(r);
      assert r[i] in ms;
    }
    forall s | 0 <= s < |logs|
      ensures Project(r, s) == logs[s][a[s]..b[s]]
    {
      SortProjects(ms, s);
    }
  }
}
