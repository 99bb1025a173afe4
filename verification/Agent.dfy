/** The agent (crates/globacl-agent/src/app/poll.rs): it polls a relay shard by shard, applies what it
    is given to a copy of its state, and swaps the copy in only when all of it applied. Through polls,
    bundle repairs and snapshot repairs it stays at a prefix of every shard's committed log. */
module Agent {
  import opened Domain
  import opened SourceSpec
  import opened Replay
  import opened NegativeFilter
  import opened EdgeBase
  import opened ActiveState
  import opened EdgeRefinement
  import RuleIndex
  import Relay

  const DELTA_COMPACT_THRESHOLD: nat := 1024

  // delta_entries_len
  function DeltaLen(e: Edge): nat {
    |e.adds| + |e.removes| + |e.rules.adds| + |e.rules.removes|
  }

  // the apply loop: a gap and any other error end it
  function ApplyAll(e: Edge, ms: seq<Mutation>): (r: Result<Edge>)
    requires e.Shaped()
    ensures r.Ok? ==> r.value.Shaped()
    decreases |ms|
  {
    if ms == [] then Ok(e)
    else
      match Apply(e, ms[0])
      case Err(error) => Err(error)
      case Ok((next, _)) => ApplyAll(next, ms[1..])
  }

  method ApplyLoop(state: ActiveState, ms: seq<Mutation>) returns (r: Result<nat>)
    requires state.Value().Shaped()
    modifies state
    ensures match ApplyAll(old(state.Value()), ms)
      case Ok(value) => r.Ok? && state.Value() == value
      case Err(e) => r == Err(e)
  {
    hide Apply;
    var applied := 0;
    var i := 0;
    while i < |ms|
      invariant i <= |ms| && state.Value().Shaped()
      invariant ApplyAll(state.Value(), ms[i..]) == ApplyAll(old(state.Value()), ms)
    {
      assert ms[i..][1..] == ms[i + 1..];
      var status := state.ApplyMutation(ms[i]);
      if status.Err? {
        return Err(status.error);
      }
      if status.value == Applied {
        applied := applied + 1;
      }
      i := i + 1;
    }
    return Ok(applied);
  }

  // after the loop: compact a large overlay
  ghost function Settle(e: Edge, pair: KeyPair, orders: Orders): Edge
    requires e.Shaped() && (DeltaLen(e) >= DELTA_COMPACT_THRESHOLD ==> PossibleOrders(orders, e))
  {
    if DeltaLen(e) >= DELTA_COMPACT_THRESHOLD then Compacted(e, pair, orders) else e
  }

  // what the relay answers to a poll and, after a gap, to the repair
  datatype Answer =
    | Stream(ms: seq<Mutation>)       // a mutation stream or a delta bundle
    | SnapshotOf(snap: Snapshot)      // 409 or 410, or no bundle: repair from a snapshot
    | Nothing                         // an error, a bad signature, an empty stream

  ghost predicate Honest(answer: Answer, logs: seq<seq<Mutation>>) {
    match answer
    case Stream(ms) => forall i :: 0 <= i < |ms| ==> Relay.Committed(ms[i], logs)
    case SnapshotOf(snap) => SourceSnapshot(snap, logs) && RuleIndex.AllIndexable(snap.rules)
    case Nothing => true
  }

  // one answer: a stream that does not apply to its end leaves the state as it was
  ghost predicate Takes(e: Edge, pair: KeyPair, answer: Answer, after: Edge) {
    && e.Shaped()
    && match answer
       case Stream(ms) =>
         (match ApplyAll(e, ms)
          case Ok(f) =>
            exists orders ::
              (DeltaLen(f) >= DELTA_COMPACT_THRESHOLD ==> PossibleOrders(orders, f)) && after == Settle(f, pair, orders)
          case Err(_) => after == e)
       case SnapshotOf(snap) => RuleIndex.AllIndexable(snap.rules) && after == FromSnapshot(snap, pair)
       case Nothing => after == e
  }

  // applying a committed mutation is taking a delivery
  lemma DeliversCommitted(e: Edge, m: Mutation, pair: KeyPair, logs: seq<seq<Mutation>>)
    requires e.Shaped() && Relay.Committed(m, logs)
    ensures m.commitId.seqNo >= 1
    ensures var event := Deliver(m.commitId.shardId, m.commitId.seqNo - 1);
      && Possible(e, event, logs)
      && (Apply(e, m).Ok? ==> After(e, pair, event, logs) == Apply(e, m).value.0)
  {
    hide Apply, Compacted, PossibleOrders;
  }

  lemma ApplyUpToDate(e: Edge, m: Mutation, pair: KeyPair, logs: seq<seq<Mutation>>)
    requires ValidLogs(logs) && RulesIndexable(logs) && UpToDate(e, pair, logs) && e.Shaped() && Relay.Committed(m, logs)
    ensures Apply(e, m).Ok? ==> UpToDate(Apply(e, m).value.0, pair, logs)
  {
    DeliversCommitted(e, m, pair, logs);
    var event := Deliver(m.commitId.shardId, m.commitId.seqNo - 1);
    hide UpToDate, ValidLogs, RulesIndexable, Apply, Possible, After, Relay.Committed;
    EventKeepsUpToDate(e, pair, event, logs);
  }

  lemma {:induction false} ApplyAllUpToDate(e: Edge, ms: seq<Mutation>, pair: KeyPair, logs: seq<seq<Mutation>>)
    requires ValidLogs(logs) && RulesIndexable(logs) && UpToDate(e, pair, logs) && e.Shaped()
    requires forall i :: 0 <= i < |ms| ==> Relay.Committed(ms[i], logs)
    ensures ApplyAll(e, ms).Ok? ==> UpToDate(ApplyAll(e, ms).value, pair, logs)
    decreases |ms|
  {
    hide Apply, UpToDate, ValidLogs, RulesIndexable, Relay.Committed;
    if ms != [] && Apply(e, ms[0]).Ok? {
      ApplyUpToDate(e, ms[0], pair, logs);
      ApplyAllUpToDate(Apply(e, ms[0]).value.0, ms[1..], pair, logs);
    }
  }

  lemma SettleUpToDate(f: Edge, pair: KeyPair, orders: Orders, logs: seq<seq<Mutation>>)
    requires ValidLogs(logs) && RulesIndexable(logs) && UpToDate(f, pair, logs) && f.Shaped()
    requires DeltaLen(f) >= DELTA_COMPACT_THRESHOLD ==> PossibleOrders(orders, f)
    ensures UpToDate(Settle(f, pair, orders), pair, logs)
  {
    if DeltaLen(f) >= DELTA_COMPACT_THRESHOLD {
      assert Possible(f, CompactOverlay(orders), logs);
      assert After(f, pair, CompactOverlay(orders), logs) == Compacted(f, pair, orders);
      hide Compacted, UpToDate, ValidLogs, RulesIndexable, Possible, PossibleOrders, After;
      EventKeepsUpToDate(f, pair, CompactOverlay(orders), logs);
    }
  }

  /** An honest relay never takes the agent off the committed logs. */
  lemma AnswerKeepsUpToDate(e: Edge, pair: KeyPair, answer: Answer, after: Edge, logs: seq<seq<Mutation>>)
    requires ValidLogs(logs) && RulesIndexable(logs) && UpToDate(e, pair, logs)
    requires Honest(answer, logs) && Takes(e, pair, answer, after)
    ensures UpToDate(after, pair, logs)
  {
    hide ApplyAll, UpToDate, ValidLogs, RulesIndexable, SourceSnapshot, FromSnapshot, Settle, PossibleOrders;
    match answer
    case Stream(ms) =>
      ApplyAllUpToDate(e, ms, pair, logs);
      if ApplyAll(e, ms).Ok? {
        var f := ApplyAll(e, ms).value;
        var orders :| (DeltaLen(f) >= DELTA_COMPACT_THRESHOLD ==> PossibleOrders(orders, f)) && after == Settle(f, pair, orders);
        SettleUpToDate(f, pair, orders, logs);
      }
    case SnapshotOf(snap) => SnapshotUpToDate(snap, pair, logs);
    case Nothing =>
  }

  /** An agent's life: a snapshot, then one answer after another. */
  ghost predicate Life(states: seq<Edge>, answers: seq<Answer>, pair: KeyPair, logs: seq<seq<Mutation>>, snap: Snapshot) {
    && |states| == |answers| + 1
    && ValidLogs(logs) && RulesIndexable(logs) && SourceSnapshot(snap, logs)
    && RuleIndex.AllIndexable(snap.rules) && states[0] == FromSnapshot(snap, pair)
    && forall i :: 0 <= i < |answers| ==> Honest(answers[i], logs) && Takes(states[i], pair, answers[i], states[i + 1])
  }

  /** At every point of every life the agent holds exactly a prefix of each shard's committed log. */
  lemma {:induction false} AgentStaysAtPrefix(
    states: seq<Edge>, answers: seq<Answer>, pair: KeyPair, logs: seq<seq<Mutation>>, snap: Snapshot, i: nat)
    requires Life(states, answers, pair, logs, snap) && i < |states|
    ensures UpToDate(states[i], pair, logs)
  {
    hide UpToDate, Takes, Honest, SourceSnapshot, FromSnapshot, ValidLogs, RulesIndexable;
    if i == 0 {
      SnapshotUpToDate(snap, pair, logs);
    } else {
      AgentStaysAtPrefix(states, answers, pair, logs, snap, i - 1);
      AnswerKeepsUpToDate(states[i - 1], pair, answers[i - 1], states[i], logs);
    }
  }

  // ---------- a relay's answer brings the agent to the relay ----------

  lemma ApplyNext(e: Edge, m: Mutation)
    requires e.Shaped() && m.commitId.shardId < e.shardCount
    requires m.commitId.seqNo == e.watermarks[m.commitId.shardId] + 1
    ensures Apply(e, m).Ok? && Apply(e, m).value.0.shardCount == e.shardCount
    ensures Apply(e, m).value.0.watermarks == e.watermarks[m.commitId.shardId := m.commitId.seqNo]
  {
  }

  /** A run of one shard from the agent's watermark applies to its end, without a gap. */
  lemma {:induction false} RunApplies(e: Edge, logs: seq<seq<Mutation>>, s: nat, upper: nat)
    requires e.Shaped() && Relay.Numbered(logs) && |logs| == e.shardCount && s < |logs|
    requires e.watermarks[s] <= upper <= |logs[s]|
    ensures var r := ApplyAll(e, logs[s][e.watermarks[s]..upper]);
      r.Ok? && r.value.watermarks == e.watermarks[s := upper]
    decreases upper - e.watermarks[s]
  {
    var from := e.watermarks[s];
    var ms := logs[s][from..upper];
    if from < upper {
      assert ms[0] == logs[s][from] && ms[1..] == logs[s][from + 1..upper];
      ApplyNext(e, ms[0]);
      hide Apply;
      RunApplies(Apply(e, ms[0]).value.0, logs, s, upper);
    }
  }

  // settling changes no watermark
  lemma SettledWatermarks(f: Edge, pair: KeyPair, orders: Orders)
    requires f.Shaped() && (DeltaLen(f) >= DELTA_COMPACT_THRESHOLD ==> PossibleOrders(orders, f))
    ensures Settle(f, pair, orders).watermarks == f.watermarks
  {
    hide BuildBase, RuleIndex.Compile, Materialized, MaterializedRules, PossibleOrders;
  }

  /** A poll of an honest relay: unless the relay has dropped what the agent needs, its unfiltered answer to
      the agent's watermark is taken, and brings that shard, and no other, to the relay's watermark. */
  lemma PollCatchesUp(e: Edge, pair: KeyPair, c: Relay.Cache, logs: seq<seq<Mutation>>, s: nat, after: Edge)
    requires e.Shaped() && Relay.Window(c, logs) && Relay.Numbered(logs) && |logs| == e.shardCount && s < |logs|
    requires c.base[s] <= e.watermarks[s] <= c.watermarks[s]
    ensures Relay.Serve(c, s, e.watermarks[s], None).Ok? && Relay.Serve(c, s, e.watermarks[s], None).value.Some?
    ensures var served := Relay.Serve(c, s, e.watermarks[s], None).value.value;
      && ApplyAll(e, served).Ok?
      && (Takes(e, pair, Stream(served), after) ==> after.watermarks == e.watermarks[s := c.watermarks[s]])
  {
    assert Relay.ShardWindow(c.mutations[s], logs[s], c.base[s], c.watermarks[s]);
    Relay.ServesRun(c, s, e.watermarks[s], logs);
    hide ApplyAll, Settle, PossibleOrders;
    RunApplies(e, logs, s, c.watermarks[s]);
    var served := Relay.Serve(c, s, e.watermarks[s], None).value.value;
    if Takes(e, pair, Stream(served), after) {
      var f := ApplyAll(e, served).value;
      var orders :| (DeltaLen(f) >= DELTA_COMPACT_THRESHOLD ==> PossibleOrders(orders, f)) && after == Settle(f, pair, orders);
      SettledWatermarks(f, pair, orders);
    }
  }

  /** After a gap, the relay's bundle up to any number is taken, and brings that shard, and no other, to that
      number, or to the relay's watermark if that is less. */
  lemma BundleCatchesUp(e: Edge, pair: KeyPair, c: Relay.Cache, logs: seq<seq<Mutation>>, s: nat, to: nat, after: Edge)
    requires e.Shaped() && Relay.Window(c, logs) && Relay.Numbered(logs) && |logs| == e.shardCount && s < |logs|
    requires c.base[s] <= e.watermarks[s] <= c.watermarks[s] && e.watermarks[s] <= to
    ensures Relay.Bundle(c, s, e.watermarks[s], to).Ok? && Relay.Bundle(c, s, e.watermarks[s], to).value.Some?
    ensures var bundle := Relay.Bundle(c, s, e.watermarks[s], to).value.value;
      && ApplyAll(e, bundle).Ok?
      && (Takes(e, pair, Stream(bundle), after) ==>
            after.watermarks == e.watermarks[s := if to < c.watermarks[s] then to else c.watermarks[s]])
  {
    var upper := if to < c.watermarks[s] then to else c.watermarks[s];
    assert Relay.ShardWindow(c.mutations[s], logs[s], c.base[s], c.watermarks[s]);
    Relay.BundleIsComplete(c, s, e.watermarks[s], to, logs);
    hide ApplyAll, Settle, PossibleOrders, Relay.Bundle, Relay.Window;
    RunApplies(e, logs, s, upper);
    var bundle := Relay.Bundle(c, s, e.watermarks[s], to).value.value;
    if Takes(e, pair, Stream(bundle), after) {
      var f := ApplyAll(e, bundle).value;
      var orders :| (DeltaLen(f) >= DELTA_COMPACT_THRESHOLD ==> PossibleOrders(orders, f)) && after == Settle(f, pair, orders);
      SettledWatermarks(f, pair, orders);
    }
  }

  /** A stream that does not apply to its end, from a dishonest relay too, changes nothing. */
  lemma BadStreamChangesNothing(e: Edge, pair: KeyPair, ms: seq<Mutation>, after: Edge, i: nat)
    requires e.Shaped() && Takes(e, pair, Stream(ms), after) && i < |ms|
    requires ms[i].commitId.shardId >= e.shardCount
    ensures after == e
  {
    FailsAt(e, ms, i);
    hide ApplyAll, Settle, PossibleOrders;
  }

  lemma {:induction false} FailsAt(e: Edge, ms: seq<Mutation>, i: nat)
    requires e.Shaped() && i < |ms| && ms[i].commitId.shardId >= e.shardCount
    ensures ApplyAll(e, ms).Err?
    decreases i
  {
    if i > 0 && Apply(e, ms[0]).Ok? {
      FailsAt(Apply(e, ms[0]).value.0, ms[1..], i - 1);
    }
  }

  // ---------- the overlay stays small ----------

  /** An overlay of 1024 records or more is emptied; a smaller one is left alone. */
  lemma SettledSmall(f: Edge, pair: KeyPair, orders: Orders)
    requires f.Shaped() && (DeltaLen(f) >= DELTA_COMPACT_THRESHOLD ==> PossibleOrders(orders, f))
    ensures DeltaLen(f) >= 1024 ==> DeltaLen(Settle(f, pair, orders)) == 0
    ensures DeltaLen(f) < 1024 ==> Settle(f, pair, orders) == f
  {
    hide BuildBase, RuleIndex.Compile, Materialized, MaterializedRules, PossibleOrders;
  }

  /** At every point of every life the overlay has fewer records than the threshold, because an answer that
      fills it is followed by a compaction. */
  lemma {:induction false} OverlayStaysSmall(
    states: seq<Edge>, answers: seq<Answer>, pair: KeyPair, logs: seq<seq<Mutation>>, snap: Snapshot, i: nat)
    requires Life(states, answers, pair, logs, snap) && i < |states|
    ensures DeltaLen(states[i]) < 1024
  {
    hide Honest, SourceSnapshot, ValidLogs, RulesIndexable, ApplyAll, Settle, PossibleOrders, BuildBase, RuleIndex.Compile;
    if i > 0 {
      OverlayStaysSmall(states, answers, pair, logs, snap, i - 1);
      assert Takes(states[i - 1], pair, answers[i - 1], states[i]);
      if answers[i - 1].Stream? && ApplyAll(states[i - 1], answers[i - 1].ms).Ok? {
        var f := ApplyAll(states[i - 1], answers[i - 1].ms).value;
        var orders :| (DeltaLen(f) >= DELTA_COMPACT_THRESHOLD ==> PossibleOrders(orders, f))
                      && states[i] == Settle(f, pair, orders);
        SettledSmall(f, pair, orders);
      }
    }
  }
}
