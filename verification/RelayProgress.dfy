/** The relay moves: it takes the next committed mutation, an honest bundle closes any gap, and without a
    rebuild from a snapshot nothing that was delivered is missing from what it serves
    (crates/globacl-relay/src/app/sources.rs). */
module RelayProgress {
  import opened Domain
  import opened SourceSpec
  import opened Replay
  import opened Relay

  // the cache with shard s up to `top`
  ghost predicate Raised(c: Cache, d: Cache, s: nat, top: nat) {
    && s < |c.watermarks| && d.base == c.base && d.watermarks == c.watermarks[s := top]
  }

  /** What a committed mutation does to a cache, by its number: the next one is applied, an older one is a
      duplicate, a later one is a gap that names the number expected. */
  lemma CommittedOutcome(c: Cache, m: Mutation, logs: seq<seq<Mutation>>)
    requires Window(c, logs) && Committed(m, logs)
    ensures var s, n := m.commitId.shardId, m.commitId.seqNo; var r := ApplyToCache(c, m);
      if n == c.watermarks[s] + 1 then
        r.Ok? && r.value.1 && Raised(c, r.value.0, s, n) && r.value.0.mutations == c.mutations[s := c.mutations[s] + [m]]
      else if n <= c.watermarks[s] then r == Ok((c, false))
      else r == Err(Gap(s, c.watermarks[s] + 1, n))
  {
  }

  /** A run of a shard's log that starts at or below the watermark is applied to its end. */
  lemma {:induction false} RunRaises(c: Cache, logs: seq<seq<Mutation>>, s: nat, from: nat, upper: nat)
    requires Window(c, logs) && Numbered(logs) && s < |logs|
    requires from <= upper <= |logs[s]| && from <= c.watermarks[s]
    ensures var (d, ok) := ApplyAll(c, logs[s][from..upper]);
      ok && Window(d, logs) && Raised(c, d, s, if upper < c.watermarks[s] then c.watermarks[s] else upper)
    decreases upper - from
  {
    var ms := logs[s][from..upper];
    if from == upper {
      assert c.watermarks[s := c.watermarks[s]] == c.watermarks;
    } else {
      var m := logs[s][from];
      assert ms[0] == m && ms[1..] == logs[s][from + 1..upper];
      assert Committed(m, logs);
      CommittedOutcome(c, m, logs);
      ApplyKeepsWindow(c, m, logs);
      hide ApplyToCache, Window;
      var d := ApplyToCache(c, m).value.0;
      RunRaises(d, logs, s, from + 1, upper);
    }
  }

  /** An honest and complete bundle: what a source or another relay serves of the gap that was reported. */
  predicate Closes(answer: Answer, c: Cache, m: Mutation, logs: seq<seq<Mutation>>)
    requires m.commitId.shardId < |c.watermarks| == |logs|
  {
    var s, n := m.commitId.shardId, m.commitId.seqNo;
    && c.watermarks[s] <= n <= |logs[s]|
    && answer == BundleOf(logs[s][c.watermarks[s]..n])
  }

  /** After a delivery whose gap, if there is one, was answered by such a bundle, the shard's watermark is at
      least the mutation's number, and precisely that if it was not there before; no other shard moves. */
  lemma DeliveredIsReached(c: Cache, m: Mutation, answer: Answer, logs: seq<seq<Mutation>>)
    requires Window(c, logs) && Numbered(logs) && Committed(m, logs)
    requires m.commitId.seqNo > c.watermarks[m.commitId.shardId] + 1 ==> Closes(answer, c, m, logs)
    ensures var s, n := m.commitId.shardId, m.commitId.seqNo;
      Raised(c, ApplyOrRepair(c, m, answer), s, if n < c.watermarks[s] then c.watermarks[s] else n)
  {
    var s, n := m.commitId.shardId, m.commitId.seqNo;
    CommittedOutcome(c, m, logs);
    if n > c.watermarks[s] + 1 {
      RunRaises(c, logs, s, c.watermarks[s], n);
      var d := ApplyAll(c, logs[s][c.watermarks[s]..n]).0;
      CommittedOutcome(d, m, logs);
      hide ApplyToCache, ApplyAll, Window;
    } else {
      assert c.watermarks[s := c.watermarks[s]] == c.watermarks;
      hide ApplyToCache, Window;
    }
  }

  /** A gap answered by a snapshot starts the cache over at the snapshot's watermarks, and then takes the
      mutation if it is the next one there. */
  lemma RebuiltIsReached(c: Cache, m: Mutation, w: seq<nat>, logs: seq<seq<Mutation>>)
    requires Window(c, logs) && Committed(m, logs) && Within(w, logs)
    requires m.commitId.seqNo > c.watermarks[m.commitId.shardId] + 1
    ensures var s, n := m.commitId.shardId, m.commitId.seqNo; var d := ApplyOrRepair(c, m, SnapshotAt(w));
      && d.base == w && d.watermarks == (if n == w[s] + 1 then w[s := n] else w)
      && (n == w[s] + 1 ==> d.mutations[s] == [m])
  {
    NewWindow(w, logs);
    CommittedOutcome(c, m, logs);
    CommittedOutcome(NewCache(w), m, logs);
    hide ApplyToCache, Window;
  }

  predicate AtMostEach(a: seq<nat>, b: seq<nat>) {
    |a| == |b| && forall s :: 0 <= s < |a| ==> a[s] <= b[s]
  }

  lemma ApplyNeverFalls(c: Cache, m: Mutation)
    requires c.Shaped()
    ensures ApplyToCache(c, m).Ok? ==>
      AtMostEach(c.watermarks, ApplyToCache(c, m).value.0.watermarks) && ApplyToCache(c, m).value.0.base == c.base
  {
  }

  lemma {:induction false} ApplyAllNeverFalls(c: Cache, ms: seq<Mutation>)
    requires c.Shaped()
    ensures AtMostEach(c.watermarks, ApplyAll(c, ms).0.watermarks) && ApplyAll(c, ms).0.base == c.base
    decreases |ms|
  {
    if ms != [] {
      ApplyNeverFalls(c, ms[0]);
      hide ApplyToCache;
      if ApplyToCache(c, ms[0]).Ok? {
        ApplyAllNeverFalls(ApplyToCache(c, ms[0]).value.0, ms[1..]);
      }
    }
  }

  /** Without a rebuild no watermark falls and the base stays. */
  lemma DeliveryNeverFalls(c: Cache, m: Mutation, answer: Answer)
    requires c.Shaped() && !answer.SnapshotAt?
    ensures AtMostEach(c.watermarks, ApplyOrRepair(c, m, answer).watermarks) && ApplyOrRepair(c, m, answer).base == c.base
  {
    ApplyNeverFalls(c, m);
    if answer.BundleOf? {
      ApplyAllNeverFalls(c, answer.ms);
      ApplyNeverFalls(ApplyAll(c, answer.ms).0, m);
    }
    hide ApplyToCache, ApplyAll;
  }

  /** A life in which every gap was answered by a bundle that closes it. */
  ghost predicate Repaired(states: seq<Cache>, deliveries: seq<Delivery>, logs: seq<seq<Mutation>>) {
    && |states| == |deliveries| + 1
    && forall i :: 0 <= i < |deliveries| ==>
         var c, m := states[i], deliveries[i].m;
         && !deliveries[i].answer.SnapshotAt?
         && |c.watermarks| == |logs| && m.commitId.shardId < |logs|
         && (m.commitId.seqNo > c.watermarks[m.commitId.shardId] + 1 ==> Closes(deliveries[i].answer, c, m, logs))
  }

  lemma {:induction false} LifeNeverFalls(states: seq<Cache>, deliveries: seq<Delivery>, w: seq<nat>,
                                          logs: seq<seq<Mutation>>, i: nat, j: nat)
    requires Life(states, deliveries, w, logs) && i <= j < |states|
    requires forall k :: i <= k < j ==> !deliveries[k].answer.SnapshotAt?
    ensures AtMostEach(states[i].watermarks, states[j].watermarks) && states[j].base == states[i].base
    decreases j
  {
    if i < j {
      assert states[j - 1].Shaped() && states[j] == ApplyOrRepair(states[j - 1], deliveries[j - 1].m, deliveries[j - 1].answer);
      LifeNeverFalls(states, deliveries, w, logs, i, j - 1);
      hide Life, ApplyOrRepair;
      DeliveryNeverFalls(states[j - 1], deliveries[j - 1].m, deliveries[j - 1].answer);
    }
  }

  /** Nothing delivered is missing: in a life whose gaps were closed, a mutation delivered once is served,
      ever after, to everyone who asks for its shard from a position below it that the relay covers. */
  lemma DeliveredIsServed(states: seq<Cache>, deliveries: seq<Delivery>, w: seq<nat>, logs: seq<seq<Mutation>>,
                          i: nat, j: nat, from: nat)
    requires Life(states, deliveries, w, logs) && Repaired(states, deliveries, logs) && Numbered(logs)
    requires i < j < |states| && deliveries[i].m.commitId.shardId < |w|
    requires w[deliveries[i].m.commitId.shardId] <= from < deliveries[i].m.commitId.seqNo
    ensures states[j].Shaped()
    ensures var r := Serve(states[j], deliveries[i].m.commitId.shardId, from, None);
      r.Ok? && r.value.Some? && deliveries[i].m in r.value.value
  {
    var m := deliveries[i].m;
    var s, n := m.commitId.shardId, m.commitId.seqNo;
    WindowThroughout(states, deliveries, w, logs, i);
    WindowThroughout(states, deliveries, w, logs, j);
    DeliveredIsReached(states[i], m, deliveries[i].answer, logs);
    LifeNeverFalls(states, deliveries, w, logs, i + 1, j);
    LifeNeverFalls(states, deliveries, w, logs, 0, j);
    var c := states[j];
    assert c.base == w && n <= c.watermarks[s];
    ServesRun(c, s, from, logs);
    hide Life, Repaired, Serve, ApplyOrRepair;
    assert ShardWindow(c.mutations[s], logs[s], c.base[s], c.watermarks[s]);
    assert logs[s][from..c.watermarks[s]][n - 1 - from] == m;
  }

  // ---------- one delivery priority ----------

  /** An answer restricted to one priority is the unrestricted answer without the other priorities, in
      the same order. */
  function Only(ms: seq<Mutation>, priority: DeliveryPriority): seq<Mutation> {
    if ms == [] then []
    else Only(ms[..|ms| - 1], priority) + if ms[|ms| - 1].deliveryPriority == priority then [ms[|ms| - 1]] else []
  }

  lemma {:induction false} SelectedOnly(ms: seq<Mutation>, from: nat, priority: DeliveryPriority)
    ensures Selected(ms, from, Some(priority)) == Only(Selected(ms, from, None), priority)
  {
    if ms != [] {
      SelectedOnly(ms[..|ms| - 1], from, priority);
      var all, last := Selected(ms[..|ms| - 1], from, None), ms[|ms| - 1];
      if last.commitId.seqNo > from {
        assert (all + [last])[..|all|] == all;
      } else {
        assert all + [] == all;
      }
    }
  }

  lemma {:induction false} OnlyMembers(ms: seq<Mutation>, priority: DeliveryPriority, m: Mutation)
    ensures m in Only(ms, priority) <==> m in ms && m.deliveryPriority == priority
  {
    if ms != [] {
      OnlyMembers(ms[..|ms| - 1], priority, m);
      assert ms == ms[..|ms| - 1] + [ms[|ms| - 1]];
    }
  }

  lemma ServesPriority(c: Cache, s: nat, from: nat, priority: DeliveryPriority, m: Mutation)
    requires c.Shaped()
    ensures var all, some := Serve(c, s, from, None), Serve(c, s, from, Some(priority));
      if all.Err? || all.value.None? then some == all
      else
        && some == Ok(Some(Only(all.value.value, priority)))
        && (m in some.value.value <==> m in all.value.value && m.deliveryPriority == priority)
  {
    if s < |c.watermarks| && c.base[s] <= from {
      SelectedOnly(c.mutations[s], from, priority);
      OnlyMembers(Selected(c.mutations[s], from, None), priority, m);
    }
  }
}
