/** Propagation acknowledgements (crates/globacl-commitd/src/app/propagation.rs): a table of the
    latest ack of every relay, agent and shard, kept beside an append-only log, and merged from the
    tables of peers. */
module Acks {
  import opened Domain
  import opened Text

  datatype Ack = Ack(
    relayId: string, location: string, agentId: string, shardId: nat, seqNo: nat, entries: nat,
    appliedAt: nat, relayReceivedAt: nat)
  {
    // PropagationAck::key
    function Key(): string {
      relayId + ":" + agentId + ":" + Decimal(shardId)
    }
  }

  datatype Store = Store(table: map<string, Ack>, log: seq<Ack>)

  const EMPTY := Store(map[], [])

  // apply_propagation_ack_to_store
  function Offer(s: Store, a: Ack): Store {
    var k := a.Key();
    if k in s.table && (s.table[k].seqNo > a.seqNo || s.table[k] == a) then s
    else Store(s.table[k := a], s.log + [a])
  }

  // the merging loop of apply_propagation_ack_log_snapshot
  function OfferAll(s: Store, acks: seq<Ack>): Store {
    if acks == [] then s else Offer(OfferAll(s, acks[..|acks| - 1]), acks[|acks| - 1])
  }

  // one line of load_propagation_acks
  function LoadNext(table: map<string, Ack>, a: Ack): map<string, Ack> {
    var k := a.Key();
    if k !in table || table[k].seqNo <= a.seqNo then table[k := a] else table
  }

  // load_propagation_acks
  function Load(log: seq<Ack>): map<string, Ack> {
    if log == [] then map[] else LoadNext(Load(log[..|log| - 1]), log[|log| - 1])
  }

  class AckStore {
    var table: map<string, Ack>
    var log: seq<Ack>

    ghost function Value(): Store
      reads this
    {
      Store(table, log)
    }

    // load_propagation_acks
    constructor (lines: seq<Ack>)
      ensures Value() == Store(Load(lines), lines)
    {
      log := lines;
      table := map[];
      new;
      for i := 0 to |lines|
        invariant table == Load(lines[..i]) && log == lines
      {
        assert lines[..i + 1][..i] == lines[..i];
        var k := lines[i].Key();
        if k !in table || table[k].seqNo <= lines[i].seqNo {
          table := table[k := lines[i]];
        }
      }
      assert lines[..|lines|] == lines;
    }

    // apply_propagation_ack_to_store
    method Apply(a: Ack) returns (changed: bool)
      modifies this
      ensures Value() == Offer(old(Value()), a)
      ensures changed == (Value() != old(Value()))
    {
      var k := a.Key();
      if k in table {
        var existing := table[k];
        if existing.seqNo > a.seqNo || existing == a {
          return false;
        }
      }
      log := log + [a];
      table := table[k := a];
      assert |log| == |old(log)| + 1;
      return true;
    }

    // apply_propagation_ack_log_snapshot
    method Merge(acks: seq<Ack>) returns (applied: nat)
      modifies this
      ensures Value() == OfferAll(old(Value()), acks)
      ensures applied == |log| - |old(log)|
    {
      applied := 0;
      for i := 0 to |acks|
        invariant Value() == OfferAll(old(Value()), acks[..i])
        invariant applied == |log| - |old(log)|
      {
        assert acks[..i + 1][..i] == acks[..i];
        ghost var before := Value();
        var changed := Apply(acks[i]);
        if changed {
          applied := applied + 1;
        }
      }
      assert acks[..|acks|] == acks;
    }
  }

  // ---------- the table and its log ----------

  lemma LoadPush(log: seq<Ack>, a: Ack)
    ensures Load(log + [a]) == LoadNext(Load(log), a)
  {
    assert (log + [a])[..|log|] == log;
  }

  /** The in-memory table is the replay of the log: one ack, or any list of them, keeps it so. A
      restart therefore reloads the table that was there. */
  lemma {:induction false} TableIsReplay(s: Store, acks: seq<Ack>)
    requires s.table == Load(s.log)
    ensures OfferAll(s, acks).table == Load(OfferAll(s, acks).log)
  {
    if acks != [] {
      var mid := OfferAll(s, acks[..|acks| - 1]);
      TableIsReplay(s, acks[..|acks| - 1]);
      LoadPush(mid.log, acks[|acks| - 1]);
    }
  }

  // ---------- the maximum ever offered ----------

  ghost predicate Keyed(table: map<string, Ack>) {
    forall k :: k in table ==> table[k].Key() == k
  }

  /** What the store holds for a key after some offers: the greatest sequence number offered for it,
      in an ack that was offered; or what it held before. */
  ghost predicate HoldsMaximum(before: Option<Ack>, held: Option<Ack>, offered: seq<Ack>, k: string) {
    && (forall i :: 0 <= i < |offered| && offered[i].Key() == k ==> held.Some? && offered[i].seqNo <= held.value.seqNo)
    && (before.Some? ==> held.Some? && before.value.seqNo <= held.value.seqNo)
    && (held == before || (held.Some? && held.value in offered && held.value.Key() == k))
  }

  lemma OfferHolds(before: Option<Ack>, s: Store, offered: seq<Ack>, a: Ack, k: string)
    requires HoldsMaximum(before, Get(s.table, k), offered, k)
    ensures HoldsMaximum(before, Get(Offer(s, a).table, k), offered + [a], k)
  {
    var held, now := Get(s.table, k), Get(Offer(s, a).table, k);
    var all := offered + [a];
    assert forall i :: 0 <= i < |all| ==> all[i] == if i < |offered| then offered[i] else a;
    assert now == held || (now == Some(a) && a.Key() == k && (held.Some? ==> held.value.seqNo <= a.seqNo));
    assert a in all;
    assert held.Some? && held.value in offered ==> held.value in all;
  }

  /** After any sequence of recorded acks and merged tables, the stored sequence number of every key
      is the maximum ever offered, and a key is present exactly when it was offered. */
  lemma {:induction false} StoredIsMaximum(s: Store, acks: seq<Ack>, k: string)
    ensures HoldsMaximum(Get(s.table, k), Get(OfferAll(s, acks).table, k), acks, k)
  {
    if acks != [] {
      StoredIsMaximum(s, acks[..|acks| - 1], k);
      hide HoldsMaximum;
      OfferHolds(Get(s.table, k), OfferAll(s, acks[..|acks| - 1]), acks[..|acks| - 1], acks[|acks| - 1], k);
      assert acks[..|acks| - 1] + [acks[|acks| - 1]] == acks;
    }
  }

  // ---------- merging a peer's table ----------

  // a peer's table, listed: no key twice
  predicate Distinct(acks: seq<Ack>) {
    forall i, j :: 0 <= i < j < |acks| ==> acks[i].Key() != acks[j].Key()
  }

  // offering a again would change nothing
  predicate Covered(s: Store, a: Ack) {
    a.Key() in s.table && (s.table[a.Key()].seqNo > a.seqNo || s.table[a.Key()] == a)
  }

  lemma {:induction false} MergeCovers(s: Store, acks: seq<Ack>, i: nat)
    requires Distinct(acks) && i < |acks|
    ensures Covered(OfferAll(s, acks), acks[i])
  {
    var n := |acks| - 1;
    if i < n {
      MergeCovers(s, acks[..n], i);
      assert acks[i].Key() != acks[n].Key();
    }
  }

  lemma {:induction false} CoveredMergeIsSilent(s: Store, acks: seq<Ack>)
    requires forall i :: 0 <= i < |acks| ==> Covered(s, acks[i])
    ensures OfferAll(s, acks) == s
  {
    if acks != [] {
      CoveredMergeIsSilent(s, acks[..|acks| - 1]);
    }
  }

  /** Merging the same peer table a second time changes neither the table nor the log. */
  lemma MergeTwice(s: Store, peer: seq<Ack>)
    requires Distinct(peer)
    ensures OfferAll(OfferAll(s, peer), peer) == OfferAll(s, peer)
  {
    forall i | 0 <= i < |peer|
      ensures Covered(OfferAll(s, peer), peer[i])
    {
      MergeCovers(s, peer, i);
    }
    CoveredMergeIsSilent(OfferAll(s, peer), peer);
  }

  function SeqOf(table: map<string, Ack>, k: string): Option<nat> {
    if k in table then Some(table[k].seqNo) else None
  }

  predicate ListingOf(acks: seq<Ack>, table: map<string, Ack>) {
    && (forall i :: 0 <= i < |acks| ==> acks[i].Key() in table && table[acks[i].Key()] == acks[i])
    && (forall k :: k in table ==> table[k] in acks)
  }

  // the sequence number after merging a listed table is the larger of the two
  lemma MergedSeq(s: Store, peer: seq<Ack>, table: map<string, Ack>, k: string)
    requires Keyed(table) && ListingOf(peer, table)
    ensures var r := SeqOf(OfferAll(s, peer).table, k);
      && (k !in s.table && k !in table ==> r == None)
      && (k in s.table && k !in table ==> r == Some(s.table[k].seqNo))
      && (k !in s.table && k in table ==> r == Some(table[k].seqNo))
      && (k in s.table && k in table ==>
            r == Some(if s.table[k].seqNo < table[k].seqNo then table[k].seqNo else s.table[k].seqNo))
  {
    StoredIsMaximum(s, peer, k);
    if k in table {
      assert table[k] in peer;
      var i :| 0 <= i < |peer| && peer[i] == table[k];
    }
  }

  /** Two nodes that merge each other's tables agree on every sequence number, and not always on the
      acks: with equal numbers each keeps the other's. */
  lemma MutualMergeAgrees(a: Store, b: Store, listA: seq<Ack>, listB: seq<Ack>, k: string)
    requires Keyed(a.table) && Keyed(b.table) && ListingOf(listA, a.table) && ListingOf(listB, b.table)
    ensures SeqOf(OfferAll(a, listB).table, k) == SeqOf(OfferAll(b, listA).table, k)
  {
    MergedSeq(a, listB, b.table, k);
    MergedSeq(b, listA, a.table, k);
  }

  // ---------- one offer ----------

  /** An ack is stored unless a later one, or the same one, is there; equal numbers go to the newcomer. The
      log gets a line exactly when the table changes hands. */
  lemma OfferOutcome(s: Store, a: Ack)
    ensures var t := Offer(s, a); var k := a.Key();
      && (t == s <==> k in s.table && (s.table[k].seqNo > a.seqNo || s.table[k] == a))
      && (t != s ==> t == Store(s.table[k := a], s.log + [a]))
      && Get(t.table, k).Some? && (t.table[k] == a || t.table[k].seqNo > a.seqNo)
  {
    assert |s.log + [a]| == |s.log| + 1;
  }

  // ---------- keys ----------

  // what a + ":" + x begins and ends with
  lemma ColonEnds(a: string, x: string)
    ensures (a + ":" + x)[0] == if a == "" then ':' else a[0]
    ensures (a + ":" + x)[|a| + |x|] == if x == "" then ':' else x[|x| - 1]
  {
  }

  lemma {:induction false} LastColon(a: string, b: string, x: string, y: string)
    requires ':' !in x && ':' !in y && a + ":" + x == b + ":" + y
    ensures a == b && x == y
    decreases |x|
  {
    var s, t := a + ":" + x, b + ":" + y;
    if x == "" || y == "" {
      ColonEnds(a, x);
      ColonEnds(b, y);
      assert s[..|s| - 1] == a && t[..|t| - 1] == b;
    } else {
      var x', y' := x[..|x| - 1], y[..|y| - 1];
      assert s[..|s| - 1] == a + ":" + x' && t[..|t| - 1] == b + ":" + y';
      LastColon(a, b, x', y');
      assert x == x' + [s[|s| - 1]] && y == y' + [t[|t| - 1]];
    }
  }

  lemma {:induction false} FirstColon(a: string, b: string, x: string, y: string)
    requires ':' !in a && ':' !in b && a + ":" + x == b + ":" + y
    ensures a == b && x == y
    decreases |a|
  {
    var s, t := a + ":" + x, b + ":" + y;
    if a == "" || b == "" {
      ColonEnds(a, x);
      ColonEnds(b, y);
      assert s[1..] == x && t[1..] == y;
    } else {
      assert s[1..] == a[1..] + ":" + x && t[1..] == b[1..] + ":" + y;
      FirstColon(a[1..], b[1..], x, y);
      assert a == [s[0]] + a[1..] && b == [t[0]] + b[1..];
    }
  }

  /** Two acks share a key exactly when they are of one shard and their relay and agent, joined by a colon,
      read the same. */
  lemma KeysEqualIff(a: Ack, b: Ack)
    ensures a.Key() == b.Key() <==> a.shardId == b.shardId && a.relayId + ":" + a.agentId == b.relayId + ":" + b.agentId
  {
    if a.Key() == b.Key() {
      assert ':' !in Decimal(a.shardId) && ':' !in Decimal(b.shardId);
      LastColon(a.relayId + ":" + a.agentId, b.relayId + ":" + b.agentId, Decimal(a.shardId), Decimal(b.shardId));
      DecimalValue(a.shardId);
      DecimalValue(b.shardId);
    }
  }

  /** Among relays without a colon in their id, a key names one relay, one agent and one shard. */
  lemma KeyIdentifies(a: Ack, b: Ack)
    requires a.Key() == b.Key() && ':' !in a.relayId && ':' !in b.relayId
    ensures a.relayId == b.relayId && a.agentId == b.agentId && a.shardId == b.shardId
  {
    KeysEqualIff(a, b);
    FirstColon(a.relayId, b.relayId, a.agentId, b.agentId);
  }

  /** A relay id with a colon, and only such a one, shares the keys of its acks with acks of a shorter relay
      id, which then replace each other in the table. */
  lemma RelaySharesKeysIff(a: Ack)
    ensures ':' in a.relayId <==> exists b: Ack :: b.Key() == a.Key() && |b.relayId| < |a.relayId|
  {
    if i :| 0 <= i < |a.relayId| && a.relayId[i] == ':' {
      var b := a.(relayId := a.relayId[..i], agentId := a.relayId[i + 1..] + ":" + a.agentId);
      assert a.relayId == b.relayId + ":" + a.relayId[i + 1..];
      assert b.relayId + ":" + b.agentId == a.relayId + ":" + a.agentId;
      KeysEqualIff(a, b);
    }
    if b: Ack :| b.Key() == a.Key() && |b.relayId| < |a.relayId| {
      KeysEqualIff(a, b);
      assert (b.relayId + ":" + b.agentId)[|b.relayId|] == ':';
      assert (a.relayId + ":" + a.agentId)[|b.relayId|] == a.relayId[|b.relayId|];
    }
  }

  /** It happens: two relays, two agents, one key; the second ack takes the first one's place. */
  lemma ColonsCollide()
    ensures var a := Ack("pop:1", "x", "edge", 0, 7, 1, 1, 1); var b := Ack("pop", "y", "1:edge", 0, 7, 1, 1, 1);
      && a.relayId != b.relayId && a.agentId != b.agentId
      && var s := OfferAll(EMPTY, [a, b]);
      a !in s.table.Values && b in s.table.Values
  {
    var a, b := Ack("pop:1", "x", "edge", 0, 7, 1, 1, 1), Ack("pop", "y", "1:edge", 0, 7, 1, 1, 1);
    assert a.relayId + ":" + a.agentId == "pop:1:edge" == b.relayId + ":" + b.agentId;
    KeysEqualIff(a, b);
    var one := Offer(EMPTY, a);
    assert [a, b][..1] == [a] && [a][..0] == [];
    assert OfferAll(EMPTY, [a]) == one;
    assert one.table == map[a.Key() := a];
    assert OfferAll(EMPTY, [a, b]).table == map[a.Key() := b];
    assert map[a.Key() := b][a.Key()] == b;
    hide Ack.Key;
  }
}
