/** Snapshots that the decoder accepts and a node would not write: one with a Delete record, to which a
    rollback never arrives, and one with an IPv4 rule whose prefix the edge's index has no bucket for. */
module DecodedSnapshots {
  import opened Domain
  import opened SourceSpec
  import opened Codec
  import opened Rollback
  import opened RulePatterns
  import OwnSnapshots
  import RuleIndex

  /** A Delete record is decoded, and rolled back to by an empty node it is not reached: it is committed
      and thereby removed, and a second rollback commits it again. */
  lemma DeleteRecordIsMissed(e: DenyEntry, region: string, prefix: string, clock: Clock, again: string, later: Clock)
    requires EntryFits(e) && e.action == Delete && e.shardId == 0
    ensures var s, snap := New(1, region), Snapshot(1, [0], [e], []); var orders := Orders([], [e], [], []);
      && DecodeSnapshot(EncodeSnapshot(snap)) == Ok(snap)
      && OrdersOf(orders, TablesOf(s), TargetOf(snap))
      && var r := Restore(s, snap, prefix, clock, orders);
      && r.Ok? && !SameTables(TablesOf(r.value.source), TargetOf(snap))
      && (forall orders2 :: OrdersOf(orders2, TablesOf(r.value.source), TargetOf(snap)) ==>
            var r2 := Restore(r.value.source, snap, again, later, orders2); r2.Ok? && r2.value.emitted != [])
  {
    var snap := Snapshot(1, [0], [e], []);
    assert SnapshotFits(snap);
    hide SnapshotFits, EncodeSnapshot, DecodeSnapshot, OrdersOf, SameTables, Restore, TargetOf, TablesOf;
    SnapshotRoundTripIff(snap);
    OwnSnapshots.DeleteRecordIsMissed(e, region, prefix, clock, again, later);
  }

  /** A rule with a prefix above 32 is decoded in a snapshot that validates, and compiling its rules
      ends the program. */
  lemma WidePrefixStopsIndex(r: RuleEntry)
    requires RuleFits(r) && r.kind == Ipv4Cidr && r.ipv4PrefixLen > 32 && r.action != Delete && r.shardId == 0
    ensures var snap := Snapshot(1, [0], [], [r]);
      DecodeSnapshot(EncodeSnapshot(snap)) == Ok(snap) && snap.Validates() && RuleIndex.AddAnyRules(snap.rules).None?
  {
    var snap := Snapshot(1, [0], [], [r]);
    assert SnapshotFits(snap);
    hide SnapshotFits, EncodeSnapshot, DecodeSnapshot, RuleFits, RuleIndex.AddAnyRules;
    SnapshotRoundTripIff(snap);
    RuleIndex.IndexPanicsIff(snap.rules);
    assert r in snap.rules;
  }

  // such records exist
  lemma OddRecordsFit()
    ensures exists e: DenyEntry :: EntryFits(e) && e.action == Delete && e.shardId == 0
    ensures exists r: RuleEntry ::
      RuleFits(r) && r.kind == Ipv4Cidr && r.ipv4PrefixLen > 32 && r.action != Delete && r.shardId == 0
  {
    assert EntryFits(DenyEntry("", "", 0, Delete, 0, "", 0, "", 0, 0));
    assert RuleFits(RuleEntry("", Ipv4Cidr, "", 0, Deny, 0, "", 0, "", 0, 0, 0, 33, ""));
  }
}
