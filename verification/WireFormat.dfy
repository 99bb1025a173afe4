/** The format itself, beyond its round trips: which bytes stand for what, what a decoder refuses, and that an
    encoding cut short is never taken for another (crates/globacl-core/src/lib/codec.rs and snapshots.rs). */
module WireFormat {
  import opened Domain
  import opened Bytes
  import opened Codec

  // ---------- tags ----------

  /** Every tag is one byte with one meaning, and any other byte is refused. */
  lemma TagBytes(b: Byte)
    ensures ActionOf(b) == if b == 1 then Ok(Deny) else if b == 2 then Ok(AllowOverride) else if b == 3 then Ok(Delete) else Err(InvalidData)
    ensures PriorityOf(b) == if b == 0 then Ok(P0) else if b == 1 then Ok(P1) else if b == 2 then Ok(P2) else Err(InvalidData)
    ensures KindOf(b) == if b == 1 then Ok(Ipv4Cidr) else if b == 2 then Ok(DomainSuffix) else Err(InvalidData)
  {
  }

  // ---------- headers ----------

  // what TakeVersion accepts
  predicate Headed(bs: seq<Byte>, magic: seq<Byte>) {
    |bs| >= 6 && bs[..4] == magic && bs[4] == 1 && bs[5] == 0
  }

  lemma VersionBytes(bs: seq<Byte>)
    requires |bs| == 2
    ensures FromLittleEndian(bs) == 1 <==> bs[0] == 1 && bs[1] == 0
  {
    assert FromLittleEndian(bs) == bs[0] + 256 * FromLittleEndian(bs[1..]);
    assert FromLittleEndian(bs[1..]) == bs[1] + 256 * FromLittleEndian(bs[1..][1..]);
    assert bs[1..][1..] == [];
  }

  lemma HeadedIff(bs: seq<Byte>, magic: seq<Byte>)
    requires |magic| == 4
    ensures TakeVersion(bs, magic).Ok? <==> Headed(bs, magic)
    ensures Headed(bs, magic) ==> TakeVersion(bs, magic) == Ok(bs[6..])
  {
    if |bs| >= 6 {
      VersionBytes(bs[4..][..2]);
      assert bs[4..][2..] == bs[6..];
    }
    hide FromLittleEndian;
  }

  /** A decoder accepts nothing without its own magic and version 1 in front: "GMUT", "GLOG", "GACL". */
  lemma ForeignIsRefused(bs: seq<Byte>)
    ensures DecodeMutation(bs).Ok? ==> Headed(bs, [71, 77, 85, 84])
    ensures DecodeStream(bs).Ok? ==> Headed(bs, [71, 76, 79, 71])
    ensures DecodeSnapshot(bs).Ok? ==> Headed(bs, [71, 65, 67, 76])
  {
    HeadedIff(bs, MUTATION_MAGIC);
    HeadedIff(bs, STREAM_MAGIC);
    HeadedIff(bs, SNAPSHOT_MAGIC);
    hide TakeVersion, TakeString, TakeInt, TakeEntry, TakeMany, TakeRuleList, TakeFrame, TakePriority, TakeCommittedAt;
    hide TakeRuleOption;
  }

  /** Encodings begin with them. */
  lemma EncodingsAreHeaded(m: Mutation, ms: seq<Mutation>, s: Snapshot)
    ensures Headed(EncodeMutation(m), [71, 77, 85, 84])
    ensures Headed(EncodeStream(ms), [71, 76, 79, 71])
    ensures Headed(EncodeSnapshot(s), [71, 65, 67, 76])
  {
    hide PutString, PutEntry, PutMany, PutFrames, PutRuleOption, PutByte, PutInt, Headed;
    MutationHeaded(m, PutByte(PriorityTag(m.deliveryPriority), PutInt(m.committedAt, 8, PutRuleOption(m.rule))));
    HeadOf(STREAM_MAGIC, PutInt(|ms|, 8, PutFrames(ms)));
    HeadOf(SNAPSHOT_MAGIC, PutInt(s.shardCount, 2, PutInt(|s.watermarks|, 4,
      PutInt(|s.entries|, 8, PutMany(PutLong, s.watermarks, PutMany(PutEntry, s.entries,
        PutInt(|s.rules|, 8, PutMany(PutRule, s.rules, []))))))));
  }

  lemma MutationHeaded(m: Mutation, rest: seq<Byte>)
    ensures Headed(PutHeader(m, rest), [71, 77, 85, 84])
  {
    hide PutString, PutEntry, PutInt, Headed;
    HeadOf(MUTATION_MAGIC, PutString(m.opId, PutInt(m.commitId.shardId, 2,
      PutInt(m.commitId.seqNo, 8, PutInt(m.commitId.epoch, 8, PutString(m.commitId.sourceRegion, PutEntry(m.entry, rest)))))));
  }

  lemma VersionTwo()
    ensures LittleEndian(FORMAT_VERSION, 2) == [1, 0]
  {
    assert LittleEndian(FORMAT_VERSION / 256, 1) == [0] + LittleEndian(0, 0);
  }

  lemma HeadOf(magic: seq<Byte>, rest: seq<Byte>)
    requires |magic| == 4
    ensures Headed(magic + PutInt(FORMAT_VERSION, 2, rest), magic)
  {
    VersionTwo();
    hide LittleEndian;
    assert magic + PutInt(FORMAT_VERSION, 2, rest) == magic + [1, 0] + rest;
  }

  // ---------- layout ----------

  // a string: its length in four bytes, then its UTF-8 form
  function Str(s: string): seq<Byte> {
    LittleEndian(|Utf8(s)|, 4) + Utf8(s)
  }

  function EntryLayout(e: DenyEntry): seq<Byte> {
    Str(e.tenantId) + Str(e.namespace) + LittleEndian(e.keyHash, 8)
    + CommonLayout(e.action, e.priority, e.reasonCode, e.expiresAt, e.createdBy, e.commitSeq, e.shardId)
  }

  function CommonLayout(action: Action, priority: nat, reason: string, expires: nat, creator: string, seqNo: nat, shard: nat)
    : seq<Byte>
  {
    [if action == Deny then 1 else if action == AllowOverride then 2 else 3] + LittleEndian(priority, 4) + Str(reason)
    + LittleEndian(expires, 8) + Str(creator) + LittleEndian(seqNo, 8) + LittleEndian(shard, 2)
  }

  function RuleLayout(r: RuleEntry): seq<Byte> {
    Str(r.tenantId) + [if r.kind == Ipv4Cidr then 1 else 2] + Str(r.pattern) + LittleEndian(r.ruleHash, 8)
    + CommonLayout(r.action, r.priority, r.reasonCode, r.expiresAt, r.createdBy, r.commitSeq, r.shardId)
    + LittleEndian(r.ipv4Network, 4) + [r.ipv4PrefixLen % 256] + Str(r.domainSuffix)
  }

  function HeaderLayout(m: Mutation): seq<Byte> {
    [71, 77, 85, 84] + [1, 0] + Str(m.opId) + LittleEndian(m.commitId.shardId, 2) + LittleEndian(m.commitId.seqNo, 8)
    + LittleEndian(m.commitId.epoch, 8) + Str(m.commitId.sourceRegion) + EntryLayout(m.entry)
  }

  function MutationLayout(m: Mutation): seq<Byte> {
    HeaderLayout(m)
    + [if m.deliveryPriority == P0 then 0 else if m.deliveryPriority == P1 then 1 else 2] + LittleEndian(m.committedAt, 8)
    + (match m.rule case None => [0] case Some(r) => [1] + RuleLayout(r))
  }

  lemma StringLayout(s: string, rest: seq<Byte>)
    ensures PutString(s, rest) == Str(s) + rest
  {
    hide LittleEndian, Utf8;
  }

  lemma CommonIsLaidOut(c: Common, rest: seq<Byte>)
    ensures PutCommon(c, rest)
         == CommonLayout(c.action, c.priority, c.reasonCode, c.expiresAt, c.createdBy, c.commitSeq, c.shardId) + rest
  {
    hide Str, LittleEndian, PutString;
    var p, e, q, h := LittleEndian(c.priority, 4), LittleEndian(c.expiresAt, 8), LittleEndian(c.commitSeq, 8), LittleEndian(c.shardId, 2);
    var a: seq<Byte> := [if c.action == Deny then 1 else if c.action == AllowOverride then 2 else 3];
    assert PutInt(c.commitSeq, 8, PutInt(c.shardId, 2, rest)) == q + (h + rest);
    StringLayout(c.createdBy, q + (h + rest));
    var tail := Str(c.createdBy) + (q + (h + rest));
    StringLayout(c.reasonCode, e + tail);
    assert PutCommon(c, rest) == a + (p + (Str(c.reasonCode) + (e + tail)));
    SevenParts(a, p, Str(c.reasonCode), e, Str(c.createdBy), q, h, rest);
  }

  lemma SevenParts(a: seq<Byte>, b: seq<Byte>, c: seq<Byte>, d: seq<Byte>, e: seq<Byte>, f: seq<Byte>, g: seq<Byte>, h: seq<Byte>)
    ensures a + (b + (c + (d + (e + (f + (g + h)))))) == a + b + c + d + e + f + g + h
  {
  }

  lemma EntryIsLaidOut(e: DenyEntry, rest: seq<Byte>)
    ensures PutEntry(e, rest) == EntryLayout(e) + rest
  {
    hide Str, LittleEndian, PutString, PutCommon, CommonLayout;
    CommonIsLaidOut(EntryCommon(e), rest);
    var c := CommonLayout(e.action, e.priority, e.reasonCode, e.expiresAt, e.createdBy, e.commitSeq, e.shardId);
    var h := LittleEndian(e.keyHash, 8);
    StringLayout(e.namespace, h + (c + rest));
    StringLayout(e.tenantId, Str(e.namespace) + (h + (c + rest)));
    assert Str(e.tenantId) + (Str(e.namespace) + (h + (c + rest))) == Str(e.tenantId) + Str(e.namespace) + h + c + rest;
  }

  lemma TargetIsLaidOut(t: Target, rest: seq<Byte>)
    ensures PutTarget(t, rest) == LittleEndian(t.network, 4) + [t.prefix % 256] + Str(t.suffix) + rest
  {
    hide Str, LittleEndian, PutString;
    StringLayout(t.suffix, rest);
  }

  lemma RuleIsLaidOut(r: RuleEntry, rest: seq<Byte>)
    ensures PutRule(r, rest) == RuleLayout(r) + rest
  {
    hide Str, LittleEndian, PutString, PutCommon, CommonLayout, PutTarget;
    var t := LittleEndian(r.ipv4Network, 4) + [r.ipv4PrefixLen % 256] + Str(r.domainSuffix);
    TargetIsLaidOut(Target(r.ipv4Network, r.ipv4PrefixLen, r.domainSuffix), rest);
    CommonIsLaidOut(RuleCommon(r), t + rest);
    var c := CommonLayout(r.action, r.priority, r.reasonCode, r.expiresAt, r.createdBy, r.commitSeq, r.shardId);
    var h := LittleEndian(r.ruleHash, 8);
    var k: seq<Byte> := [if r.kind == Ipv4Cidr then 1 else 2];
    StringLayout(r.pattern, h + (c + (t + rest)));
    var p := Str(r.pattern) + (h + (c + (t + rest)));
    StringLayout(r.tenantId, k + p);
    assert PutByte(KindTag(r.kind), p) == k + p;
    FiveParts(Str(r.tenantId), k, Str(r.pattern), h, c + (t + rest));
    assert c + (t + rest) == c + t + rest;
    assert Str(r.tenantId) + k + Str(r.pattern) + h + (c + t + rest) == Str(r.tenantId) + k + Str(r.pattern) + h + (c + t) + rest;
    assert c + t == c + LittleEndian(r.ipv4Network, 4) + [r.ipv4PrefixLen % 256] + Str(r.domainSuffix);
  }

  lemma FiveParts(a: seq<Byte>, b: seq<Byte>, c: seq<Byte>, d: seq<Byte>, e: seq<Byte>)
    ensures a + (b + (c + (d + e))) == a + b + c + d + e
  {
  }

  lemma TrailerIsLaidOut(m: Mutation)
    ensures PutByte(PriorityTag(m.deliveryPriority), PutInt(m.committedAt, 8, PutRuleOption(m.rule)))
         == [if m.deliveryPriority == P0 then 0 else if m.deliveryPriority == P1 then 1 else 2] + LittleEndian(m.committedAt, 8)
            + (match m.rule case None => [0] case Some(r) => [1] + RuleLayout(r))
  {
    hide LittleEndian, PutRule, RuleLayout;
    if m.rule.Some? {
      RuleIsLaidOut(m.rule.value, []);
      assert RuleLayout(m.rule.value) + [] == RuleLayout(m.rule.value);
    }
  }

  lemma HeaderIsLaidOut(m: Mutation, rest: seq<Byte>)
    ensures PutHeader(m, rest) == HeaderLayout(m) + rest
  {
    VersionTwo();
    EntryIsLaidOut(m.entry, rest);
    hide Str, LittleEndian, PutString, PutEntry, EntryLayout;
    var e := EntryLayout(m.entry) + rest;
    StringLayout(m.commitId.sourceRegion, e);
    var s, q, p := LittleEndian(m.commitId.shardId, 2), LittleEndian(m.commitId.seqNo, 8), LittleEndian(m.commitId.epoch, 8);
    var r := Str(m.commitId.sourceRegion) + e;
    StringLayout(m.opId, s + (q + (p + r)));
    FiveParts(Str(m.opId), s, q, p, r);
    var body := Str(m.opId) + s + q + p + r;
    assert PutHeader(m, rest) == MUTATION_MAGIC + PutInt(FORMAT_VERSION, 2, body);
    assert PutInt(FORMAT_VERSION, 2, body) == [1, 0] + body;
    assert MUTATION_MAGIC + ([1, 0] + body) == [71, 77, 85, 84] + [1, 0] + Str(m.opId) + s + q + p
      + Str(m.commitId.sourceRegion) + EntryLayout(m.entry) + rest;
  }

  /** A mutation is its fields in this order, each in its width, integers lowest byte first. */
  lemma MutationIsLaidOut(m: Mutation)
    ensures EncodeMutation(m) == MutationLayout(m)
  {
    hide Str, LittleEndian, PutHeader, EntryLayout, RuleLayout, PutRuleOption, PutByte, PutInt, PriorityTag;
    var trailer := PutByte(PriorityTag(m.deliveryPriority), PutInt(m.committedAt, 8, PutRuleOption(m.rule)));
    TrailerIsLaidOut(m);
    HeaderIsLaidOut(m, trailer);
    var p: seq<Byte> := [if m.deliveryPriority == P0 then 0 else if m.deliveryPriority == P1 then 1 else 2];
    var r := match m.rule case None => [0] case Some(r) => [1] + RuleLayout(r);
    ThreeParts(HeaderLayout(m), p, LittleEndian(m.committedAt, 8), r);
  }

  lemma ThreeParts(h: seq<Byte>, a: seq<Byte>, b: seq<Byte>, c: seq<Byte>)
    ensures h + (a + b + c) == h + a + b + c
  {
  }

  function Longs(vs: seq<nat>): seq<Byte> {
    if vs == [] then [] else LittleEndian(vs[0], 8) + Longs(vs[1..])
  }

  function Entries(es: seq<DenyEntry>): seq<Byte> {
    if es == [] then [] else EntryLayout(es[0]) + Entries(es[1..])
  }

  function Rules(rs: seq<RuleEntry>): seq<Byte> {
    if rs == [] then [] else RuleLayout(rs[0]) + Rules(rs[1..])
  }

  lemma {:induction false} LongsAreLaidOut(vs: seq<nat>, rest: seq<Byte>)
    ensures PutMany(PutLong, vs, rest) == Longs(vs) + rest
  {
    hide LittleEndian;
    if vs != [] {
      LongsAreLaidOut(vs[1..], rest);
    }
  }

  lemma {:induction false} EntriesAreLaidOut(es: seq<DenyEntry>, rest: seq<Byte>)
    ensures PutMany(PutEntry, es, rest) == Entries(es) + rest
  {
    hide PutEntry, EntryLayout;
    if es != [] {
      EntriesAreLaidOut(es[1..], rest);
      EntryIsLaidOut(es[0], PutMany(PutEntry, es[1..], rest));
    }
  }

  lemma {:induction false} RulesAreLaidOut(rs: seq<RuleEntry>, rest: seq<Byte>)
    ensures PutMany(PutRule, rs, rest) == Rules(rs) + rest
  {
    hide PutRule, RuleLayout;
    if rs != [] {
      RulesAreLaidOut(rs[1..], rest);
      RuleIsLaidOut(rs[0], PutMany(PutRule, rs[1..], rest));
    }
  }

  /** A snapshot is its three counts, watermarks and entries, then the count and the list of its rules. */
  lemma SnapshotIsLaidOut(s: Snapshot)
    ensures EncodeSnapshot(s)
         == [71, 65, 67, 76] + [1, 0] + LittleEndian(s.shardCount, 2) + LittleEndian(|s.watermarks|, 4)
            + LittleEndian(|s.entries|, 8) + Longs(s.watermarks) + Entries(s.entries) + LittleEndian(|s.rules|, 8) + Rules(s.rules)
  {
    hide LittleEndian, PutMany, PutInt, Longs, Entries, Rules;
    var a, b, c := LittleEndian(s.shardCount, 2), LittleEndian(|s.watermarks|, 4), LittleEndian(|s.entries|, 8);
    var l, e, n, r := Longs(s.watermarks), Entries(s.entries), LittleEndian(|s.rules|, 8), Rules(s.rules);
    SnapshotBody(s);
    FiveParts(a, b, c, l, e + (n + r));
    assert a + b + c + l + (e + (n + r)) == a + b + c + l + e + n + r;
    HeadBytes(SNAPSHOT_MAGIC, a + b + c + l + e + n + r);
    Together([71, 65, 67, 76] + [1, 0], a, b, c, l, e, n, r);
  }

  lemma Together(h: seq<Byte>, a: seq<Byte>, b: seq<Byte>, c: seq<Byte>, d: seq<Byte>, e: seq<Byte>, f: seq<Byte>, g: seq<Byte>)
    ensures h + (a + b + c + d + e + f + g) == h + a + b + c + d + e + f + g
  {
  }

  lemma HeadBytes(magic: seq<Byte>, body: seq<Byte>)
    ensures magic + PutInt(FORMAT_VERSION, 2, body) == magic + [1, 0] + body
  {
    VersionTwo();
    hide LittleEndian;
  }

  lemma SnapshotBody(s: Snapshot)
    ensures EncodeSnapshot(s) == SNAPSHOT_MAGIC + PutInt(FORMAT_VERSION, 2,
      LittleEndian(s.shardCount, 2) + (LittleEndian(|s.watermarks|, 4) + (LittleEndian(|s.entries|, 8)
      + (Longs(s.watermarks) + (Entries(s.entries) + (LittleEndian(|s.rules|, 8) + Rules(s.rules)))))))
  {
    RulesAreLaidOut(s.rules, []);
    var r := LittleEndian(|s.rules|, 8) + Rules(s.rules);
    EntriesAreLaidOut(s.entries, r);
    LongsAreLaidOut(s.watermarks, Entries(s.entries) + r);
    hide LittleEndian, PutMany, Longs, Entries, Rules;
    assert Rules(s.rules) + [] == Rules(s.rules);
  }

  /** An older snapshot, which ends with its entries, reads as one without rules. */
  lemma OlderSnapshotReads(s: Snapshot)
    requires SnapshotFits(s) && |s.watermarks| == s.shardCount
    ensures DecodeSnapshot(SNAPSHOT_MAGIC + PutInt(FORMAT_VERSION, 2, PutInt(s.shardCount, 2, PutInt(|s.watermarks|, 4,
              PutInt(|s.entries|, 8, PutMany(PutLong, s.watermarks, PutMany(PutEntry, s.entries, []))))))) == Ok(s.(rules := []))
  {
    var b: seq<Byte> := PutMany(PutEntry, s.entries, []);
    var c := PutMany(PutLong, s.watermarks, b);
    var d := PutInt(|s.entries|, 8, c);
    var e := PutInt(|s.watermarks|, 4, d);
    var f := PutInt(s.shardCount, 2, e);
    hide PutInt, TakeInt, PutMany, TakeMany, TakeVersion, Limit, EntryFits, RuleFits;
    EntriesBack(s.entries, []);
    LongsBack(s.watermarks, b);
    TakePutInt(|s.entries|, 8, c);
    TakePutInt(|s.watermarks|, 4, d);
    TakePutInt(s.shardCount, 2, e);
    VersionBack(SNAPSHOT_MAGIC, f);
  }
}
