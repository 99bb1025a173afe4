/** The wire and log format: entries, rules and mutations of crates/globacl-core/src/lib/codec.rs,
    and the mutation streams, snapshots and shard logs of snapshots.rs. */
module Codec {
  import opened Domain
  import opened Bytes
  import opened SourceSpec

  const MUTATION_MAGIC: seq<Byte> := [0x47, 0x4D, 0x55, 0x54]   // GMUT
  const STREAM_MAGIC: seq<Byte> := [0x47, 0x4C, 0x4F, 0x47]     // GLOG
  const SNAPSHOT_MAGIC: seq<Byte> := [0x47, 0x41, 0x43, 0x4C]   // GACL
  const FORMAT_VERSION: nat := 1

  // ---------- tags ----------

  function ActionTag(a: Action): Byte {
    match a
    case Deny => 1
    case AllowOverride => 2
    case Delete => 3
  }

  function ActionOf(b: Byte): Result<Action> {
    if b == 1 then Ok(Deny) else if b == 2 then Ok(AllowOverride) else if b == 3 then Ok(Delete) else Err(InvalidData)
  }

  function PriorityTag(p: DeliveryPriority): Byte {
    match p
    case P0 => 0
    case P1 => 1
    case P2 => 2
  }

  function PriorityOf(b: Byte): Result<DeliveryPriority> {
    if b == 0 then Ok(P0) else if b == 1 then Ok(P1) else if b == 2 then Ok(P2) else Err(InvalidData)
  }

  function KindTag(k: RuleKind): Byte {
    match k
    case Ipv4Cidr => 1
    case DomainSuffix => 2
  }

  function KindOf(b: Byte): Result<RuleKind> {
    if b == 1 then Ok(Ipv4Cidr) else if b == 2 then Ok(DomainSuffix) else Err(InvalidData)
  }

  lemma ActionBack(a: Action)
    ensures ActionOf(ActionTag(a)) == Ok(a)
  {
  }

  lemma KindBack(k: RuleKind)
    ensures KindOf(KindTag(k)) == Ok(k)
  {
  }

  // ---------- what fits the machine integers ----------

  predicate EntryFits(e: DenyEntry) {
    && ShortString(e.tenantId) && ShortString(e.namespace) && ShortString(e.reasonCode) && ShortString(e.createdBy)
    && e.keyHash < Limit(8) && e.priority < Limit(4) && e.expiresAt < Limit(8) && e.commitSeq < Limit(8)
    && e.shardId < Limit(2)
  }

  predicate RuleFits(r: RuleEntry) {
    && ShortString(r.tenantId) && ShortString(r.pattern) && ShortString(r.reasonCode) && ShortString(r.createdBy)
    && ShortString(r.domainSuffix)
    && r.ruleHash < Limit(8) && r.priority < Limit(4) && r.expiresAt < Limit(8) && r.commitSeq < Limit(8)
    && r.shardId < Limit(2) && r.ipv4Network < Limit(4) && r.ipv4PrefixLen < 256
  }

  predicate MutationFits(m: Mutation) {
    && ShortString(m.opId) && ShortString(m.commitId.sourceRegion)
    && m.commitId.shardId < Limit(2) && m.commitId.seqNo < Limit(8) && m.commitId.epoch < Limit(8)
    && m.committedAt < Limit(8) && EntryFits(m.entry) && (m.rule.Some? ==> RuleFits(m.rule.value))
  }

  // ---------- entries and rules ----------

  /** The fields that entries and rules have in common, in their common order. */
  datatype Common = Common(
    action: Action, priority: nat, reasonCode: string, expiresAt: nat, createdBy: string, commitSeq: nat, shardId: nat)
  {
    predicate Fits() {
      && ShortString(reasonCode) && ShortString(createdBy)
      && priority < Limit(4) && expiresAt < Limit(8) && commitSeq < Limit(8) && shardId < Limit(2)
    }
  }

  function PutCommon(c: Common, rest: seq<Byte>): seq<Byte> {
    PutByte(ActionTag(c.action), PutInt(c.priority, 4, PutString(c.reasonCode, PutInt(c.expiresAt, 8,
      PutString(c.createdBy, PutInt(c.commitSeq, 8, PutInt(c.shardId, 2, rest)))))))
  }

  function TakeCommon(bs: seq<Byte>): (r: Reading<Common>)
    ensures r.Ok? ==> |r.value.1| < |bs|
  {
    var tag :- TakeByte(bs);
    var action :- ActionOf(tag.0);
    var priority :- TakeInt(tag.1, 4);
    var reason :- TakeString(priority.1);
    var expires :- TakeInt(reason.1, 8);
    var createdBy :- TakeString(expires.1);
    var seqNo :- TakeInt(createdBy.1, 8);
    var shard :- TakeInt(seqNo.1, 2);
    Ok((Common(action, priority.0, reason.0, expires.0, createdBy.0, seqNo.0, shard.0), shard.1))
  }

  lemma CommonBack(c: Common, rest: seq<Byte>)
    requires c.Fits()
    ensures TakeCommon(PutCommon(c, rest)) == Ok((c, rest))
  {
    var p := PutInt(c.shardId, 2, rest);
    var q := PutInt(c.commitSeq, 8, p);
    var r := PutString(c.createdBy, q);
    var s := PutInt(c.expiresAt, 8, r);
    var t := PutString(c.reasonCode, s);
    var u := PutInt(c.priority, 4, t);
    hide PutInt, PutString, PutByte, TakeInt, TakeString, TakeByte, Limit, ShortString, ActionOf, ActionTag;
    ActionBack(c.action);
    TakePutInt(c.shardId, 2, rest);
    TakePutInt(c.commitSeq, 8, p);
    TakePutString(c.createdBy, q);
    TakePutInt(c.expiresAt, 8, r);
    TakePutString(c.reasonCode, s);
    TakePutInt(c.priority, 4, t);
    TakePutByte(ActionTag(c.action), u);
  }

  function EntryCommon(e: DenyEntry): Common {
    Common(e.action, e.priority, e.reasonCode, e.expiresAt, e.createdBy, e.commitSeq, e.shardId)
  }

  function RuleCommon(r: RuleEntry): Common {
    Common(r.action, r.priority, r.reasonCode, r.expiresAt, r.createdBy, r.commitSeq, r.shardId)
  }

  // encode_entry
  function PutEntry(e: DenyEntry, rest: seq<Byte>): seq<Byte> {
    PutString(e.tenantId, PutString(e.namespace, PutInt(e.keyHash, 8, PutCommon(EntryCommon(e), rest))))
  }

  // decode_entry
  function TakeEntry(bs: seq<Byte>): (r: Reading<DenyEntry>)
    ensures r.Ok? ==> |r.value.1| < |bs|
  {
    var tenant :- TakeString(bs);
    var namespace :- TakeString(tenant.1);
    var keyHash :- TakeInt(namespace.1, 8);
    var common :- TakeCommon(keyHash.1);
    var c := common.0;
    Ok((DenyEntry(tenant.0, namespace.0, keyHash.0, c.action, c.priority, c.reasonCode, c.expiresAt, c.createdBy,
                  c.commitSeq, c.shardId), common.1))
  }

  // the compiled pattern of a rule
  datatype Target = Target(network: nat, prefix: nat, suffix: string)

  function PutTarget(t: Target, rest: seq<Byte>): seq<Byte> {
    PutInt(t.network, 4, PutByte(t.prefix % 256, PutString(t.suffix, rest)))
  }

  function TakeTarget(bs: seq<Byte>): (r: Reading<Target>)
    ensures r.Ok? ==> |r.value.1| < |bs|
  {
    var network :- TakeInt(bs, 4);
    var prefix :- TakeByte(network.1);
    var suffix :- TakeString(prefix.1);
    Ok((Target(network.0, prefix.0, suffix.0), suffix.1))
  }

  lemma TargetBack(t: Target, rest: seq<Byte>)
    requires t.network < Limit(4) && t.prefix < 256 && ShortString(t.suffix)
    ensures TakeTarget(PutTarget(t, rest)) == Ok((t, rest))
  {
    var a := PutString(t.suffix, rest);
    hide PutInt, PutString, PutByte, TakeInt, TakeString, TakeByte, Limit, ShortString;
    TakePutString(t.suffix, rest);
    TakePutByte(t.prefix % 256, a);
    TakePutInt(t.network, 4, PutByte(t.prefix % 256, a));
  }

  // encode_rule_entry
  function PutRule(r: RuleEntry, rest: seq<Byte>): seq<Byte> {
    PutString(r.tenantId, PutByte(KindTag(r.kind), PutString(r.pattern, PutInt(r.ruleHash, 8,
      PutCommon(RuleCommon(r), PutTarget(Target(r.ipv4Network, r.ipv4PrefixLen, r.domainSuffix), rest))))))
  }

  // decode_rule_entry
  function TakeRule(bs: seq<Byte>): (r: Reading<RuleEntry>)
    ensures r.Ok? ==> |r.value.1| < |bs|
  {
    var tenant :- TakeString(bs);
    var kindTag :- TakeByte(tenant.1);
    var kind :- KindOf(kindTag.0);
    var pattern :- TakeString(kindTag.1);
    var ruleHash :- TakeInt(pattern.1, 8);
    var common :- TakeCommon(ruleHash.1);
    var target :- TakeTarget(common.1);
    var c, t := common.0, target.0;
    Ok((RuleEntry(tenant.0, kind, pattern.0, ruleHash.0, c.action, c.priority, c.reasonCode, c.expiresAt, c.createdBy,
                  c.commitSeq, c.shardId, t.network, t.prefix, t.suffix), target.1))
  }

  /** Decoding an entry consumes exactly what was written, whatever follows. */
  lemma EntryRoundTrip(e: DenyEntry, rest: seq<Byte>)
    requires EntryFits(e)
    ensures TakeEntry(PutEntry(e, rest)) == Ok((e, rest))
  {
    var a := PutCommon(EntryCommon(e), rest);
    var b := PutInt(e.keyHash, 8, a);
    var c := PutString(e.namespace, b);
    hide PutInt, PutString, PutCommon, TakeInt, TakeString, TakeCommon, Limit, ShortString;
    CommonBack(EntryCommon(e), rest);
    TakePutInt(e.keyHash, 8, a);
    TakePutString(e.namespace, b);
    TakePutString(e.tenantId, c);
  }

  /** Decoding a rule consumes exactly what was written, whatever follows. */
  lemma RuleRoundTrip(r: RuleEntry, rest: seq<Byte>)
    requires RuleFits(r)
    ensures TakeRule(PutRule(r, rest)) == Ok((r, rest))
  {
    var t := Target(r.ipv4Network, r.ipv4PrefixLen, r.domainSuffix);
    var a := PutTarget(t, rest);
    var b := PutCommon(RuleCommon(r), a);
    var c := PutInt(r.ruleHash, 8, b);
    var d := PutString(r.pattern, c);
    var e := PutByte(KindTag(r.kind), d);
    hide PutInt, PutString, PutByte, PutCommon, PutTarget, TakeInt, TakeString, TakeByte, TakeCommon, TakeTarget;
    hide Limit, ShortString, KindOf, KindTag;
    KindBack(r.kind);
    TargetBack(t, rest);
    CommonBack(RuleCommon(r), a);
    TakePutInt(r.ruleHash, 8, b);
    TakePutString(r.pattern, c);
    TakePutByte(KindTag(r.kind), d);
    TakePutString(r.tenantId, e);
  }

  // ---------- mutations ----------

  // the rule part of encode_mutation
  function PutRuleOption(rule: Option<RuleEntry>): seq<Byte> {
    match rule
    case Some(r) => PutByte(1, PutRule(r, []))
    case None => PutByte(0, [])
  }

  // the fields of a mutation up to its entry
  function PutHeader(m: Mutation, rest: seq<Byte>): seq<Byte> {
    MUTATION_MAGIC + PutInt(FORMAT_VERSION, 2, PutString(m.opId, PutInt(m.commitId.shardId, 2,
      PutInt(m.commitId.seqNo, 8, PutInt(m.commitId.epoch, 8, PutString(m.commitId.sourceRegion,
        PutEntry(m.entry, rest)))))))
  }

  // encode_mutation
  function EncodeMutation(m: Mutation): seq<Byte> {
    PutHeader(m, PutByte(PriorityTag(m.deliveryPriority), PutInt(m.committedAt, 8, PutRuleOption(m.rule))))
  }

  // expect_magic, then the version
  function TakeVersion(bs: seq<Byte>, magic: seq<Byte>): (r: Result<seq<Byte>>)
    requires |magic| == 4
    ensures r.Ok? ==> |r.value| < |bs|
  {
    var head :- TakeBytes(bs, 4);
    if head.0 != magic then Err(InvalidData)
    else
      var version :- TakeInt(head.1, 2);
      if version.0 != FORMAT_VERSION then Err(InvalidData) else Ok(version.1)
  }

  // the mutation that decode_mutation_from_cursor has read so far, with its defaults
  function TakeHeader(bs: seq<Byte>): (r: Reading<Mutation>) {
    var body :- TakeVersion(bs, MUTATION_MAGIC);
    var opId :- TakeString(body);
    var shard :- TakeInt(opId.1, 2);
    var seqNo :- TakeInt(shard.1, 8);
    var epoch :- TakeInt(seqNo.1, 8);
    var region :- TakeString(epoch.1);
    var entry :- TakeEntry(region.1);
    Ok((Mutation(opId.0, CommitId(shard.0, seqNo.0, epoch.0, region.0), entry.0, None, P1, 0), entry.1))
  }

  // the trailing fields, which older encodings do not have
  function TakePriority(bs: seq<Byte>): Reading<DeliveryPriority> {
    if |bs| < 1 then Ok((P1, bs))
    else
      var tag :- TakeByte(bs);
      var priority :- PriorityOf(tag.0);
      Ok((priority, tag.1))
  }

  function TakeCommittedAt(bs: seq<Byte>): Reading<nat> {
    if |bs| < 8 then Ok((0, bs)) else TakeInt(bs, 8)
  }

  function TakeRuleOption(bs: seq<Byte>): Reading<Option<RuleEntry>> {
    if |bs| < 1 then Ok((None, bs))
    else
      var tag :- TakeByte(bs);
      if tag.0 == 0 then Ok((None, tag.1))
      else if tag.0 == 1 then
        var rule :- TakeRule(tag.1);
        Ok((Some(rule.0), rule.1))
      else Err(InvalidData)
  }

  // decode_mutation
  function DecodeMutation(bs: seq<Byte>): Result<Mutation> {
    var header :- TakeHeader(bs);
    var priority :- TakePriority(header.1);
    var committedAt :- TakeCommittedAt(priority.1);
    var rule :- TakeRuleOption(committedAt.1);
    Ok(header.0.(deliveryPriority := priority.0, committedAt := committedAt.0, rule := rule.0))
  }

  lemma VersionBack(magic: seq<Byte>, rest: seq<Byte>)
    requires |magic| == 4
    ensures TakeVersion(magic + PutInt(FORMAT_VERSION, 2, rest), magic) == Ok(rest)
  {
    var body := PutInt(FORMAT_VERSION, 2, rest);
    assert (magic + body)[..4] == magic && (magic + body)[4..] == body;
    TakePutInt(FORMAT_VERSION, 2, rest);
    hide PutInt, TakeInt;
  }

  lemma HeaderBack(m: Mutation, rest: seq<Byte>)
    requires MutationFits(m)
    ensures TakeHeader(PutHeader(m, rest)) == Ok((m.(rule := None, deliveryPriority := P1, committedAt := 0), rest))
  {
    var a := PutEntry(m.entry, rest);
    var b := PutString(m.commitId.sourceRegion, a);
    var c := PutInt(m.commitId.epoch, 8, b);
    var d := PutInt(m.commitId.seqNo, 8, c);
    var e := PutInt(m.commitId.shardId, 2, d);
    var f := PutString(m.opId, e);
    hide PutInt, PutString, PutEntry, TakeInt, TakeString, TakeEntry, TakeVersion, Limit, ShortString, EntryFits, RuleFits;
    EntryRoundTrip(m.entry, rest);
    TakePutString(m.commitId.sourceRegion, a);
    TakePutInt(m.commitId.epoch, 8, b);
    TakePutInt(m.commitId.seqNo, 8, c);
    TakePutInt(m.commitId.shardId, 2, d);
    TakePutString(m.opId, e);
    VersionBack(MUTATION_MAGIC, f);
  }

  lemma PriorityBack(p: DeliveryPriority, rest: seq<Byte>)
    ensures TakePriority(PutByte(PriorityTag(p), rest)) == Ok((p, rest))
  {
  }

  lemma CommittedAtBack(t: nat, rest: seq<Byte>)
    requires t < Limit(8)
    ensures TakeCommittedAt(PutInt(t, 8, rest)) == Ok((t, rest))
  {
    TakePutInt(t, 8, rest);
  }

  lemma RuleOptionBack(rule: Option<RuleEntry>)
    requires rule.Some? ==> RuleFits(rule.value)
    ensures TakeRuleOption(PutRuleOption(rule)) == Ok((rule, []))
  {
    if rule.Some? {
      RuleRoundTrip(rule.value, []);
    }
    hide PutRule, TakeRule;
  }

  /** Every mutation within the integer widths is read back from its encoding. */
  lemma MutationRoundTrip(m: Mutation)
    requires MutationFits(m)
    ensures DecodeMutation(EncodeMutation(m)) == Ok(m)
  {
    var a := PutRuleOption(m.rule);
    var b := PutInt(m.committedAt, 8, a);
    var c := PutByte(PriorityTag(m.deliveryPriority), b);
    RuleOptionBack(m.rule);
    CommittedAtBack(m.committedAt, a);
    PriorityBack(m.deliveryPriority, b);
    HeaderBack(m, c);
    hide PutHeader, TakeHeader, TakePriority, TakeCommittedAt, TakeRuleOption, PutRuleOption, PutInt, PutByte, Limit;
  }

  /** An older encoding that ends with the entry reads as a mutation with normal priority, no commit
      time and no rule. */
  lemma OlderMutationReads(m: Mutation)
    requires MutationFits(m)
    ensures DecodeMutation(PutHeader(m, [])) == Ok(m.(rule := None, deliveryPriority := P1, committedAt := 0))
  {
    HeaderBack(m, []);
    hide PutHeader, TakeHeader;
  }

  // ---------- lists ----------

  // the encoding loops
  function PutMany<T>(put: (T, seq<Byte>) -> seq<Byte>, xs: seq<T>, rest: seq<Byte>): seq<Byte> {
    if xs == [] then rest else put(xs[0], PutMany(put, xs[1..], rest))
  }

  // the decoding loops
  function TakeMany<T>(take: seq<Byte> -> Reading<T>, bs: seq<Byte>, count: nat): Reading<seq<T>>
    decreases count
  {
    if count == 0 then Ok(([], bs))
    else
      var x :- take(bs);
      var tail :- TakeMany(take, x.1, count - 1);
      Ok(([x.0] + tail.0, tail.1))
  }

  /** If every element is read back, so is the list. */
  lemma {:induction false} ManyBack<T>(put: (T, seq<Byte>) -> seq<Byte>, take: seq<Byte> -> Reading<T>, xs: seq<T>, rest: seq<Byte>)
    requires forall i, more :: 0 <= i < |xs| ==> take(put(xs[i], more)) == Ok((xs[i], more))
    ensures TakeMany(take, PutMany(put, xs, rest), |xs|) == Ok((xs, rest))
  {
    if xs != [] {
      ManyBack(put, take, xs[1..], rest);
      assert [xs[0]] + xs[1..] == xs;
    }
  }

  // ---------- frames: streams and shard logs ----------

  predicate FrameFits(m: Mutation) {
    MutationFits(m) && |EncodeMutation(m)| < Limit(4)
  }

  // a length-prefixed mutation
  function PutFrame(m: Mutation, rest: seq<Byte>): seq<Byte> {
    PutInt(|EncodeMutation(m)|, 4, EncodeMutation(m) + rest)
  }

  function TakeFrame(bs: seq<Byte>): (r: Reading<Mutation>)
    ensures r.Ok? ==> |r.value.1| < |bs|
  {
    var len :- TakeInt(bs, 4);
    var payload :- TakeBytes(len.1, len.0);
    var m :- DecodeMutation(payload.0);
    Ok((m, payload.1))
  }

  lemma FrameRoundTrip(m: Mutation, rest: seq<Byte>)
    requires FrameFits(m)
    ensures TakeFrame(PutFrame(m, rest)) == Ok((m, rest))
  {
    var body := EncodeMutation(m);
    MutationRoundTrip(m);
    TakePutInt(|body|, 4, body + rest);
    assert (body + rest)[..|body|] == body && (body + rest)[|body|..] == rest;
    hide EncodeMutation, DecodeMutation, PutInt, TakeInt;
  }

  function PutFrames(ms: seq<Mutation>): seq<Byte> {
    PutMany(PutFrame, ms, [])
  }

  function TakeFrames(bs: seq<Byte>, count: nat): Reading<seq<Mutation>> {
    TakeMany(TakeFrame, bs, count)
  }

  predicate FramesFit(ms: seq<Mutation>) {
    forall i :: 0 <= i < |ms| ==> FrameFits(ms[i])
  }

  lemma FramesRoundTrip(ms: seq<Mutation>)
    requires FramesFit(ms)
    ensures TakeFrames(PutFrames(ms), |ms|) == Ok((ms, []))
  {
    hide PutFrame, TakeFrame, FrameFits;
    forall i, more | 0 <= i < |ms|
      ensures TakeFrame(PutFrame(ms[i], more)) == Ok((ms[i], more))
    {
      FrameRoundTrip(ms[i], more);
    }
    ManyBack(PutFrame, TakeFrame, ms, []);
  }

  // encode_mutation_stream
  function EncodeStream(ms: seq<Mutation>): seq<Byte> {
    STREAM_MAGIC + PutInt(FORMAT_VERSION, 2, PutInt(|ms|, 8, PutFrames(ms)))
  }

  // decode_mutation_stream
  function DecodeStream(bs: seq<Byte>): Result<seq<Mutation>> {
    var body :- TakeVersion(bs, STREAM_MAGIC);
    var count :- TakeInt(body, 8);
    var ms :- TakeFrames(count.1, count.0);
    Ok(ms.0)
  }

  /** Every stream is read back. */
  lemma StreamRoundTrip(ms: seq<Mutation>)
    requires FramesFit(ms) && |ms| < Limit(8)
    ensures DecodeStream(EncodeStream(ms)) == Ok(ms)
  {
    FramesRoundTrip(ms);
    TakePutInt(|ms|, 8, PutFrames(ms));
    VersionBack(STREAM_MAGIC, PutInt(|ms|, 8, PutFrames(ms)));
    hide PutInt, TakeInt, PutFrames, TakeFrames, TakeVersion, Limit;
  }

  lemma FrameThenRest(m: Mutation, rest: seq<Byte>)
    ensures PutFrame(m, rest) == PutFrame(m, []) + rest
  {
    hide EncodeMutation, PutInt;
    PutIntAppend(|EncodeMutation(m)|, 4, EncodeMutation(m) + [], rest);
    assert EncodeMutation(m) + [] + rest == EncodeMutation(m) + rest;
  }

  lemma FramesStep(out: seq<Byte>, ms: seq<Mutation>, i: nat)
    requires i < |ms|
    ensures out + PutFrames(ms[i..]) == out + PutFrame(ms[i], []) + PutFrames(ms[i + 1..])
  {
    var rest := ms[i + 1..];
    assert ms[i..][1..] == rest;
    assert PutFrames(ms[i..]) == PutFrame(ms[i], PutFrames(rest));
    hide PutFrame, PutFrames;
    FrameThenRest(ms[i], PutFrames(rest));
    AppendTwice(out, PutFrame(ms[i], []), PutFrames(rest));
  }

  lemma AppendTwice(a: seq<Byte>, b: seq<Byte>, c: seq<Byte>)
    ensures a + (b + c) == a + b + c
  {
  }

  // the loop of encode_mutation_stream and write_shard_log, which appends frame by frame
  method EncodeFrames(ms: seq<Mutation>) returns (out: seq<Byte>)
    ensures out == PutFrames(ms)
  {
    hide PutFrame;
    out := [];
    for i := 0 to |ms|
      invariant out + PutFrames(ms[i..]) == PutFrames(ms)
    {
      FramesStep(out, ms, i);
      out := out + PutFrame(ms[i], []);
    }
    assert out + [] == out;
  }

  // decode_mutation_stream, moving a cursor
  method DecodeStreamLoop(bs: seq<Byte>) returns (r: Result<seq<Mutation>>)
    ensures r == DecodeStream(bs)
  {
    hide TakeFrame;
    var body := TakeVersion(bs, STREAM_MAGIC);
    if body.Err? {
      return Err(body.error);
    }
    var count := TakeInt(body.value, 8);
    if count.Err? {
      return Err(count.error);
    }
    var n := count.value.0;
    var cursor := count.value.1;
    ghost var all := TakeFrames(cursor, n);
    PrefixedNone(all);
    var ms: seq<Mutation> := [];
    for i := 0 to n
      invariant all == Prefixed(ms, TakeFrames(cursor, n - i))
    {
      var frame := TakeFrame(cursor);
      if frame.Err? {
        return Err(frame.error);
      }
      PrefixedStep(ms, frame.value.0, TakeFrames(frame.value.1, n - i - 1));
      ms := ms + [frame.value.0];
      cursor := frame.value.1;
    }
    assert ms + [] == ms;
    return Ok(ms);
  }

  // what was read before, in front of the rest
  function Prefixed(ms: seq<Mutation>, rest: Reading<seq<Mutation>>): Reading<seq<Mutation>> {
    match rest
    case Err(e) => Err(e)
    case Ok((tail, end)) => Ok((ms + tail, end))
  }

  lemma PrefixedNone(rest: Reading<seq<Mutation>>)
    ensures Prefixed([], rest) == rest
  {
    if rest.Ok? {
      assert [] + rest.value.0 == rest.value.0;
    }
  }

  lemma PrefixedStep(ms: seq<Mutation>, m: Mutation, rest: Reading<seq<Mutation>>)
    ensures Prefixed(ms + [m], rest) == Prefixed(ms, Prefixed([m], rest))
  {
    if rest.Ok? {
      assert ms + [m] + rest.value.0 == ms + ([m] + rest.value.0);
    }
  }

  // ---------- shard logs ----------

  // append_mutation_to_log
  function AppendToLog(log: seq<Byte>, m: Mutation): seq<Byte> {
    log + PutFrame(m, [])
  }

  function LogOf(ms: seq<Mutation>): seq<Byte> {
    if ms == [] then [] else AppendToLog(LogOf(ms[..|ms| - 1]), ms[|ms| - 1])
  }

  // read_shard_log: as long as bytes are left
  function ReadLog(bs: seq<Byte>): Result<seq<Mutation>>
    decreases |bs|
  {
    if bs == [] then Ok([])
    else
      var m :- TakeFrame(bs);
      var tail :- ReadLog(m.1);
      Ok([m.0] + tail)
  }

  function After(ms: seq<Mutation>, rest: Result<seq<Mutation>>): Result<seq<Mutation>> {
    match rest
    case Err(e) => Err(e)
    case Ok(tail) => Ok(ms + tail)
  }

  lemma AfterNone(rest: Result<seq<Mutation>>)
    ensures After([], rest) == rest
  {
    if rest.Ok? {
      assert [] + rest.value == rest.value;
    }
  }

  lemma AfterStep(ms: seq<Mutation>, m: Mutation, rest: Result<seq<Mutation>>)
    ensures After(ms + [m], rest) == After(ms, After([m], rest))
  {
    if rest.Ok? {
      assert ms + [m] + rest.value == ms + ([m] + rest.value);
    }
  }

  method ReadLogLoop(bs: seq<Byte>) returns (r: Result<seq<Mutation>>)
    ensures r == ReadLog(bs)
  {
    hide TakeFrame;
    AfterNone(ReadLog(bs));
    var ms: seq<Mutation> := [];
    var cursor := bs;
    while cursor != []
      invariant ReadLog(bs) == After(ms, ReadLog(cursor))
      decreases |cursor|
    {
      var frame := TakeFrame(cursor);
      if frame.Err? {
        return Err(frame.error);
      }
      AfterStep(ms, frame.value.0, ReadLog(frame.value.1));
      ms := ms + [frame.value.0];
      cursor := frame.value.1;
    }
    assert ms + [] == ms;
    return Ok(ms);
  }

  lemma {:induction false} PutFramesPush(ms: seq<Mutation>, m: Mutation)
    ensures PutFrames(ms + [m]) == PutFrames(ms) + PutFrame(m, [])
  {
    hide PutFrame;
    if ms == [] {
      assert ([] + [m])[1..] == [];
    } else {
      var rest := PutFrames(ms[1..]);
      PutFramesPush(ms[1..], m);
      assert (ms + [m])[1..] == ms[1..] + [m];
      FrameThenRest(ms[0], rest + PutFrame(m, []));
      FrameThenRest(ms[0], rest);
      assert PutFrame(ms[0], []) + (rest + PutFrame(m, [])) == PutFrame(ms[0], []) + rest + PutFrame(m, []);
    }
  }

  lemma {:induction false} LogIsFrames(ms: seq<Mutation>)
    ensures LogOf(ms) == PutFrames(ms)
  {
    hide PutFrame;
    if ms != [] {
      LogIsFrames(ms[..|ms| - 1]);
      PutFramesPush(ms[..|ms| - 1], ms[|ms| - 1]);
      assert ms[..|ms| - 1] + [ms[|ms| - 1]] == ms;
    }
  }

  lemma {:induction false} ReadFrames(ms: seq<Mutation>)
    requires FramesFit(ms)
    ensures ReadLog(PutFrames(ms)) == Ok(ms)
  {
    hide PutFrame, TakeFrame, FrameFits;
    if ms != [] {
      ReadFrames(ms[1..]);
      FrameRoundTrip(ms[0], PutFrames(ms[1..]));
      FrameNonEmpty(ms[0], PutFrames(ms[1..]));
      assert [ms[0]] + ms[1..] == ms;
    }
  }

  lemma FrameNonEmpty(m: Mutation, rest: seq<Byte>)
    ensures PutFrame(m, rest) != []
  {
    hide EncodeMutation;
  }

  /** Reading a shard log returns precisely the mutations appended to it, in order. */
  lemma LogRoundTrip(ms: seq<Mutation>)
    requires FramesFit(ms)
    ensures ReadLog(LogOf(ms)) == Ok(ms)
  {
    LogIsFrames(ms);
    ReadFrames(ms);
  }

  // compact_logs_to_watermarks, for one shard
  function CompactLog(bs: seq<Byte>, floor: nat): Result<seq<Byte>> {
    var ms :- ReadLog(bs);
    Ok(LogOf(AboveOne(ms, floor)))
  }

  lemma {:induction false} KeptFit(ms: seq<Mutation>, floor: nat)
    requires FramesFit(ms)
    ensures FramesFit(AboveOne(ms, floor))
  {
    hide FrameFits;
    if ms != [] {
      KeptFit(ms[..|ms| - 1], floor);
    }
  }

  /** Compacting a log is filtering the list that it holds. */
  lemma CompactionFilters(ms: seq<Mutation>, floor: nat)
    requires FramesFit(ms)
    ensures CompactLog(LogOf(ms), floor).Ok?
    ensures ReadLog(CompactLog(LogOf(ms), floor).value) == Ok(AboveOne(ms, floor))
  {
    LogRoundTrip(ms);
    KeptFit(ms, floor);
    LogRoundTrip(AboveOne(ms, floor));
  }

  // ---------- snapshots ----------

  function PutLong(v: nat, rest: seq<Byte>): seq<Byte> { PutInt(v, 8, rest) }

  function TakeLong(bs: seq<Byte>): Reading<nat> { TakeInt(bs, 8) }

  // encode_snapshot
  function EncodeSnapshot(s: Snapshot): seq<Byte> {
    SNAPSHOT_MAGIC + PutInt(FORMAT_VERSION, 2, PutInt(s.shardCount, 2, PutInt(|s.watermarks|, 4,
      PutInt(|s.entries|, 8, PutMany(PutLong, s.watermarks, PutMany(PutEntry, s.entries,
        PutInt(|s.rules|, 8, PutMany(PutRule, s.rules, []))))))))
  }

  // the rule part of decode_snapshot, which older snapshots do not have
  function TakeRuleList(bs: seq<Byte>): Result<seq<RuleEntry>> {
    if |bs| < 8 then Ok([])
    else
      var count :- TakeInt(bs, 8);
      var rules :- TakeMany(TakeRule, count.1, count.0);
      Ok(rules.0)
  }

  // decode_snapshot
  function DecodeSnapshot(bs: seq<Byte>): Result<Snapshot> {
    var body :- TakeVersion(bs, SNAPSHOT_MAGIC);
    var shards :- TakeInt(body, 2);
    var watermarkCount :- TakeInt(shards.1, 4);
    var entryCount :- TakeInt(watermarkCount.1, 8);
    if watermarkCount.0 != shards.0 then Err(InvalidData)
    else
      var watermarks :- TakeMany(TakeLong, entryCount.1, watermarkCount.0);
      var entries :- TakeMany(TakeEntry, watermarks.1, entryCount.0);
      var rules :- TakeRuleList(entries.1);
      Ok(Snapshot(shards.0, watermarks.0, entries.0, rules))
  }

  predicate SnapshotFits(s: Snapshot) {
    && s.shardCount < Limit(2) && |s.watermarks| < Limit(4) && |s.entries| < Limit(8) && |s.rules| < Limit(8)
    && (forall i :: 0 <= i < |s.watermarks| ==> s.watermarks[i] < Limit(8))
    && (forall i :: 0 <= i < |s.entries| ==> EntryFits(s.entries[i]))
    && (forall i :: 0 <= i < |s.rules| ==> RuleFits(s.rules[i]))
  }

  lemma LongsBack(vs: seq<nat>, rest: seq<Byte>)
    requires forall i :: 0 <= i < |vs| ==> vs[i] < Limit(8)
    ensures TakeMany(TakeLong, PutMany(PutLong, vs, rest), |vs|) == Ok((vs, rest))
  {
    hide PutInt, TakeInt, Limit;
    forall i, more | 0 <= i < |vs|
      ensures TakeLong(PutLong(vs[i], more)) == Ok((vs[i], more))
    {
      TakePutInt(vs[i], 8, more);
    }
    ManyBack(PutLong, TakeLong, vs, rest);
  }

  lemma EntriesBack(es: seq<DenyEntry>, rest: seq<Byte>)
    requires forall i :: 0 <= i < |es| ==> EntryFits(es[i])
    ensures TakeMany(TakeEntry, PutMany(PutEntry, es, rest), |es|) == Ok((es, rest))
  {
    hide PutEntry, TakeEntry, EntryFits;
    forall i, more | 0 <= i < |es|
      ensures TakeEntry(PutEntry(es[i], more)) == Ok((es[i], more))
    {
      EntryRoundTrip(es[i], more);
    }
    ManyBack(PutEntry, TakeEntry, es, rest);
  }

  lemma RuleListBack(rs: seq<RuleEntry>)
    requires |rs| < Limit(8) && forall i :: 0 <= i < |rs| ==> RuleFits(rs[i])
    ensures TakeRuleList(PutInt(|rs|, 8, PutMany(PutRule, rs, []))) == Ok(rs)
  {
    hide PutRule, TakeRule, RuleFits;
    forall i, more | 0 <= i < |rs|
      ensures TakeRule(PutRule(rs[i], more)) == Ok((rs[i], more))
    {
      RuleRoundTrip(rs[i], more);
    }
    ManyBack(PutRule, TakeRule, rs, []);
    TakePutInt(|rs|, 8, PutMany(PutRule, rs, []));
    hide PutMany, TakeMany, Limit;
  }

  /** A snapshot within the integer widths is read back from its encoding if and only if it has one
      watermark for every shard; otherwise it is refused. */
  lemma SnapshotRoundTripIff(s: Snapshot)
    requires SnapshotFits(s)
    ensures DecodeSnapshot(EncodeSnapshot(s)) == if |s.watermarks| == s.shardCount then Ok(s) else Err(InvalidData)
  {
    var a := PutInt(|s.rules|, 8, PutMany(PutRule, s.rules, []));
    var b := PutMany(PutEntry, s.entries, a);
    var c := PutMany(PutLong, s.watermarks, b);
    var d := PutInt(|s.entries|, 8, c);
    var e := PutInt(|s.watermarks|, 4, d);
    var f := PutInt(s.shardCount, 2, e);
    hide PutInt, TakeInt, PutMany, TakeMany, TakeRuleList, TakeVersion, Limit, EntryFits, RuleFits;
    RuleListBack(s.rules);
    EntriesBack(s.entries, a);
    LongsBack(s.watermarks, b);
    TakePutInt(|s.entries|, 8, c);
    TakePutInt(|s.watermarks|, 4, d);
    TakePutInt(s.shardCount, 2, e);
    VersionBack(SNAPSHOT_MAGIC, f);
  }
}
