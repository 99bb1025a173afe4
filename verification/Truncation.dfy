/** Encodings cut short. A reader that succeeds reads the same whatever follows, so no strict prefix of an
    encoding is taken for another; a shard log cut anywhere but between two mutations does not load at all
    (crates/globacl-core/src/lib/codec.rs and snapshots.rs). Strings are read strictly. */
module Truncation {
  import opened Domain
  import opened Text
  import opened Arithmetic
  import opened Bytes
  import opened Codec

  /** With more bytes behind it, a reading that succeeded reads the same and leaves them too. */
  ghost predicate Stable<T>(short: Reading<T>, long: Reading<T>, more: seq<Byte>) {
    short.Ok? ==> long == Ok((short.value.0, short.value.1 + more))
  }

  lemma IntStable(bs: seq<Byte>, more: seq<Byte>, n: nat)
    ensures Stable(TakeInt(bs, n), TakeInt(bs + more, n), more)
  {
    if n <= |bs| {
      assert (bs + more)[..n] == bs[..n] && (bs + more)[n..] == bs[n..] + more;
    }
    hide FromLittleEndian;
  }

  lemma BytesStable(bs: seq<Byte>, more: seq<Byte>, n: nat)
    ensures Stable(TakeBytes(bs, n), TakeBytes(bs + more, n), more)
  {
    if n <= |bs| {
      assert (bs + more)[..n] == bs[..n] && (bs + more)[n..] == bs[n..] + more;
    }
  }

  lemma FrameStable(bs: seq<Byte>, more: seq<Byte>)
    ensures Stable(TakeFrame(bs), TakeFrame(bs + more), more)
  {
    hide TakeInt, TakeBytes, DecodeMutation;
    IntStable(bs, more, 4);
    if TakeInt(bs, 4).Ok? {
      BytesStable(TakeInt(bs, 4).value.1, more, TakeInt(bs, 4).value.0);
    }
  }

  lemma {:induction false} FramesStable(bs: seq<Byte>, more: seq<Byte>, count: nat)
    ensures Stable(TakeFrames(bs, count), TakeFrames(bs + more, count), more)
    decreases count
  {
    hide TakeFrame;
    if count > 0 {
      FrameStable(bs, more);
      if TakeFrame(bs).Ok? {
        FramesStable(TakeFrame(bs).value.1, more, count - 1);
      }
    }
  }

  lemma VersionStable(bs: seq<Byte>, more: seq<Byte>, magic: seq<Byte>)
    requires |magic| == 4 && TakeVersion(bs, magic).Ok?
    ensures TakeVersion(bs + more, magic) == Ok(TakeVersion(bs, magic).value + more)
  {
    hide TakeInt, TakeBytes;
    BytesStable(bs, more, 4);
    IntStable(TakeBytes(bs, 4).value.1, more, 2);
  }

  // ---------- streams ----------

  // what a stream leaves unread, if it can be read
  function StreamRest(bs: seq<Byte>): Reading<seq<Mutation>> {
    var body :- TakeVersion(bs, STREAM_MAGIC);
    var count :- TakeInt(body, 8);
    TakeFrames(count.1, count.0)
  }

  lemma StreamStable(bs: seq<Byte>, more: seq<Byte>)
    ensures Stable(StreamRest(bs), StreamRest(bs + more), more)
  {
    hide TakeInt, TakeFrames, TakeVersion;
    if TakeVersion(bs, STREAM_MAGIC).Ok? {
      VersionStable(bs, more, STREAM_MAGIC);
      var body := TakeVersion(bs, STREAM_MAGIC).value;
      IntStable(body, more, 8);
      if TakeInt(body, 8).Ok? {
        FramesStable(TakeInt(body, 8).value.1, more, TakeInt(body, 8).value.0);
      }
    }
  }

  lemma StreamLeavesNothing(ms: seq<Mutation>)
    requires FramesFit(ms) && |ms| < Limit(8)
    ensures StreamRest(EncodeStream(ms)) == Ok((ms, []))
  {
    FramesRoundTrip(ms);
    TakePutInt(|ms|, 8, PutFrames(ms));
    VersionBack(STREAM_MAGIC, PutInt(|ms|, 8, PutFrames(ms)));
    hide PutInt, TakeInt, PutFrames, TakeFrames, TakeVersion, Limit;
  }

  lemma DecodesRest(bs: seq<Byte>)
    ensures DecodeStream(bs) == if StreamRest(bs).Ok? then Ok(StreamRest(bs).value.0) else Err(StreamRest(bs).error)
  {
    hide TakeInt, TakeFrames, TakeVersion;
  }

  // a stable reading that leaves nothing fails on every strict prefix
  lemma CutIsRefused<T>(short: Reading<T>, long: Reading<T>, more: seq<Byte>)
    requires Stable(short, long, more) && long.Ok? && long.value.1 == [] && more != []
    ensures short.Err?
  {
  }

  /** A stream that was cut short anywhere is refused; bytes behind a whole one are ignored. */
  lemma CutStreamIsRefused(ms: seq<Mutation>, k: nat, more: seq<Byte>)
    requires FramesFit(ms) && |ms| < Limit(8)
    ensures k < |EncodeStream(ms)| ==> DecodeStream(EncodeStream(ms)[..k]).Err?
    ensures DecodeStream(EncodeStream(ms) + more) == Ok(ms)
  {
    hide TakeInt, TakeFrames, TakeVersion, EncodeStream, StreamRest, FramesFit, Limit, DecodeStream;
    var all := EncodeStream(ms);
    StreamLeavesNothing(ms);
    StreamStable(all, more);
    DecodesRest(all + more);
    if k < |all| {
      var cut, tail := all[..k], all[k..];
      assert cut + tail == all;
      StreamStable(cut, tail);
      CutIsRefused(StreamRest(cut), StreamRest(all), tail);
      DecodesRest(cut);
    }
  }

  // ---------- shard logs ----------

  lemma {:induction false} FramesConcat(a: seq<Mutation>, b: seq<Mutation>)
    ensures PutFrames(a + b) == PutFrames(a) + PutFrames(b)
    decreases |b|
  {
    hide PutFrame;
    if b == [] {
      assert a + b == a && PutFrames(b) == [];
    } else {
      var init, last := b[..|b| - 1], b[|b| - 1];
      FramesConcat(a, init);
      PutFramesPush(a + init, last);
      PutFramesPush(init, last);
      assert a + b == a + init + [last] && b == init + [last];
    }
  }

  lemma CutFrameIsRefused(m: Mutation, k: nat)
    requires FrameFits(m) && k < |PutFrame(m, [])|
    ensures TakeFrame(PutFrame(m, [])[..k]).Err?
  {
    hide PutFrame, TakeFrame, FrameFits;
    var all := PutFrame(m, []);
    FrameRoundTrip(m, []);
    assert all[..k] + all[k..] == all;
    FrameStable(all[..k], all[k..]);
  }

  /** A log cut between two mutations reads as the mutations before the cut. */
  lemma LogCutBetween(ms: seq<Mutation>, j: nat)
    requires FramesFit(ms) && j <= |ms|
    ensures |LogOf(ms[..j])| <= |LogOf(ms)| && ReadLog(LogOf(ms)[..|LogOf(ms[..j])|]) == Ok(ms[..j])
  {
    hide FrameFits, PutFrame, TakeFrame;
    LogIsFrames(ms);
    LogIsFrames(ms[..j]);
    FramesConcat(ms[..j], ms[j..]);
    assert ms[..j] + ms[j..] == ms;
    ReadFrames(ms[..j]);
  }

  lemma {:induction false} ReadCut(ms: seq<Mutation>, k: nat) returns (j: nat)
    requires FramesFit(ms) && k <= |PutFrames(ms)| && ReadLog(PutFrames(ms)[..k]).Ok?
    ensures j <= |ms| && k == |PutFrames(ms[..j])|
    decreases |ms|
  {
    hide FrameFits, PutFrame, TakeFrame;
    j := 0;
    if ms != [] && k > 0 {
      var first, rest := PutFrame(ms[0], []), PutFrames(ms[1..]);
      FrameThenRest(ms[0], rest);
      assert PutFrames(ms) == first + rest;
      if k < |first| {
        assert PutFrames(ms)[..k] == first[..k];
        CutFrameIsRefused(ms[0], k);
        assert false;
      } else {
        var cut := rest[..k - |first|];
        assert PutFrames(ms)[..k] == first + cut;
        FrameThenRest(ms[0], cut);
        FrameRoundTrip(ms[0], cut);
        j := ReadCut(ms[1..], k - |first|);
        j := j + 1;
        FramesPrefix(ms, j);
      }
    }
  }

  lemma FramesPrefix(ms: seq<Mutation>, j: nat)
    requires 1 <= j <= |ms|
    ensures |PutFrames(ms[..j])| == |PutFrame(ms[0], [])| + |PutFrames(ms[1..][..j - 1])|
  {
    hide PutFrame;
    assert ms[..j][1..] == ms[1..][..j - 1];
    FrameThenRest(ms[0], PutFrames(ms[1..][..j - 1]));
  }

  /** A log cut anywhere loads exactly when the cut is between two mutations: a torn append is an error, never
      a different mutation. */
  lemma TornLogIff(ms: seq<Mutation>, k: nat)
    requires FramesFit(ms) && k <= |LogOf(ms)|
    ensures ReadLog(LogOf(ms)[..k]).Ok? <==> exists j :: 0 <= j <= |ms| && k == |LogOf(ms[..j])|
  {
    hide FrameFits, ReadLog, LogOf;
    LogIsFrames(ms);
    if ReadLog(LogOf(ms)[..k]).Ok? {
      var j := ReadCut(ms, k);
      LogIsFrames(ms[..j]);
    }
    if j :| 0 <= j <= |ms| && k == |LogOf(ms[..j])| {
      LogCutBetween(ms, j);
    }
  }

  /** So a log whose last append was torn does not load, whatever it held before. */
  lemma TornAppendIsFatal(ms: seq<Mutation>, m: Mutation, k: nat)
    requires FramesFit(ms + [m]) && |LogOf(ms)| < k < |LogOf(ms + [m])|
    ensures ReadLog(LogOf(ms + [m])[..k]).Err?
  {
    hide FrameFits, ReadLog, LogOf;
    var all := ms + [m];
    TornLogIff(all, k);
    forall j | 0 <= j <= |all|
      ensures k != |LogOf(all[..j])|
    {
      if j <= |ms| {
        assert all[..j] == ms[..j];
        assert FramesFit(ms) by { assert forall i :: 0 <= i < |ms| ==> all[i] == ms[i]; }
        LogCutBetween(ms, j);
      } else {
        assert all[..j] == all;
      }
    }
  }

  // ---------- strings ----------

  // the arithmetic of two, three and four bytes
  lemma SplitTwo(a: nat, b: nat)
    requires b < 64
    ensures (a * 64 + b) / 64 == a && (a * 64 + b) % 64 == b
  {
  }

  lemma ThreeBytes(a: nat, b: nat, c: nat)
    requires b < 64 && c < 64
    ensures var u := a * 4096 + b * 64 + c; u / 4096 == a && u / 64 % 64 == b && u % 64 == c
  {
    var u := (a * 64 + b) * 64 + c;
    SplitTwo(a * 64 + b, c);
    SplitTwo(a, b);
    assert u / 4096 == u / 64 / 64;
  }

  lemma FourBytes(a: nat, b: nat, c: nat, d: nat)
    requires b < 64 && c < 64 && d < 64
    ensures var u := a * 0x4_0000 + b * 4096 + c * 64 + d;
      u / 0x4_0000 == a && u / 4096 % 64 == b && u / 64 % 64 == c && u % 64 == d
  {
    var u := ((a * 64 + b) * 64 + c) * 64 + d;
    SplitTwo((a * 64 + b) * 64 + c, d);
    SplitTwo(a * 64 + b, c);
    SplitTwo(a, b);
    assert u / 4096 == u / 64 / 64 && u / 0x4_0000 == u / 64 / 64 / 64;
  }

  lemma SequenceExact(bs: seq<Byte>, n: nat)
    requires 1 <= n <= 4 && |bs| >= n && SequenceLength(bs[0]) == n
    requires forall i :: 1 <= i < n ==> IsContinuation(bs[i])
    requires Shortest(n) <= Decoded(bs, n) && IsScalar(Decoded(bs, n))
    ensures CharBytes(Decoded(bs, n) as char) == bs[..n]
  {
    if n == 2 {
      assert IsContinuation(bs[1]);
      SplitTwo(bs[0] - 0xC0, bs[1] - 0x80);
    } else if n == 3 {
      assert IsContinuation(bs[1]) && IsContinuation(bs[2]);
      ThreeBytes(bs[0] - 0xE0, bs[1] - 0x80, bs[2] - 0x80);
    } else if n == 4 {
      assert IsContinuation(bs[1]) && IsContinuation(bs[2]) && IsContinuation(bs[3]);
      FourBytes(bs[0] - 0xF0, bs[1] - 0x80, bs[2] - 0x80, bs[3] - 0x80);
    }
  }

  /** Bytes are read as a string exactly when they are its UTF-8 form. */
  lemma {:induction false} FromUtf8Iff(bs: seq<Byte>, s: string)
    ensures FromUtf8(bs) == Some(s) <==> bs == Utf8(s)
    decreases |bs|
  {
    Utf8Back(s);
    if FromUtf8(bs) == Some(s) && bs != [] {
      var n := SequenceLength(bs[0]);
      assert forall i :: 1 <= i < n ==> IsContinuation(bs[i]);
      SequenceExact(bs, n);
      hide Decoded, CharBytes;
      FromUtf8Iff(bs[n..], s[1..]);
      Utf8Head(s);
      assert s[0] == Decoded(bs, n) as char && s == [s[0]] + s[1..];
      assert bs == bs[..n] + bs[n..];
    }
    hide Decoded, CharBytes;
  }
}
