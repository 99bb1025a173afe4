/** The primitive readers and writers of crates/globacl-core/src/lib/codec.rs: little-endian integers
    and length-prefixed UTF-8 strings. A writer is given what comes after it; a reader returns what
    is left for the next one, which stands for the cursor. */
module Bytes {
  import opened Domain
  import opened Arithmetic

  type Byte = x: nat | x < 256

  // 256^n
  function Limit(n: nat): (r: nat)
    ensures r >= 1
  {
    if n == 0 then 1 else 256 * Limit(n - 1)
  }

  // to_le_bytes of the low n bytes: a wider value is truncated, as `as` does
  function LittleEndian(v: nat, n: nat): (bs: seq<Byte>)
    ensures |bs| == n
  {
    if n == 0 then [] else [v % 256] + LittleEndian(v / 256, n - 1)
  }

  // from_le_bytes
  function FromLittleEndian(bs: seq<Byte>): nat {
    if bs == [] then 0 else bs[0] + 256 * FromLittleEndian(bs[1..])
  }

  lemma {:induction false} LittleEndianBack(v: nat, n: nat)
    requires v < Limit(n)
    ensures FromLittleEndian(LittleEndian(v, n)) == v
  {
    if n > 0 {
      assert v / 256 < Limit(n - 1);
      LittleEndianBack(v / 256, n - 1);
      assert LittleEndian(v, n)[1..] == LittleEndian(v / 256, n - 1);
    }
  }

  // write_u16, write_u32, write_u64
  function PutInt(v: nat, n: nat, rest: seq<Byte>): seq<Byte> {
    LittleEndian(v, n) + rest
  }

  function PutByte(b: Byte, rest: seq<Byte>): seq<Byte> {
    [b] + rest
  }

  type Reading<T> = Result<(T, seq<Byte>)>

  // read_exact_vec
  function TakeBytes(bs: seq<Byte>, n: nat): (r: Reading<seq<Byte>>)
    ensures r.Ok? ==> |r.value.1| <= |bs|
  {
    if |bs| < n then Err(Io) else Ok((bs[..n], bs[n..]))
  }

  // read_u16, read_u32, read_u64
  function TakeInt(bs: seq<Byte>, n: nat): (r: Reading<nat>)
    ensures r.Ok? ==> |r.value.1| + n == |bs|
  {
    if |bs| < n then Err(Io) else Ok((FromLittleEndian(bs[..n]), bs[n..]))
  }

  // read_u8
  function TakeByte(bs: seq<Byte>): (r: Reading<Byte>)
    ensures r.Ok? ==> |r.value.1| < |bs|
  {
    if bs == [] then Err(Io) else Ok((bs[0], bs[1..]))
  }

  lemma TakePutInt(v: nat, n: nat, rest: seq<Byte>)
    requires v < Limit(n)
    ensures TakeInt(PutInt(v, n, rest), n) == Ok((v, rest))
  {
    LittleEndianBack(v, n);
    assert PutInt(v, n, rest)[..n] == LittleEndian(v, n);
    assert PutInt(v, n, rest)[n..] == rest;
  }

  lemma TakePutByte(b: Byte, rest: seq<Byte>)
    ensures TakeByte(PutByte(b, rest)) == Ok((b, rest))
  {
  }

  lemma PutIntAppend(v: nat, n: nat, rest: seq<Byte>, more: seq<Byte>)
    ensures PutInt(v, n, rest) + more == PutInt(v, n, rest + more)
  {
  }

  // ---------- UTF-8 ----------

  // char::encode_utf8
  function CharBytes(c: char): (bs: seq<Byte>)
    ensures 1 <= |bs| <= 4
  {
    var u := c as int;
    if u < 0x80 then [u]
    else if u < 0x800 then [0xC0 + u / 64, 0x80 + u % 64]
    else if u < 0x1_0000 then [0xE0 + u / 4096, 0x80 + u / 64 % 64, 0x80 + u % 64]
    else [0xF0 + u / 0x4_0000, 0x80 + u / 4096 % 64, 0x80 + u / 64 % 64, 0x80 + u % 64]
  }

  // String::as_bytes
  function Utf8(s: string): (bs: seq<Byte>)
    ensures |bs| >= |s|
  {
    if s == [] then [] else CharBytes(s[0]) + Utf8(s[1..])
  }

  predicate IsContinuation(b: Byte) {
    0x80 <= b < 0xC0
  }

  predicate IsScalar(u: nat) {
    u < 0xD800 || 0xE000 <= u < 0x11_0000
  }

  // how long the sequence that starts with b is; 0 for a byte that starts none
  function SequenceLength(b: Byte): (n: nat)
    ensures n <= 4
  {
    if b < 0x80 then 1 else if b < 0xC0 then 0 else if b < 0xE0 then 2 else if b < 0xF0 then 3
    else if b < 0xF8 then 4 else 0
  }

  // what the sequence of length n encodes
  function Decoded(bs: seq<Byte>, n: nat): nat
    requires 1 <= n <= 4 && |bs| >= n && SequenceLength(bs[0]) == n
    requires forall i :: 1 <= i < n ==> IsContinuation(bs[i])
  {
    if n == 1 then bs[0]
    else if n == 2 then
      assert IsContinuation(bs[1]);
      (bs[0] as int - 0xC0) * 64 + (bs[1] as int - 0x80)
    else if n == 3 then
      assert IsContinuation(bs[1]) && IsContinuation(bs[2]);
      (bs[0] as int - 0xE0) * 4096 + (bs[1] as int - 0x80) * 64 + (bs[2] as int - 0x80)
    else
      assert IsContinuation(bs[1]) && IsContinuation(bs[2]) && IsContinuation(bs[3]);
      (bs[0] as int - 0xF0) * 0x4_0000 + (bs[1] as int - 0x80) * 4096 + (bs[2] as int - 0x80) * 64 + (bs[3] as int - 0x80)
  }

  // the least scalar value that needs n bytes
  function Shortest(n: nat): nat {
    if n <= 1 then 0 else if n == 2 then 0x80 else if n == 3 then 0x800 else 0x1_0000
  }

  // String::from_utf8: no overlong form, no surrogate, nothing above 0x10FFFF
  function FromUtf8(bs: seq<Byte>): Option<string> {
    if bs == [] then Some("")
    else
      var n := SequenceLength(bs[0]);
      if n == 0 || |bs| < n || exists i :: 1 <= i < n && !IsContinuation(bs[i]) then None
      else
        var u := Decoded(bs, n);
        if u < Shortest(n) || !IsScalar(u) then None
        else
          match FromUtf8(bs[n..])
          case None => None
          case Some(rest) => Some([u as char] + rest)
  }

  lemma CharBack(c: char, rest: seq<Byte>)
    ensures var bs := CharBytes(c) + rest; var n := |CharBytes(c)|;
      && SequenceLength(bs[0]) == n
      && (forall i :: 1 <= i < n ==> IsContinuation(bs[i]))
      && Decoded(bs, n) == c as int && Shortest(n) <= c as int && IsScalar(c as int)
  {
    var u := c as int;
    assert u < 0x11_0000;
    if 0x1_0000 <= u {
      assert u / 0x4_0000 == u / 64 / 64 / 64 && u / 4096 == u / 64 / 64;
    } else if 0x800 <= u {
      assert u / 4096 == u / 64 / 64;
    }
  }

  /** Every string is read back from its UTF-8 form. */
  lemma {:induction false} Utf8Back(s: string)
    ensures FromUtf8(Utf8(s)) == Some(s)
  {
    if s != [] {
      Utf8Back(s[1..]);
      CharBack(s[0], Utf8(s[1..]));
      var bs := Utf8(s);
      hide Decoded, CharBytes, SequenceLength, Utf8;
      assert bs == CharBytes(s[0]) + Utf8(s[1..]) by { Utf8Head(s); }
      assert bs[|CharBytes(s[0])|..] == Utf8(s[1..]);
      assert [s[0]] + s[1..] == s;
    }
  }

  lemma Utf8Head(s: string)
    requires s != []
    ensures Utf8(s) == CharBytes(s[0]) + Utf8(s[1..])
  {
  }

  // write_string; the length is cast to u32
  function PutString(s: string, rest: seq<Byte>): seq<Byte> {
    PutInt(|Utf8(s)|, 4, Utf8(s) + rest)
  }

  // read_string
  function TakeString(bs: seq<Byte>): (r: Reading<string>)
    ensures r.Ok? ==> |r.value.1| < |bs|
  {
    var len :- TakeInt(bs, 4);
    var raw :- TakeBytes(len.1, len.0);
    match FromUtf8(raw.0)
    case None => Err(InvalidData)
    case Some(s) => Ok((s, raw.1))
  }

  predicate ShortString(s: string) {
    |Utf8(s)| < Limit(4)
  }

  lemma TakePutString(s: string, rest: seq<Byte>)
    requires ShortString(s)
    ensures TakeString(PutString(s, rest)) == Ok((s, rest))
  {
    Utf8Back(s);
    TakePutInt(|Utf8(s)|, 4, Utf8(s) + rest);
    assert (Utf8(s) + rest)[..|Utf8(s)|] == Utf8(s);
    assert (Utf8(s) + rest)[|Utf8(s)|..] == rest;
    hide PutInt, TakeInt, FromUtf8, Utf8;
  }
}
