/** NegativeFilter of crates/globacl-core/src/lib/active_state.rs: 64-bit words, 20 bits per entry and
    8 probes per key. It may say yes for a key it does not hold, but never no for one it does. */
module NegativeFilter {
  import opened Arithmetic
  import opened Domain

  const BITS_PER_ENTRY: nat := 20
  const PROBES: nat := 8
  const WORD: nat := 0x1_0000_0000_0000_0000   // u64 arithmetic wraps here

  // hash_pair_parts: which pair of 64-bit hashes a key has does not matter
  type KeyPair = (string, string, nat) -> (nat, nat)

  datatype Filter = Filter(bits: seq<bv64>, bitLen: nat)
  {
    predicate Valid() { bitLen == 64 * |bits| }
  }

  // bit_index, on wrapping u64
  function BitIndex(bitLen: nat, first: nat, second: nat, i: nat): (b: nat)
    requires bitLen > 0
    ensures b < bitLen
  {
    (((first + i * second % WORD) % WORD + i * i % WORD) % WORD) % bitLen
  }

  // 1 << k, one place at a time
  function Bit(k: nat): bv64
    requires k < 64
  {
    if k == 0 then 1 else Bit(k - 1) << 1
  }

  // the two words have a bit in common
  predicate Meet(x: bv64, y: bv64) {
    x & y != 0
  }

  function Or(x: bv64, y: bv64): bv64 {
    x | y
  }

  predicate Hit(word: bv64, k: nat)
    requires k < 64
  {
    Meet(word, Bit(k))
  }

  function Put(word: bv64, k: nat): bv64
    requires k < 64
  {
    Or(word, Bit(k))
  }

  predicate IsSet(bits: seq<bv64>, b: nat)
    requires b < 64 * |bits|
  {
    Hit(bits[b / 64], b % 64)
  }

  function SetBit(bits: seq<bv64>, b: nat): (r: seq<bv64>)
    requires b < 64 * |bits|
    ensures |r| == |bits|
  {
    bits[b / 64 := Put(bits[b / 64], b % 64)]
  }

  // n more places
  function Shifted(x: bv64, n: nat): bv64
    decreases n
  {
    if n == 0 then x else Shifted(x << 1, n - 1)
  }

  lemma {:induction false} ShiftedZero(n: nat)
    ensures Shifted(0, n) == 0
  {
    if n > 0 {
      ShiftedZero(n - 1);
    }
  }

  lemma TopBit()
    ensures Bit(63) == 0x8000_0000_0000_0000
  {
    assert Bit(7) == 0x80;
    assert Bit(15) == 0x8000;
    assert Bit(23) == 0x80_0000;
    assert Bit(31) == 0x8000_0000;
    assert Bit(39) == 0x80_0000_0000;
    assert Bit(47) == 0x8000_0000_0000;
    assert Bit(55) == 0x80_0000_0000_0000;
  }

  // no bit is shifted out of the word
  lemma {:induction false} ShiftedToTop(k: nat)
    requires k < 64
    ensures Shifted(Bit(k), 63 - k) == Bit(63)
    decreases 63 - k
  {
    if k < 63 {
      ShiftedToTop(k + 1);
    }
  }

  lemma BitNonZero(k: nat)
    requires k < 64
    ensures Bit(k) != 0
  {
    ShiftedToTop(k);
    ShiftedZero(63 - k);
    TopBit();
    hide Bit, Shifted;
  }

  lemma DoubledApart(x: bv64, y: bv64)
    requires !Meet(x, y)
    ensures !Meet(x << 1, y << 1)
  {
  }

  lemma OddApart(y: bv64)
    ensures !Meet(1, y << 1)
  {
  }

  lemma {:induction false} BitsApart(k: nat, l: nat)
    requires k < l < 64
    ensures !Meet(Bit(k), Bit(l))
    decreases k
  {
    hide Meet;
    if k == 0 {
      OddApart(Bit(l - 1));
    } else {
      BitsApart(k - 1, l - 1);
      DoubledApart(Bit(k - 1), Bit(l - 1));
    }
  }

  lemma MeetSymmetric(x: bv64, y: bv64)
    ensures Meet(x, y) == Meet(y, x)
  {
  }

  lemma MeetsItself(x: bv64)
    requires x != 0
    ensures Meet(x, x)
  {
  }

  lemma OrKeeps(x: bv64, y: bv64, z: bv64)
    ensures x & z != 0 ==> (x | y) & z != 0
    ensures y & z != 0 ==> (x | y) & z != 0
  {
  }

  lemma OrMisses(x: bv64, y: bv64, z: bv64)
    requires x & z == 0 && y & z == 0
    ensures (x | y) & z == 0
  {
  }

  lemma OrMeets(x: bv64, y: bv64, z: bv64)
    requires Meet(x, z) || Meet(y, z)
    ensures Meet(Or(x, y), z)
  {
    OrKeeps(x, y, z);
  }

  lemma OrApart(x: bv64, y: bv64, z: bv64)
    requires !Meet(x, z) && !Meet(y, z)
    ensures !Meet(Or(x, y), z)
  {
    OrMisses(x, y, z);
  }

  lemma BitsMeet(k: nat, l: nat)
    requires k < 64 && l < 64
    ensures Meet(Bit(k), Bit(l)) <==> k == l
  {
    hide *;
    if k < l {
      BitsApart(k, l);
    } else if l < k {
      BitsApart(l, k);
      MeetSymmetric(Bit(k), Bit(l));
    } else {
      BitNonZero(k);
      MeetsItself(Bit(k));
    }
  }

  // setting a bit of a word sets it, clears no other and sets no other
  lemma PutHits(word: bv64, k: nat, l: nat)
    requires k < 64 && l < 64
    ensures Hit(Put(word, k), l) <==> k == l || Hit(word, l)
  {
    hide Bit, Meet, Or;
    BitsMeet(k, l);
    if k == l || Hit(word, l) {
      OrMeets(word, Bit(k), Bit(l));
    } else {
      OrApart(word, Bit(k), Bit(l));
    }
  }

  lemma SetBitSets(bits: seq<bv64>, b: nat, c: nat)
    requires b < 64 * |bits| && c < 64 * |bits|
    ensures IsSet(SetBit(bits, b), c) <==> b == c || IsSet(bits, c)
  {
    hide Hit, Put;
    if b / 64 == c / 64 {
      PutHits(bits[b / 64], b % 64, c % 64);
    }
  }

  // the first n probes of insert_parts
  function Probed(bits: seq<bv64>, pair: (nat, nat), n: nat): (r: seq<bv64>)
    requires |bits| > 0
    ensures |r| == |bits|
  {
    if n == 0 then bits
    else SetBit(Probed(bits, pair, n - 1), BitIndex(64 * |bits|, pair.0, pair.1, n - 1))
  }

  // may_contain_parts
  predicate MayContain(f: Filter, pair: (nat, nat))
    requires f.Valid()
  {
    f.bitLen != 0 && forall i :: 0 <= i < PROBES ==> IsSet(f.bits, BitIndex(f.bitLen, pair.0, pair.1, i))
  }

  method MayContainParts(f: Filter, pair: (nat, nat)) returns (yes: bool)
    requires f.Valid()
    ensures yes == MayContain(f, pair)
  {
    if f.bitLen == 0 {
      return false;
    }
    for i := 0 to PROBES
      invariant forall j :: 0 <= j < i ==> IsSet(f.bits, BitIndex(f.bitLen, pair.0, pair.1, j))
    {
      if !IsSet(f.bits, BitIndex(f.bitLen, pair.0, pair.1, i)) {
        return false;
      }
    }
    return true;
  }

  // insert_parts
  method InsertParts(bits: seq<bv64>, pair: (nat, nat)) returns (after: seq<bv64>)
    requires |bits| > 0
    ensures after == Probed(bits, pair, PROBES)
  {
    after := bits;
    for i := 0 to PROBES
      invariant after == Probed(bits, pair, i)
    {
      after := SetBit(after, BitIndex(64 * |bits|, pair.0, pair.1, i));
    }
  }

  lemma {:induction false} ProbedKeeps(bits: seq<bv64>, pair: (nat, nat), n: nat, c: nat)
    requires |bits| > 0 && c < 64 * |bits|
    ensures IsSet(bits, c) ==> IsSet(Probed(bits, pair, n), c)
  {
    if n > 0 {
      ProbedKeeps(bits, pair, n - 1, c);
      SetBitSets(Probed(bits, pair, n - 1), BitIndex(64 * |bits|, pair.0, pair.1, n - 1), c);
    }
  }

  lemma {:induction false} ProbedSets(bits: seq<bv64>, pair: (nat, nat), n: nat, i: nat)
    requires |bits| > 0 && i < n
    ensures IsSet(Probed(bits, pair, n), BitIndex(64 * |bits|, pair.0, pair.1, i))
  {
    var b := BitIndex(64 * |bits|, pair.0, pair.1, n - 1);
    if i == n - 1 {
      SetBitSets(Probed(bits, pair, n - 1), b, b);
    } else {
      ProbedSets(bits, pair, n - 1, i);
      SetBitSets(Probed(bits, pair, n - 1), b, BitIndex(64 * |bits|, pair.0, pair.1, i));
    }
  }

  function InsertAll(bits: seq<bv64>, pairs: seq<(nat, nat)>): (r: seq<bv64>)
    requires |bits| > 0
    ensures |r| == |bits|
  {
    if pairs == [] then bits
    else Probed(InsertAll(bits, pairs[..|pairs| - 1]), pairs[|pairs| - 1], PROBES)
  }

  // usize::div_ceil by 64
  function Words(entries: nat): nat {
    var desired := if entries * BITS_PER_ENTRY < 64 then 64 else entries * BITS_PER_ENTRY;
    (desired + 63) / 64
  }

  // from_compact_entries
  function BuildFilter(pairs: seq<(nat, nat)>): (f: Filter)
    ensures f.Valid()
  {
    if pairs == [] then Filter([], 0)
    else
      var words := Words(|pairs|);
      Filter(InsertAll(seq(words, _ => 0), pairs), words * 64)
  }

  method FromPairs(pairs: seq<(nat, nat)>) returns (f: Filter)
    ensures f == BuildFilter(pairs)
  {
    if |pairs| == 0 {
      return Filter([], 0);
    }
    var words := Words(|pairs|);
    ghost var none: seq<bv64> := seq(words, _ => 0);
    var bits: seq<bv64> := seq(words, _ => 0);
    for i := 0 to |pairs|
      invariant |bits| == words && bits == InsertAll(none, pairs[..i])
    {
      assert pairs[..i + 1][..i] == pairs[..i];
      bits := InsertParts(bits, pairs[i]);
    }
    assert pairs[..|pairs|] == pairs;
    return Filter(bits, words * 64);
  }

  // every probe of a key is set
  predicate AllSet(bits: seq<bv64>, pair: (nat, nat))
    requires |bits| > 0
  {
    forall i :: 0 <= i < PROBES ==> IsSet(bits, BitIndex(64 * |bits|, pair.0, pair.1, i))
  }

  lemma ProbedKeepsAll(bits: seq<bv64>, pair: (nat, nat), other: (nat, nat))
    requires |bits| > 0 && AllSet(bits, other)
    ensures AllSet(Probed(bits, pair, PROBES), other)
  {
    var after := Probed(bits, pair, PROBES);
    hide Probed, IsSet, BitIndex;
    forall k | 0 <= k < PROBES
      ensures IsSet(after, BitIndex(64 * |after|, other.0, other.1, k))
    {
      ProbedKeeps(bits, pair, PROBES, BitIndex(64 * |bits|, other.0, other.1, k));
    }
  }

  lemma ProbedSetsAll(bits: seq<bv64>, pair: (nat, nat))
    requires |bits| > 0
    ensures AllSet(Probed(bits, pair, PROBES), pair)
  {
    var after := Probed(bits, pair, PROBES);
    hide Probed, IsSet, BitIndex;
    forall k | 0 <= k < PROBES
      ensures IsSet(after, BitIndex(64 * |after|, pair.0, pair.1, k))
    {
      ProbedSets(bits, pair, PROBES, k);
    }
  }

  lemma {:induction false} InsertAllHolds(bits: seq<bv64>, pairs: seq<(nat, nat)>, i: nat)
    requires |bits| > 0 && i < |pairs|
    ensures AllSet(InsertAll(bits, pairs), pairs[i])
  {
    var n := |pairs| - 1;
    var before := InsertAll(bits, pairs[..n]);
    assert InsertAll(bits, pairs) == Probed(before, pairs[n], PROBES);
    hide AllSet, Probed, InsertAll;
    if i == n {
      ProbedSetsAll(before, pairs[n]);
    } else {
      InsertAllHolds(bits, pairs[..n], i);
      assert pairs[..n][i] == pairs[i];
      ProbedKeepsAll(before, pairs[n], pairs[i]);
    }
  }

  /** No false negatives: whatever the hashes, the filter says yes for every key it was built from. */
  lemma NoFalseNegatives(pairs: seq<(nat, nat)>, i: nat)
    requires i < |pairs|
    ensures MayContain(BuildFilter(pairs), pairs[i])
  {
    InsertAllHolds(seq(Words(|pairs|), _ => 0), pairs, i);
  }

  // ---------- no more than what was set ----------

  // one of the first n probes of a key
  predicate IsProbe(bitLen: nat, pair: (nat, nat), n: nat, c: nat)
    requires bitLen > 0
  {
    exists i :: 0 <= i < n && BitIndex(bitLen, pair.0, pair.1, i) == c
  }

  lemma {:induction false} ProbedSetsOnly(bits: seq<bv64>, pair: (nat, nat), n: nat, c: nat)
    requires |bits| > 0 && c < 64 * |bits|
    ensures IsSet(Probed(bits, pair, n), c) <==> IsSet(bits, c) || IsProbe(64 * |bits|, pair, n, c)
  {
    hide BitIndex, IsSet;
    if n > 0 {
      ProbedSetsOnly(bits, pair, n - 1, c);
      SetBitSets(Probed(bits, pair, n - 1), BitIndex(64 * |bits|, pair.0, pair.1, n - 1), c);
    }
    hide Probed, SetBit;
  }

  // a probe of one of the keys
  ghost predicate ProbedByAny(bitLen: nat, pairs: seq<(nat, nat)>, c: nat)
    requires bitLen > 0
  {
    exists j :: 0 <= j < |pairs| && IsProbe(bitLen, pairs[j], 8, c)
  }

  lemma {:induction false} InsertAllSetsOnly(bits: seq<bv64>, pairs: seq<(nat, nat)>, c: nat)
    requires |bits| > 0 && c < 64 * |bits|
    ensures IsSet(InsertAll(bits, pairs), c) <==> IsSet(bits, c) || ProbedByAny(64 * |bits|, pairs, c)
  {
    hide IsProbe, IsSet, Probed;
    if pairs != [] {
      var n := |pairs| - 1;
      InsertAllSetsOnly(bits, pairs[..n], c);
      ProbedSetsOnly(InsertAll(bits, pairs[..n]), pairs[n], PROBES, c);
      assert forall j :: 0 <= j < n ==> pairs[..n][j] == pairs[j];
    }
  }

  lemma NothingSet(words: nat, c: nat)
    requires c < 64 * words
    ensures !IsSet(seq(words, _ => 0), c)
  {
    NoBit(c % 64);
    hide Hit;
  }

  lemma NoBit(k: nat)
    requires k < 64
    ensures !Hit(0, k)
  {
    hide Bit;
    ZeroApart(Bit(k));
  }

  lemma ZeroApart(x: bv64)
    ensures !Meet(0, x)
  {
  }

  /** Exactly when it says yes: the filter was built from some key, and each of the eight bits of this one is
      a bit of one of those. Built from none, it always says no. */
  lemma MayContainIff(pairs: seq<(nat, nat)>, key: (nat, nat))
    ensures MayContain(BuildFilter(pairs), key) <==>
      && pairs != []
      && var bitLen := BuildFilter(pairs).bitLen;
      bitLen > 0 && forall i :: 0 <= i < 8 ==> ProbedByAny(bitLen, pairs, BitIndex(bitLen, key.0, key.1, i))
  {
    if pairs != [] {
      var words := Words(|pairs|);
      var none: seq<bv64> := seq(words, _ => 0);
      assert words > 0;
      hide Words, IsSet, ProbedByAny, InsertAll, BitIndex;
      forall i | 0 <= i < PROBES
        ensures var c := BitIndex(64 * words, key.0, key.1, i);
          IsSet(InsertAll(none, pairs), c) <==> ProbedByAny(64 * words, pairs, c)
      {
        var c := BitIndex(64 * words, key.0, key.1, i);
        InsertAllSetsOnly(none, pairs, c);
        NothingSet(words, c);
      }
    }
  }

  /** A filter has the smallest number of whole words that hold 20 bits an entry. */
  lemma FilterSize(pairs: seq<(nat, nat)>)
    ensures var f := BuildFilter(pairs);
      && f.bitLen == 64 * |f.bits|
      && f.bitLen >= 20 * |pairs| && (pairs == [] <==> f.bitLen == 0)
      && (f.bitLen > 64 ==> f.bitLen - 64 < 20 * |pairs|)
  {
  }

  lemma AddMod(a: nat, b: nat, w: nat)
    requires w > 0
    ensures (a % w + b) % w == (a + b) % w && (a + b % w) % w == (a + b) % w
  {
    var q, r := a / w, b / w;
    assert a == q * w + a % w && b == r * w + b % w;
    SameMod(a % w + b, q, w);
    SameMod(a + b % w, r, w);
    assert a + b == a % w + b + q * w && a + b == a + b % w + r * w;
  }

  lemma SameMod(x: nat, q: nat, w: nat)
    requires w > 0
    ensures (x + q * w) % w == x % w
  {
    assert x + q * w == (x / w + q) * w + x % w;
    DivModUnique(x + q * w, w, x / w + q, x % w);
  }

  /** The bits of a key are enhanced double hashing, wrapped to 64 bits once. */
  lemma BitIndexIs(bitLen: nat, first: nat, second: nat, i: nat)
    requires bitLen > 0
    ensures BitIndex(bitLen, first, second, i) == ((first + i * second + i * i) % 18446744073709551616) % bitLen
  {
    hide BitIndex;
    WrapOnce(first, i * second, i * i);
    Unwrapped(bitLen, first, second, i);
  }

  lemma WrapOnce(x: nat, a: nat, b: nat)
    ensures ((x + a % WORD) % WORD + b % WORD) % WORD == (x + a + b) % WORD
  {
    AddMod(x, a, WORD);
    AddMod(x + a, b, WORD);
    AddMod((x + a) % WORD, b, WORD);
  }

  lemma Unwrapped(bitLen: nat, first: nat, second: nat, i: nat)
    requires bitLen > 0
    ensures BitIndex(bitLen, first, second, i) == (((first + i * second % WORD) % WORD + i * i % WORD) % WORD) % bitLen
  {
  }
}
