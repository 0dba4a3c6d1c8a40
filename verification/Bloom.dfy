/** The Bloom filter of a table (sstable/bloom.go), its bits in bytes. */
module Bloom {
  import opened Prelude
  import opened Keys
  import opened ByteCodec

  /** The two hashes of a key. */
  type Hash = Key -> (Word, Word)

  // ---------- bits of a byte ----------

  predicate HasBit(b: nat, i: nat)
  {
    if i == 0 then b % 2 == 1 else HasBit(b / 2, i - 1)
  }

  /** b | 1 << i. */
  function WithBit(b: nat, i: nat): (r: nat)
    ensures HasBit(r, i)
  {
    if i == 0 then (if b % 2 == 1 then b else b + 1)
    else
      var half := WithBit(b / 2, i - 1);
      assert (2 * half + b % 2) / 2 == half;
      2 * half + b % 2
  }

  lemma {:induction false} OtherBitsStay(b: nat, i: nat, j: nat)
    requires i != j
    ensures HasBit(WithBit(b, i), j) == HasBit(b, j)
  {
    if i > 0 && j > 0 {
      OtherBitsStay(b / 2, i - 1, j - 1);
      assert (2 * WithBit(b / 2, i - 1) + b % 2) / 2 == WithBit(b / 2, i - 1);
    } else if i > 0 {
      assert (2 * WithBit(b / 2, i - 1) + b % 2) % 2 == b % 2;
    } else {
      assert WithBit(b, 0) / 2 == b / 2;
    }
  }

  ghost function Pow2(n: nat): (r: nat)
  {
    if n == 0 then 1 else 2 * Pow2(n - 1)
  }

  lemma {:induction false} WithBitFits(b: nat, i: nat, n: nat)
    requires b < Pow2(n) && i < n
    ensures WithBit(b, i) < Pow2(n)
  {
    if i > 0 {
      WithBitFits(b / 2, i - 1, n - 1);
    }
  }

  function ByteWithBit(b: Byte, i: nat): (r: Byte)
    requires i < 8
  {
    assert Pow2(8) == 256 by {
      assert Pow2(2) == 4;
      assert Pow2(4) == 16;
      assert Pow2(6) == 64;
    }
    WithBitFits(b, i, 8);
    WithBit(b, i)
  }

  // ---------- the filter ----------

  /** The i-th bit of a key, in uint32 arithmetic. */
  function Position(h: (Word, Word), i: nat, m: nat): (r: nat)
    requires m > 0
    ensures r < m
  {
    (h.0 + i * h.1) % TWO32 % m
  }

  predicate BitSet(bits: Bytes, at: nat)
    requires at / 8 < |bits|
  {
    HasBit(bits[at / 8], at % 8)
  }

  function SetBit(bits: Bytes, at: nat): (r: Bytes)
    requires at / 8 < |bits|
    ensures |r| == |bits|
  {
    bits[at / 8 := ByteWithBit(bits[at / 8], at % 8)]
  }

  /** Setting a bit sets it and leaves all others. */
  lemma {:induction false} SetBitIs(bits: Bytes, at: nat, other: nat)
    requires at / 8 < |bits| && other / 8 < |bits|
    ensures BitSet(SetBit(bits, at), other) <==> other == at || BitSet(bits, other)
  {
    hide HasBit;
    hide WithBit;
    if other / 8 == at / 8 && other != at {
      assert other % 8 != at % 8;
      OtherBitsStay(bits[at / 8], at % 8, other % 8);
    }
  }

  /** Double hashing: the places begin at the first hash, each is the second hash further on than the one
      before, in 32 bits, and the filter takes them modulo its number of bits. */
  lemma {:induction false} DoubleHashing(h: (Word, Word), i: nat, m: nat)
    requires m > 0
    ensures Position(h, 0, TWO32) == h.0
    ensures Position(h, i + 1, TWO32) == (Position(h, i, TWO32) + h.1) % TWO32
    ensures Position(h, i, m) == Position(h, i, TWO32) % m
  {
    hide Position;
    var a := h.0 + i * h.1;
    Place(h, 0, TWO32, h.0);
    Place(h, i, TWO32, a);
    Place(h, i, m, a);
    OneMore(i, h.1);
    Place(h, i + 1, TWO32, a + h.1);
    ModStep(a, h.1);
    ModTwice(h.0);
    ModTwice(a);
    ModTwice(a + h.1);
  }

  lemma {:induction false} Place(h: (Word, Word), i: nat, m: nat, a: nat)
    requires m > 0 && a == h.0 + i * h.1
    ensures Position(h, i, m) == a % TWO32 % m
  {
  }

  lemma {:induction false} OneMore(i: nat, c: nat)
    ensures (i + 1) * c == i * c + c
  {
  }

  lemma {:induction false} ModTwice(a: nat)
    ensures a % TWO32 % TWO32 == a % TWO32 && (a < TWO32 ==> a % TWO32 == a)
  {
  }

  lemma {:induction false} ModStep(a: nat, b: nat)
    ensures (a + b) % TWO32 == (a % TWO32 + b) % TWO32
  {
    var q := a / TWO32;
    assert a == q * TWO32 + a % TWO32;
    ModShift(a % TWO32 + b, q);
  }

  lemma {:induction false} ModShift(x: nat, q: nat)
    ensures (x + q * TWO32) % TWO32 == x % TWO32
  {
    if q > 0 {
      ModShift(x, q - 1);
      assert x + q * TWO32 == (x + (q - 1) * TWO32) + TWO32;
    }
  }

  /** All bits of the key are set. */
  ghost predicate Has(bits: Bytes, m: nat, k: nat, h: (Word, Word))
    requires m > 0 && m <= 8 * |bits|
  {
    forall i: nat :: i < k ==> BitSet(bits, Position(h, i, m))
  }

  /** No bit of `a` is cleared in `b`. */
  ghost predicate Within(a: Bytes, b: Bytes)
  {
    |a| == |b| && forall at: nat :: at / 8 < |a| && BitSet(a, at) ==> BitSet(b, at)
  }

  function Clamp(x: int, lo: int, hi: int): (r: int)
  {
    if x < lo then lo else if x > hi then hi else x
  }

  datatype Encoding = Encoding(m: nat, k: nat, bits: Bytes)

  class BloomFilter {
    var bits: Bytes
    const m: nat
    const k: nat
    const hash: Hash

    /** There are bits, and every position is one of them. */
    ghost predicate Usable()
      reads this
    {
      0 < m <= 8 * |bits|
    }

    /** NewBloomFilter, for numbers of bits that 32 bits can count with their rounding up. */
    constructor (numKeys: nat, bitsPerKey: nat, hash: Hash)
      requires Max(numKeys, 1) * (if bitsPerKey == 0 then 10 else bitsPerKey) < TWO32 - 7
      ensures Usable() && this.hash == hash && |bits| == (m + 7) / 8 && (forall i :: 0 <= i < |bits| ==> bits[i] == 0)
      ensures m == Max(Max(numKeys, 1) * (if bitsPerKey == 0 then 10 else bitsPerKey), 8)
      ensures k == Clamp(((if bitsPerKey == 0 then 10 else bitsPerKey) as real * 0.693).Floor, 1, 30)
    {
      var perKey := if bitsPerKey == 0 then 10 else bitsPerKey;
      var wanted := Max(numKeys, 1) * perKey;
      m := Max(wanted, 8);
      k := Clamp((perKey as real * 0.693).Floor, 1, 30);
      this.hash := hash;
      bits := seq((Max(wanted, 8) + 7) / 8, i => 0);
    }

    /** DecodeBloomFilter's result. */
    constructor Decoded(e: Encoding, hash: Hash)
      ensures m == e.m && k == e.k && bits == e.bits && this.hash == hash
    {
      m, k, bits, this.hash := e.m, e.k, e.bits, hash;
    }

    /** Add: the key is in, and no other goes out. */
    method Add(key: Key)
      requires Usable()
      modifies `bits
      ensures Usable() && Has(bits, m, k, hash(key)) && Within(old(bits), bits) && |bits| == |old(bits)|
    {
      hide BitSet;
      hide Position;
      var h := hash(key);
      for i := 0 to k
        invariant Usable() && Within(old(bits), bits)
        invariant forall j: nat :: j < i ==> BitSet(bits, Position(h, j, m))
      {
        var bit := Position(h, i, m);
        forall other: nat | other / 8 < |bits|
          ensures BitSet(SetBit(bits, bit), other) <==> other == bit || BitSet(bits, other)
        {
          SetBitIs(bits, bit, other);
        }
        bits := SetBit(bits, bit);
      }
    }

    method MayContain(key: Key) returns (r: bool)
      requires Usable()
      ensures r <==> Has(bits, m, k, hash(key))
    {
      hide BitSet;
      hide Position;
      var h := hash(key);
      for i := 0 to k
        invariant forall j: nat :: j < i ==> BitSet(bits, Position(h, j, m))
      {
        if !BitSet(bits, Position(h, i, m)) {
          return false;
        }
      }
      return true;
    }
  }

  lemma {:induction false} HasStays(a: Bytes, b: Bytes, m: nat, k: nat, h: (Word, Word))
    requires 0 < m <= 8 * |a| && Within(a, b) && Has(a, m, k, h)
    ensures Has(b, m, k, h)
  {
    hide BitSet;
    hide Position;
  }

  /** The filter of a table: made from all its keys, it has them all. */
  method FilterOf(keys: seq<Key>, hash: Hash) returns (f: BloomFilter)
    requires |keys| * 10 < TWO32 - 17
    ensures fresh(f) && f.Usable() && f.hash == hash && f.m == Max(10 * Max(|keys|, 1), 8)
    ensures |f.bits| == (f.m + 7) / 8 && f.k <= 30
    ensures forall i :: 0 <= i < |keys| ==> Has(f.bits, f.m, f.k, hash(keys[i]))
  {
    hide Has;
    hide Within;
    f := new BloomFilter(|keys|, 10, hash);
    for i := 0 to |keys|
      invariant f.Usable() && fresh(f) && f.hash == hash && f.m == Max(10 * Max(|keys|, 1), 8)
      invariant |f.bits| == (f.m + 7) / 8 && f.k <= 30
      invariant forall j :: 0 <= j < i ==> Has(f.bits, f.m, f.k, hash(keys[j]))
    {
      ghost var was := f.bits;
      f.Add(keys[i]);
      forall j | 0 <= j < i
        ensures Has(f.bits, f.m, f.k, hash(keys[j]))
      {
        HasStays(was, f.bits, f.m, f.k, hash(keys[j]));
      }
    }
  }

  // ---------- as bytes ----------

  function Encode(e: Encoding): (r: Bytes)
    ensures |r| == 8 + |e.bits|
  {
    U32(e.m) + U32(e.k) + e.bits
  }

  /** DecodeBloomFilter. */
  function Decode(data: Bytes): (r: Option<Encoding>)
    ensures r.Some? ==> |r.value.bits| == (r.value.m + 7) % TWO32 / 8
  {
    if |data| < 8 then None
    else
      var m := FromU32(data[..4]);
      var numBytes := (m + 7) % TWO32 / 8;
      if |data| - 8 < numBytes then None
      else Some(Encoding(m, FromU32(data[4..8]), data[8..8 + numBytes]))
  }

  lemma {:induction false} DecodeEncode(e: Encoding)
    requires e.m < TWO32 - 7 && e.k < TWO32 && |e.bits| == (e.m + 7) / 8
    ensures Decode(Encode(e)) == Some(e)
  {
    hide U32;
    hide FromU32;
    var d := Encode(e);
    assert d[..4] == U32(e.m) && d[4..8] == U32(e.k);
    U32Back(e.m);
    U32Back(e.k);
    assert d[8..8 + |e.bits|] == e.bits;
  }
}
