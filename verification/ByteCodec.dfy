/** Fixed-width little-endian numbers, as encoding/binary writes and reads them. */
module ByteCodec {
  import opened Prelude

  const TWO32: nat := 0x1_0000_0000
  const TWO64: nat := 0x1_0000_0000_0000_0000

  type Word = x: int | 0 <= x < TWO32

  /** crc32.ChecksumIEEE is some function of the bytes. */
  type Checksum = Bytes -> Word

  /** The bytes of a value, none for nil. */
  function ValueBytes(v: Option<Bytes>): (r: Bytes)
  {
    if v.Some? then v.value else []
  }

  function Pow256(n: nat): (r: nat)
    ensures r > 0
  {
    if n == 0 then 1 else 256 * Pow256(n - 1)
  }

  /** The low n bytes of x, lowest first. */
  function PutLE(x: nat, n: nat): (r: Bytes)
    ensures |r| == n
  {
    if n == 0 then [] else [x % 256] + PutLE(x / 256, n - 1)
  }

  function GetLE(b: Bytes): (r: nat)
    ensures r < Pow256(|b|)
  {
    if b == [] then 0 else b[0] + 256 * GetLE(b[1..])
  }

  lemma {:induction false} GetPut(x: nat, n: nat)
    requires x < Pow256(n)
    ensures GetLE(PutLE(x, n)) == x
  {
    if n > 0 {
      assert x / 256 < Pow256(n - 1);
      GetPut(x / 256, n - 1);
      assert PutLE(x, n)[1..] == PutLE(x / 256, n - 1);
    }
  }

  lemma {:induction false} PutGet(b: Bytes)
    ensures PutLE(GetLE(b), |b|) == b
  {
    if b != [] {
      PutGet(b[1..]);
      assert GetLE(b) % 256 == b[0] && GetLE(b) / 256 == GetLE(b[1..]);
    }
  }

  lemma {:induction false} Powers()
    ensures Pow256(4) == TWO32 && Pow256(8) == TWO64
  {
    assert Pow256(2) == 0x1_0000;
    assert Pow256(4) == 0x1_0000_0000;
    assert Pow256(6) == 0x1_0000_0000_0000;
  }

  /** PutUint32 of a Go int converted to uint32: what does not fit is cut off. */
  function U32(x: nat): (r: Bytes)
    ensures |r| == 4
  {
    PutLE(x, 4)
  }

  function U64(x: nat): (r: Bytes)
    ensures |r| == 8
  {
    PutLE(x, 8)
  }

  function FromU32(b: Bytes): (r: Word)
    requires |b| == 4
  {
    Powers();
    GetLE(b)
  }

  function FromU64(b: Bytes): (r: nat)
    requires |b| == 8
    ensures r < TWO64
  {
    Powers();
    GetLE(b)
  }

  lemma {:induction false} U32Back(x: nat)
    requires x < TWO32
    ensures FromU32(U32(x)) == x
  {
    Powers();
    GetPut(x, 4);
  }

  lemma {:induction false} U64Back(x: nat)
    requires x < TWO64
    ensures FromU64(U64(x)) == x
  {
    Powers();
    GetPut(x, 8);
  }

  lemma {:induction false} U32Bytes(b: Bytes)
    requires |b| == 4
    ensures U32(FromU32(b)) == b
  {
    PutGet(b);
  }

  lemma {:induction false} U64Bytes(b: Bytes)
    requires |b| == 8
    ensures U64(FromU64(b)) == b
  {
    PutGet(b);
  }
}
