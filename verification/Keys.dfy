/** Keys are byte strings in the order of bytes.Compare. `Rank` embeds that order in the reals,
    so that order reasoning is arithmetic. */
module Keys {
  import opened Prelude

  type Key = Bytes

  /** bytes.Compare from position i on, for strings that agree before i. */
  function CompareFrom(a: Key, b: Key, i: nat): (r: int)
    requires i <= |a| && i <= |b|
    decreases |a| - i
  {
    if i == |a| then (if i == |b| then 0 else -1)
    else if i == |b| then 1
    else if a[i] < b[i] then -1
    else if a[i] > b[i] then 1
    else CompareFrom(a, b, i + 1)
  }

  /** The key as a fraction in base 257, digits one more than the bytes. */
  ghost function RankFrom(k: Key, i: nat): (r: real)
    requires i <= |k|
    ensures 0.0 <= r < 1.0
    ensures i < |k| ==> r > 0.0
    decreases |k| - i
  {
    if i == |k| then 0.0 else (k[i] as real + 1.0 + RankFrom(k, i + 1)) / 257.0
  }

  ghost function Rank(k: Key): (r: real)
  {
    RankFrom(k, 0)
  }

  lemma {:induction false} CompareIsRankFrom(a: Key, b: Key, i: nat)
    requires i <= |a| && i <= |b|
    ensures CompareFrom(a, b, i) < 0 <==> RankFrom(a, i) < RankFrom(b, i)
    ensures CompareFrom(a, b, i) > 0 <==> RankFrom(a, i) > RankFrom(b, i)
    ensures CompareFrom(a, b, i) == 0 <==> a[i..] == b[i..]
    decreases |a| - i
  {
    if i < |a| && i < |b| && a[i] == b[i] {
      CompareIsRankFrom(a, b, i + 1);
      assert a[i..] == [a[i]] + a[i + 1..];
      assert b[i..] == [b[i]] + b[i + 1..];
    } else if i < |a| && i < |b| {
      assert a[i..][0] != b[i..][0];
    }
  }

  /** bytes.Compare. */
  function Compare(a: Key, b: Key): (r: int)
    ensures r < 0 <==> Rank(a) < Rank(b)
    ensures r > 0 <==> Rank(a) > Rank(b)
    ensures r == 0 <==> a == b
  {
    CompareIsRankFrom(a, b, 0);
    CompareFrom(a, b, 0)
  }

  lemma {:induction false} SameRank(a: Key, b: Key)
    requires Rank(a) == Rank(b)
    ensures a == b
  {
    assert Compare(a, b) == 0;
  }
}
