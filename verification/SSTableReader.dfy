/** Reading a table (sstable/reader.go, sstable/iterator.go): opening, the lookup by filter, binary
    search and scan, and the iterator across blocks. */
module SSTableReader {
  import opened Prelude
  import opened Keys
  import opened ByteCodec
  import opened SSTableFormat
  import opened SSTableWriter
  import Bloom
  import S = SkipLists

  // ---------- where the entries of a block are ----------

  ghost function Start(bs: seq<Items>, i: nat): (r: nat)
    requires i <= |bs|
  {
    |Flatten(bs[..i])|
  }

  lemma {:induction false} StartStep(bs: seq<Items>, i: nat)
    requires i < |bs|
    ensures Start(bs, i + 1) == Start(bs, i) + |bs[i]|
    ensures Flatten(bs[..i + 1]) == Flatten(bs[..i]) + bs[i]
  {
    assert bs[..i + 1][..i] == bs[..i];
  }

  lemma {:induction false} FlattenPrefix(bs: seq<Items>, i: nat)
    requires i <= |bs|
    ensures Flatten(bs[..i]) <= Flatten(bs)
    decreases |bs| - i
  {
    hide Flatten;
    if i == |bs| {
      assert bs[..i] == bs;
    } else {
      FlattenPrefix(bs, i + 1);
      StartStep(bs, i);
    }
  }

  lemma {:induction false} FlattenAt(bs: seq<Items>, i: nat)
    requires i < |bs|
    ensures Start(bs, i) + |bs[i]| <= |Flatten(bs)|
    ensures Flatten(bs)[Start(bs, i)..Start(bs, i) + |bs[i]|] == bs[i]
  {
    hide Flatten;
    FlattenPrefix(bs, i + 1);
    StartStep(bs, i);
  }

  lemma {:induction false} StartsGrow(bs: seq<Items>, i: nat, j: nat)
    requires i < j <= |bs|
    ensures Start(bs, i) + |bs[i]| <= Start(bs, j)
    decreases j - i
  {
    hide Flatten;
    StartStep(bs, j - 1);
    if i < j - 1 {
      StartsGrow(bs, i, j - 1);
    }
  }

  /** Not empty, and in order across all blocks. */
  ghost predicate Ordered(bs: seq<Items>)
  {
    Full(bs) && S.InOrder(Flatten(bs))
  }

  lemma {:induction false} BlockInOrder(bs: seq<Items>, i: nat)
    requires Ordered(bs) && i < |bs|
    ensures S.InOrder(bs[i])
  {
    hide Rank;
    hide Flatten;
    FlattenAt(bs, i);
    var f, s := Flatten(bs), Start(bs, i);
    forall x, y | 0 <= x < y < |bs[i]|
      ensures Rank(bs[i][x].key) < Rank(bs[i][y].key)
    {
      assert bs[i][x] == f[s..s + |bs[i]|][x] == f[s + x];
      assert bs[i][y] == f[s..s + |bs[i]|][y] == f[s + y];
    }
  }

  lemma {:induction false} LastKeysGrow(bs: seq<Items>, i: nat, j: nat)
    requires Ordered(bs) && i < j < |bs|
    ensures Rank(LastKey(bs[i])) < Rank(LastKey(bs[j]))
  {
    hide Rank;
    hide Flatten;
    FlattenAt(bs, i);
    FlattenAt(bs, j);
    StartsGrow(bs, i, j);
    var f := Flatten(bs);
    assert LastKey(bs[i]) == f[Start(bs, i) + |bs[i]| - 1].key by {
      assert bs[i][|bs[i]| - 1] == f[Start(bs, i)..Start(bs, i) + |bs[i]|][|bs[i]| - 1];
    }
    assert LastKey(bs[j]) == f[Start(bs, j) + |bs[j]| - 1].key by {
      assert bs[j][|bs[j]| - 1] == f[Start(bs, j)..Start(bs, j) + |bs[j]|][|bs[j]| - 1];
    }
  }

  /** The first block whose last key is not below the target. */
  ghost predicate FirstReaching(bs: seq<Items>, key: Key, b: nat)
  {
    && b <= |bs|
    && (forall i :: 0 <= i < b ==> Rank(LastKey(bs[i])) < Rank(key))
    && (b < |bs| ==> Rank(LastKey(bs[b])) >= Rank(key))
  }

  /** The first entry that is not below the target is the first such one of that block. */
  lemma {:induction false} PlaceInBlock(bs: seq<Items>, key: Key, b: nat)
    requires Ordered(bs) && FirstReaching(bs, key, b)
    ensures b == |bs| ==> S.Place(Flatten(bs), key) == |Flatten(bs)|
    ensures b < |bs| ==>
              S.Place(bs[b], key) < |bs[b]| && S.Place(Flatten(bs), key) == Start(bs, b) + S.Place(bs[b], key)
  {
    hide Rank;
    hide S.Place;
    if b < |bs| {
      FirstInBlock(bs, key, b);
    } else {
      assert bs[..b] == bs;
      EndsBelow(bs, key, b);
      S.PlaceIs(Flatten(bs), key, |Flatten(bs)|);
    }
  }

  /** The entry just before a block is below the target when that block is the first to reach it. */
  lemma {:induction false} EndsBelow(bs: seq<Items>, key: Key, b: nat)
    requires Full(bs) && FirstReaching(bs, key, b)
    ensures Start(bs, b) > 0 ==> b > 0 && Rank(Flatten(bs[..b])[Start(bs, b) - 1].key) < Rank(key)
  {
    hide Rank;
    if b > 0 {
      StartStep(bs, b - 1);
      assert Flatten(bs[..b])[Start(bs, b) - 1] == bs[b - 1][|bs[b - 1]| - 1];
    }
  }

  lemma {:induction false} PlaceReached(es: Items, key: Key)
    requires es != [] && Rank(LastKey(es)) >= Rank(key)
    ensures S.Place(es, key) < |es|
  {
    hide Rank;
  }

  lemma {:induction false} PlaceInStretch(f: Items, s: nat, es: Items, key: Key)
    requires S.InOrder(f) && s + |es| <= |f| && f[s..s + |es|] == es && S.Place(es, key) < |es|
    requires s > 0 ==> Rank(f[s - 1].key) < Rank(key)
    ensures S.Place(f, key) == s + S.Place(es, key)
  {
    hide Rank;
    var p := S.Place(es, key);
    assert f[s + p] == es[p];
    assert p > 0 ==> f[s + p - 1] == es[p - 1];
    S.PlaceIs(f, key, s + p);
  }

  lemma {:induction false} FirstInBlock(bs: seq<Items>, key: Key, b: nat)
    requires Ordered(bs) && FirstReaching(bs, key, b) && b < |bs|
    ensures S.Place(bs[b], key) < |bs[b]| && S.Place(Flatten(bs), key) == Start(bs, b) + S.Place(bs[b], key)
  {
    hide Rank;
    hide Flatten;
    hide S.Place;
    hide S.InOrder;
    PlaceReached(bs[b], key);
    FlattenAt(bs, b);
    FlattenPrefix(bs, b);
    EndsBelow(bs, key, b);
    PlaceInStretch(Flatten(bs), Start(bs, b), bs[b], key);
  }

  // ---------- parsing loops ----------

  ghost function Onto<T>(a: seq<T>, rest: Option<seq<T>>): (r: Option<seq<T>>)
  {
    if rest.None? then None else Some(a + rest.value)
  }

  lemma {:induction false} OntoNothing<T>(rest: Option<seq<T>>)
    ensures Onto([], rest) == rest
  {
    if rest.Some? {
      assert [] + rest.value == rest.value;
    }
  }

  lemma {:induction false} OntoOne<T>(a: seq<T>, x: T, rest: Option<seq<T>>)
    ensures Onto(a, Onto([x], rest)) == Onto(a + [x], rest)
  {
    if rest.Some? {
      assert a + ([x] + rest.value) == a + [x] + rest.value;
    }
  }

  /** decodeBlock's loop. */
  method ReadEntries(data: Bytes, n: nat) returns (cells: Option<seq<Cell>>)
    ensures cells == DecodeEntries(data, n)
  {
    hide DecodeEntry;
    var entries: seq<Cell> := [];
    var pos := 0;
    assert data[0..] == data;
    OntoNothing(DecodeEntries(data, n));
    for i := 0 to n
      invariant 0 <= pos <= |data|
      invariant DecodeEntries(data, n) == Onto(entries, DecodeEntries(data[pos..], n - i))
    {
      var first := DecodeEntry(data[pos..]);
      if first.None? {
        return None;
      }
      assert data[pos..][first.value.1..] == data[pos + first.value.1..];
      OntoOne(entries, first.value.0, DecodeEntries(data[pos + first.value.1..], n - i - 1));
      entries, pos := entries + [first.value.0], pos + first.value.1;
    }
    assert entries + [] == entries;
    return Some(entries);
  }

  method ReadBlock(file: Bytes, offset: nat, size: nat, crc: Checksum) returns (cells: Option<seq<Cell>>)
    ensures cells == DecodeBlock(file, offset, size, crc)
  {
    hide FromU32;
    hide DecodeEntries;
    if offset + size > |file| {
      return None;
    }
    var block := file[offset..offset + size];
    if |block| < 8 {
      return None;
    }
    var trailer := |block| - 8;
    var numEntries := FromU32(block[trailer..trailer + 4]);
    var storedCRC := FromU32(block[trailer + 4..]);
    if crc(block[..trailer]) != storedCRC {
      return None;
    }
    cells := ReadEntries(block[..trailer], numEntries);
  }

  /** parseIndex's loop. */
  method ReadIndex(data: Bytes, n: nat) returns (index: Option<seq<IndexEntry>>)
    ensures index == DecodeIndex(data, n)
  {
    hide DecodeIndexEntry;
    var entries: seq<IndexEntry> := [];
    var pos := 0;
    assert data[0..] == data;
    OntoNothing(DecodeIndex(data, n));
    for i := 0 to n
      invariant 0 <= pos <= |data|
      invariant DecodeIndex(data, n) == Onto(entries, DecodeIndex(data[pos..], n - i))
    {
      var first := DecodeIndexEntry(data[pos..]);
      if first.None? {
        return None;
      }
      assert data[pos..][first.value.1..] == data[pos + first.value.1..];
      OntoOne(entries, first.value.0, DecodeIndex(data[pos + first.value.1..], n - i - 1));
      entries, pos := entries + [first.value.0], pos + first.value.1;
    }
    assert entries + [] == entries;
    return Some(entries);
  }

  // ---------- lookups ----------

  /** The sorted entries as a map, by the first entry that is not below the key. */
  lemma {:induction false} KeyAt(s: Items, key: Key)
    requires S.InOrder(s)
    ensures var p := S.Place(s, key);
            && (key in S.AsMap(s) <==> p < |s| && s[p].key == key)
            && (key in S.AsMap(s) ==> S.AsMap(s)[key] == s[p].value)
  {
    hide Rank;
    hide S.AsMap;
    S.MapOf(s, key);
    var p := S.Place(s, key);
    if key in S.AsMap(s) {
      var i :| 0 <= i < |s| && s[i].key == key;
      S.PlaceIs(s, key, i);
    }
  }

  /** The key is in the table exactly if it is in the block the search ends at. */
  lemma {:induction false} BlockDecides(bs: seq<Items>, key: Key, b: nat)
    requires Ordered(bs) && FirstReaching(bs, key, b)
    ensures b == |bs| ==> key !in S.AsMap(Flatten(bs))
    ensures b < |bs| ==>
              && S.InOrder(bs[b])
              && (key in S.AsMap(Flatten(bs)) <==> key in S.AsMap(bs[b]))
              && (key in S.AsMap(bs[b]) ==> S.AsMap(Flatten(bs))[key] == S.AsMap(bs[b])[key])
  {
    hide Rank;
    hide S.AsMap;
    hide S.Place;
    hide Flatten;
    PlaceInBlock(bs, key, b);
    KeyAt(Flatten(bs), key);
    if b < |bs| {
      BlockInOrder(bs, b);
      KeyAt(bs[b], key);
      FlattenAt(bs, b);
      var f, s, p := Flatten(bs), Start(bs, b), S.Place(bs[b], key);
      assert f[s + p] == f[s..s + |bs[b]|][p];
    }
  }

  class Reader {
    const file: Bytes
    const crc: Checksum
    const index: seq<IndexEntry>
    const bloom: Bloom.BloomFilter
    const minKey: Option<Key>
    const maxKey: Option<Key>

    constructor (file: Bytes, crc: Checksum, index: seq<IndexEntry>, bloom: Bloom.BloomFilter, minKey: Option<Key>,
                 maxKey: Option<Key>)
      ensures this.file == file && this.crc == crc && this.index == index && this.bloom == bloom
      ensures this.minKey == minKey && this.maxKey == maxKey
    {
      this.file, this.crc, this.index, this.bloom, this.minKey, this.maxKey := file, crc, index, bloom, minKey, maxKey;
    }

    /** The reader has a file of these blocks. */
    ghost predicate For(bs: seq<Items>)
      reads bloom
    {
      && Ordered(bs) && |index| == |bs|
      && (forall i :: 0 <= i < |bs| ==>
            && index[i].lastKey == LastKey(bs[i])
            && DecodeBlock(file, index[i].offset, index[i].size, crc) == Some(AllStored(bs[i])))
      && bloom.Usable()
      && forall i :: 0 <= i < |Flatten(bs)| ==> Bloom.Has(bloom.bits, bloom.m, bloom.k, bloom.hash(Flatten(bs)[i].key))
    }

    /** Binary search for the first block whose last key is not below the target. */
    method FindBlock(key: Key, ghost bs: seq<Items>) returns (b: Option<nat>)
      requires For(bs)
      ensures FirstReaching(bs, key, if b.None? then |bs| else b.value)
      ensures b.Some? ==> b.value < |bs|
    {
      hide Rank;
      hide Ordered;
      hide DecodeBlock;
      hide Bloom.Has;
      b := None;
      var lo, hi := 0, |index| - 1;
      while lo <= hi
        invariant 0 <= lo <= hi + 1 <= |index|
        invariant b == if hi + 1 == |index| then None else Some(hi + 1)
        invariant forall i :: 0 <= i < lo ==> Rank(LastKey(bs[i])) < Rank(key)
        invariant hi + 1 < |index| ==> Rank(LastKey(bs[hi + 1])) >= Rank(key)
        decreases hi - lo
      {
        var mid := lo + (hi - lo) / 2;
        if Compare(index[mid].lastKey, key) >= 0 {
          b, hi := Some(mid), mid - 1;
        } else {
          forall i | 0 <= i < mid
            ensures Rank(LastKey(bs[i])) < Rank(key)
          {
            LastKeysGrow(bs, i, mid);
          }
          lo := mid + 1;
        }
      }
    }

    /** Get: filter, binary search, scan. It is the lookup among all entries, but that an empty value
        is found with no value. */
    method Get(key: Key, ghost bs: seq<Items>) returns (value: Option<Bytes>, found: bool, err: bool)
      requires For(bs)
      ensures !err && (found <==> key in S.AsMap(Flatten(bs)))
      ensures found ==>
                var v := S.AsMap(Flatten(bs))[key];
                if v == Some([]) then value.None? else value == v
    {
      hide Rank;
      hide Ordered;
      hide DecodeBlock;
      hide Bloom.Has;
      hide S.AsMap;
      hide Flatten;
      hide FirstReaching;
      value, found, err := None, false, false;
      if |index| == 0 {
        NothingIn(bs, key);
        return;
      }
      var may := bloom.MayContain(key);
      if !may {
        NotInFilter(bs, key);
        return;
      }
      var b := FindBlock(key, bs);
      BlockDecides(bs, key, if b.None? then |bs| else b.value);
      if b.None? {
        return;
      }
      var cells := ReadBlock(file, index[b.value].offset, index[b.value].size, crc);
      if cells.None? {
        err := true;
        return;
      }
      value, found := ScanFor(cells.value, key, bs[b.value]);
    }

    lemma {:induction false} NotInFilter(bs: seq<Items>, key: Key)
      requires For(bs) && !Bloom.Has(bloom.bits, bloom.m, bloom.k, bloom.hash(key))
      ensures key !in S.AsMap(Flatten(bs))
    {
      hide Rank;
      hide DecodeBlock;
      hide Bloom.Has;
      hide S.AsMap;
      S.MapOf(Flatten(bs), key);
    }
  }

  lemma {:induction false} NothingIn(bs: seq<Items>, key: Key)
    requires bs == []
    ensures key !in S.AsMap(Flatten(bs))
  {
  }

  /** The scan of one block. */
  method ScanFor(cells: seq<Cell>, key: Key, ghost es: Items) returns (value: Option<Bytes>, found: bool)
    requires S.InOrder(es) && cells == AllStored(es)
    ensures found <==> key in S.AsMap(es)
    ensures found ==> value == Stored(S.Item(key, S.AsMap(es)[key])).value
  {
    hide Rank;
    hide S.AsMap;
    S.MapOf(es, key);
    for i := 0 to |cells|
      invariant forall j :: 0 <= j < i ==> es[j].key != key
    {
      if cells[i].key == key {
        assert es[i].key == key;
        return if cells[i].tombstone then None else cells[i].value, true;
      }
    }
    return None, false;
  }

  // ---------- opening ----------

  /** OpenReader on any bytes: parses or refuses as the format says. */
  method OpenReader(file: Bytes, crc: Checksum, hash: Bloom.Hash) returns (r: Option<Reader>)
    ensures r.None? <==> Open(file, crc).None?
    ensures r.Some? ==>
              var o := Open(file, crc).value;
              && r.value.file == file && r.value.crc == crc && r.value.index == o.index
              && r.value.bloom.bits == o.bloom.bits && r.value.bloom.m == o.bloom.m && r.value.bloom.k == o.bloom.k
              && r.value.bloom.hash == hash && fresh(r.value.bloom)
              && r.value.minKey == FirstKey(file, o.index, crc)
              && r.value.maxKey == if o.index == [] then None else Some(o.index[|o.index| - 1].lastKey)
  {
    hide DecodeIndex;
    hide ParseFooter;
    hide ParseFilter;
    hide DecodeBlock;
    if |file| < FOOTER_SIZE {
      return None;
    }
    var f := ParseFooter(file[|file| - FOOTER_SIZE..], crc);
    if f.None? || f.value.indexOffset + f.value.indexSize > |file| {
      return None;
    }
    var block := file[f.value.indexOffset..f.value.indexOffset + f.value.indexSize];
    if |block| < 8 {
      return None;
    }
    var trailer := |block| - 8;
    if crc(block[..trailer]) != FromU32(block[trailer + 4..]) {
      return None;
    }
    var index := ReadIndex(block[..trailer], FromU32(block[trailer..trailer + 4]));
    if index.None? || f.value.bloomOffset + f.value.bloomSize > |file| {
      return None;
    }
    var bloom := ParseFilter(file[f.value.bloomOffset..f.value.bloomOffset + f.value.bloomSize], crc);
    if bloom.None? {
      return None;
    }
    var filter := new Bloom.BloomFilter.Decoded(bloom.value, hash);
    var minKey, maxKey := None, None;
    if |index.value| > 0 {
      var cells := ReadBlock(file, index.value[0].offset, index.value[0].size, crc);
      if cells.Some? && |cells.value| > 0 {
        minKey := Some(cells.value[0].key);
      }
      maxKey := Some(index.value[|index.value| - 1].lastKey);
    }
    var reader := new Reader(file, crc, index.value, filter, minKey, maxKey);
    return Some(reader);
  }

  function FirstKey(file: Bytes, index: seq<IndexEntry>, crc: Checksum): (r: Option<Key>)
  {
    if index == [] then None
    else
      var cells := DecodeBlock(file, index[0].offset, index[0].size, crc);
      if cells.None? || cells.value == [] then None else Some(cells.value[0].key)
  }
}
