/** A table written and opened again: what a flush or a compaction output becomes for its readers. */
module SSTables {
  import opened Prelude
  import opened Keys
  import opened ByteCodec
  import opened SSTableFormat
  import opened SSTableWriter
  import opened SSTableReader
  import Bloom
  import T = Tables
  import S = SkipLists

  /** Entries that take less than a gibibyte; then every number of the format fits its width. */
  ghost predicate Moderate(es: Items)
  {
    |EncodeEntries(es)| < 0x4000_0000
  }

  lemma {:induction false} EntriesAppend(a: Items, b: Items)
    ensures EncodeEntries(a + b) == EncodeEntries(a) + EncodeEntries(b)
  {
    hide EncodeEntry;
    if b == [] {
      assert a + b == a;
    } else {
      assert (a + b)[..|a + b| - 1] == a + b[..|b| - 1];
      EntriesAppend(a, b[..|b| - 1]);
    }
  }

  /** Every entry takes nine bytes and its key and value. */
  lemma {:induction false} EntriesSize(es: Items)
    ensures |EncodeEntries(es)| >= 9 * |es|
    ensures forall i :: 0 <= i < |es| ==> |es[i].key| + |ValueBytes(es[i].value)| + 9 <= |EncodeEntries(es)|
  {
    hide EncodeEntry;
    if es != [] {
      EntriesSize(es[..|es| - 1]);
    }
  }

  lemma {:induction false} IndexAppend(a: seq<IndexEntry>, ie: IndexEntry)
    ensures |EncodeIndex(a + [ie])| == |EncodeIndex(a)| + 16 + |ie.lastKey|
  {
    IndexSnoc(a, ie);
  }

  /** Blocks and index take a small multiple of the entries. */
  lemma {:induction false} SizesBounded(bs: seq<Items>, crc: Checksum)
    requires Full(bs)
    ensures var e := |EncodeEntries(Flatten(bs))|;
            |bs| <= e && |Blocks(bs, crc)| <= 2 * e && |EncodeIndex(IndexOf(bs, crc))| <= 3 * e
  {
    hide EncodeEntry;
    hide EncodeEntries;
    NoEntries();
    if bs == [] {
      assert Flatten(bs) == [];
      NoIndex();
    } else {
      var n := |bs| - 1;
      SizesBounded(bs[..n], crc);
      EntriesAppend(Flatten(bs[..n]), bs[n]);
      EntriesSize(bs[n]);
      var ie := IndexEntry(LastKey(bs[n]), |Blocks(bs[..n], crc)|, |Block(bs[n], crc)|);
      IndexAppend(IndexOf(bs[..n], crc), ie);
    }
  }

  lemma {:induction false} BlockBounded(bs: seq<Items>, i: nat)
    requires i < |bs|
    ensures |EncodeEntries(bs[i])| <= |EncodeEntries(Flatten(bs))|
  {
    hide EncodeEntry;
    hide EncodeEntries;
    var n := |bs| - 1;
    EntriesAppend(Flatten(bs[..n]), bs[n]);
    if i < n {
      BlockBounded(bs[..n], i);
    }
  }

  lemma {:induction false} BlocksFit(bs: seq<Items>)
    requires Moderate(Flatten(bs))
    ensures forall i :: 0 <= i < |bs| ==> BlockFits(bs[i])
  {
    hide EncodeEntry;
    hide EncodeEntries;
    hide Flatten;
    forall i | 0 <= i < |bs|
      ensures BlockFits(bs[i])
    {
      BlockBounded(bs, i);
      EntriesSize(bs[i]);
    }
  }

  lemma {:induction false} ModerateFits(bs: seq<Items>, bloom: Bloom.Encoding, crc: Checksum)
    requires Full(bs) && Moderate(Flatten(bs)) && FilterFits(bloom) && |bloom.bits| <= 2 * |Flatten(bs)| + 8
    ensures TableFits(bs, bloom, crc)
  {
    hide EncodeEntry;
    hide EncodeEntries;
    hide Flatten;
    hide Blocks;
    hide IndexOf;
    hide EncodeIndex;
    hide BlockFits;
    hide FilterFits;
    SizesBounded(bs, crc);
    BlocksFit(bs);
    EntriesSize(Flatten(bs));
  }

  method AddAll(es: Items, blockSize: int, crc: Checksum, hash: Bloom.Hash) returns (w: Writer)
    ensures fresh(w) && w.Valid() && w.crc == crc && w.hash == hash && w.Added() == es
  {
    hide EncodeEntry;
    hide EncodeEntries;
    hide Flatten;
    hide Blocks;
    hide IndexOf;
    hide Full;
    hide KeysOf;
    hide LastKey;
    w := new Writer(blockSize, crc, hash);
    for i := 0 to |es|
      invariant fresh(w) && w.Valid() && w.crc == crc && w.hash == hash && w.Added() == es[..i]
    {
      w.Add(es[i]);
    }
    assert es[..|es|] == es;
  }

  /** The bytes are the finished file of these entries, in blocks `bs`, with a filter that has every key. */
  ghost predicate IsFile(file: Bytes, es: Items, bs: seq<Items>, bloom: Bloom.Encoding, crc: Checksum, hash: Bloom.Hash)
  {
    && file == FileOf(bs, bloom, crc) && Flatten(bs) == es && Full(bs) && S.InOrder(es)
    && FilterFits(bloom) && TableFits(bs, bloom, crc)
    && forall i :: 0 <= i < |es| ==> Bloom.Has(bloom.bits, bloom.m, bloom.k, hash(es[i].key))
  }

  ghost predicate FileFor(file: Bytes, es: Items, crc: Checksum, hash: Bloom.Hash)
  {
    exists bs, bloom :: IsFile(file, es, bs, bloom, crc, hash)
  }

  /** The reader answers for exactly these entries, and has their first and last key. */
  ghost predicate ReadsAs(r: Reader, es: Items)
    reads r.bloom
  {
    && (exists bs :: r.For(bs) && Flatten(bs) == es)
    && (es != [] ==> r.minKey == Some(es[0].key) && r.maxKey == Some(LastKey(es)))
  }

  /** All entries written in order and finished. */
  method WriteFile(es: Items, blockSize: int, crc: Checksum, hash: Bloom.Hash) returns (file: Bytes)
    requires S.InOrder(es) && Moderate(es)
    ensures FileFor(file, es, crc, hash)
  {
    hide EncodeEntry;
    hide EncodeEntries;
    hide Flatten;
    hide Blocks;
    hide IndexOf;
    hide FileOf;
    hide Bloom.Has;
    hide Full;
    hide LastKey;
    hide FilterFits;
    hide S.InOrder;
    hide TableFits;
    var w := AddAll(es, blockSize, crc, hash);
    EntriesSize(es);
    ghost var bloom := w.Finish();
    ModerateFits(w.blocks, bloom, crc);
    assert IsFile(w.out, es, w.blocks, bloom, crc, hash);
    file := w.out;
  }

  /** Opening any bytes: refused as the format says, and of such a file a reader for its entries. */
  method OpenTable(file: Bytes, crc: Checksum, hash: Bloom.Hash, ghost es: Items) returns (r: Option<Reader>)
    ensures r.None? <==> Open(file, crc).None?
    ensures r.Some? ==> r.value.file == file && fresh(r.value.bloom)
    ensures FileFor(file, es, crc, hash) ==> r.Some? && ReadsAs(r.value, es)
  {
    hide Flatten;
    hide IndexOf;
    hide FileOf;
    hide Bloom.Has;
    hide S.InOrder;
    hide Open;
    hide DecodeBlock;
    hide AllStored;
    hide TableFits;
    hide FilterFits;
    r := OpenReader(file, crc, hash);
    if FileFor(file, es, crc, hash) {
      ghost var bs, bloom :| IsFile(file, es, bs, bloom, crc, hash);
      OpenFinished(bs, bloom, crc);
      FirstAndLast(bs);
      Ready(r.value, bs, bloom);
      if bs != [] {
        EndsOf(bs, r.value);
      }
    }
  }

  /** Write all entries and open the file. */
  method WriteTable(es: Items, blockSize: int, crc: Checksum, hash: Bloom.Hash) returns (file: Bytes, r: Option<Reader>)
    requires S.InOrder(es) && Moderate(es)
    ensures FileFor(file, es, crc, hash)
    ensures r.Some? && r.value.file == file && ReadsAs(r.value, es) && fresh(r.value.bloom)
  {
    hide FileFor;
    hide ReadsAs;
    hide S.InOrder;
    hide Moderate;
    file := WriteFile(es, blockSize, crc, hash);
    r := OpenTable(file, crc, hash, es);
  }

  /** MayContain never misses a key of the table. */
  method MayContain(r: Reader, key: Key, ghost es: Items) returns (may: bool)
    requires ReadsAs(r, es)
    ensures key in S.AsMap(es) ==> may
  {
    hide S.AsMap;
    hide Flatten;
    ghost var bs :| r.For(bs) && Flatten(bs) == es;
    may := r.bloom.MayContain(key);
    if !may {
      r.NotInFilter(bs, key);
    }
  }

  /** Get on a reader, whatever the blocks of its file. */
  method Lookup(r: Reader, key: Key, ghost es: Items) returns (value: Option<Bytes>, found: bool, err: bool)
    requires ReadsAs(r, es)
    ensures !err && (found <==> key in S.AsMap(es))
    ensures found ==> value == if S.AsMap(es)[key] == Some([]) then None else S.AsMap(es)[key]
  {
    hide S.AsMap;
    hide Flatten;
    hide Reader.For;
    ghost var bs :| r.For(bs) && Flatten(bs) == es;
    value, found, err := r.Get(key, bs);
  }

  lemma {:induction false} EndsOf(bs: seq<Items>, r: Reader)
    requires r.For(bs) && bs != []
    ensures FirstKey(r.file, r.index, r.crc) == Some(bs[0][0].key) && r.index[|bs| - 1].lastKey == LastKey(bs[|bs| - 1])
  {
    hide S.InOrder;
    hide DecodeBlock;
    hide Bloom.Has;
    hide Flatten;
  }

  lemma {:induction false} Ready(r: Reader, bs: seq<Items>, bloom: Bloom.Encoding)
    requires Full(bs) && S.InOrder(Flatten(bs)) && r.index == IndexOf(bs, r.crc) && FilterFits(bloom)
    requires forall i :: 0 <= i < |bs| ==>
               var ie := IndexOf(bs, r.crc)[i];
               ie.lastKey == LastKey(bs[i]) && DecodeBlock(r.file, ie.offset, ie.size, r.crc) == Some(AllStored(bs[i]))
    requires r.bloom.bits == bloom.bits && r.bloom.m == bloom.m && r.bloom.k == bloom.k
    requires forall i :: 0 <= i < |Flatten(bs)| ==>
               Bloom.Has(bloom.bits, bloom.m, bloom.k, r.bloom.hash(Flatten(bs)[i].key))
    ensures r.For(bs)
  {
    hide Flatten;
    hide IndexOf;
    hide Bloom.Has;
    hide S.InOrder;
    hide DecodeBlock;
    hide AllStored;
  }

  lemma {:induction false} FirstAndLast(bs: seq<Items>)
    requires Full(bs)
    ensures Flatten(bs) == [] <==> bs == []
    ensures bs != [] ==> Flatten(bs)[0] == bs[0][0] && LastKey(Flatten(bs)) == LastKey(bs[|bs| - 1])
  {
    if bs != [] {
      var n := |bs| - 1;
      FirstAndLast(bs[..n]);
      if n > 0 {
        assert bs[..n][0] == bs[0];
      } else {
        assert bs[..0] == [];
        assert Flatten([]) == [];
      }
    }
  }

  // ---------- for the engine ----------

  /** Written and decoded, in front of any bytes, an entry has its key and its deletion mark again, and
      its value exactly if that is not empty: an empty value comes back as none at all, although not
      as a tombstone. */
  lemma {:induction false} EmptyValueIsLost(e: Item, rest: Bytes)
    requires EntryFits(e)
    ensures DecodeEntry(EncodeEntry(e) + rest).Some?
    ensures var c := DecodeEntry(EncodeEntry(e) + rest).value.0;
            && c.key == e.key && (c.tombstone <==> e.value.None?)
            && (c.value == e.value <==> e.value != Some([]))
            && (e.value == Some([]) ==> c.value.None? && !c.tombstone)
  {
    hide EncodeEntry;
    hide DecodeEntry;
    EntryBack(e, rest);
  }

  /** A run of entries as the writer gets it. */
  function AsItems(es: T.EntryList): (r: Items)
    ensures |r| == |es| && forall i :: 0 <= i < |es| ==> r[i] == S.Item(es[i].key, es[i].value)
  {
    seq(|es|, i requires 0 <= i < |es| => S.Item(es[i].key, es[i].value))
  }

  /** Values that are not empty: the table's lookup is the engine's linear one. */
  lemma {:induction false} TableHit(es: T.EntryList, key: Key)
    requires T.Sorted(es)
    ensures S.InOrder(AsItems(es))
    ensures key in S.AsMap(AsItems(es)) <==> T.Hit(es, key).Some?
    ensures key in S.AsMap(AsItems(es)) ==>
              var v := S.AsMap(AsItems(es))[key];
              v != Some([]) && Some(v) == T.Hit(es, key)
  {
    hide Rank;
    hide S.AsMap;
    var items := AsItems(es);
    S.MapOf(items, key);
    T.HitNone(es, key);
    if T.Hit(es, key).Some? {
      var i := T.HitWitness(es, key);
      assert items[i].key == key;
    }
  }
}
