/** The table writer (sstable/writer.go): entries go to blocks, blocks to the file, and Finish adds
    index, filter and footer. */
module SSTableWriter {
  import opened Prelude
  import opened Keys
  import opened ByteCodec
  import opened SSTableFormat
  import Bloom

  const DEFAULT_BLOCK_SIZE: nat := 4096

  function Flatten(bs: seq<Items>): (r: Items)
  {
    if bs == [] then [] else Flatten(bs[..|bs| - 1]) + bs[|bs| - 1]
  }

  function KeysOf(es: Items): (r: seq<Key>)
    ensures |r| == |es| && forall i :: 0 <= i < |es| ==> r[i] == es[i].key
  {
    seq(|es|, i requires 0 <= i < |es| => es[i].key)
  }

  lemma {:induction false} FlattenSnoc(bs: seq<Items>, b: Items)
    ensures Flatten(bs + [b]) == Flatten(bs) + b
  {
    assert (bs + [b])[..|bs|] == bs;
  }

  lemma {:induction false} BlocksSnoc(bs: seq<Items>, b: Items, crc: Checksum)
    ensures Blocks(bs + [b], crc) == Blocks(bs, crc) + Block(b, crc)
    ensures IndexOf(bs + [b], crc) == IndexOf(bs, crc) + [IndexEntry(LastKey(b), |Blocks(bs, crc)|, |Block(b, crc)|)]
  {
    hide Block;
    assert (bs + [b])[..|bs|] == bs;
  }

  /** No block is empty. */
  ghost predicate Full(bs: seq<Items>)
  {
    forall i :: 0 <= i < |bs| ==> bs[i] != []
  }

  lemma {:induction false} FullSnoc(bs: seq<Items>, b: Items)
    requires Full(bs) && b != []
    ensures Full(bs + [b])
  {
  }

  lemma {:induction false} LastAdded(a: Items, b: Items)
    requires b != []
    ensures |KeysOf(a + b)| > 0 && KeysOf(a + b)[|a + b| - 1] == LastKey(b)
  {
  }

  lemma {:induction false} BlockIs(es: Items, crc: Checksum)
    ensures Block(es, crc) == EncodeEntries(es) + U32(|es|) + U32(crc(EncodeEntries(es)))
  {
  }

  class Writer {
    const blockSize: nat
    const crc: Checksum
    const hash: Bloom.Hash
    var out: Bytes
    var blockBuf: Bytes
    var blockEntries: nat
    var indexEntries: seq<IndexEntry>
    var keys: seq<Key>
    var offset: nat
    var entryCount: nat
    var minKey: Option<Key>
    var maxKey: Option<Key>
    ghost var blocks: seq<Items>
    ghost var pending: Items

    /** All entries added so far. */
    ghost function Added(): (r: Items)
      reads this
    {
      Flatten(blocks) + pending
    }

    ghost predicate Valid()
      reads this
    {
      && blockSize > 0 && Full(blocks)
      && out == Blocks(blocks, crc) && offset == |out| && indexEntries == IndexOf(blocks, crc)
      && blockBuf == EncodeEntries(pending) && blockEntries == |pending|
      && keys == KeysOf(Added()) && entryCount == |keys|
      && minKey == (if Added() == [] then None else Some(Added()[0].key))
      && maxKey == (if Added() == [] then None else Some(LastKey(Added())))
    }

    /** NewWriter; a size that is not positive gives the default. */
    constructor (size: int, crc: Checksum, hash: Bloom.Hash)
      ensures Valid() && Added() == [] && this.crc == crc && this.hash == hash
      ensures blockSize == if size <= 0 then DEFAULT_BLOCK_SIZE else size
    {
      blockSize := if size <= 0 then DEFAULT_BLOCK_SIZE else size;
      this.crc, this.hash := crc, hash;
      out, blockBuf, blockEntries, indexEntries := [], [], 0, [];
      keys, offset, entryCount, minKey, maxKey := [], 0, 0, None, None;
      blocks, pending := [], [];
    }

    method FlushBlock()
      requires Valid()
      modifies this
      ensures Valid() && Added() == old(Added()) && pending == []
      ensures blocks == old(blocks) + if old(pending) == [] then [] else [old(pending)]
      ensures keys == old(keys)
    {
      hide EncodeEntries;
      hide Blocks;
      hide IndexOf;
      hide Flatten;
      hide Full;
      if blockEntries == 0 {
        return;
      }
      WriteBlock();
    }

    method WriteBlock()
      requires Valid() && pending != []
      modifies `out, `indexEntries, `offset, `blockBuf, `blockEntries, `blocks, `pending
      ensures Valid() && Added() == old(Added()) && pending == [] && blocks == old(blocks) + [old(pending)]
    {
      hide EncodeEntries;
      hide Blocks;
      hide IndexOf;
      hide Block;
      hide Flatten;
      hide KeysOf;
      hide LastKey;
      hide Full;
      hide U32;
      ghost var added := Added();
      BlocksSnoc(blocks, pending, crc);
      FlattenSnoc(blocks, pending);
      LastAdded(Flatten(blocks), pending);
      BlockIs(pending, crc);
      NoEntries();
      FullSnoc(blocks, pending);
      assert added + [] == added;
      var block := blockBuf + U32(blockEntries) + U32(crc(blockBuf));
      out, indexEntries, offset, blockBuf, blockEntries, blocks, pending :=
        out + block, indexEntries + [IndexEntry(keys[|keys| - 1], offset, |block|)], offset + |block|, [], 0, blocks +
            [pending], [];
      assert Added() == added;
    }

    /** Add: a block that reaches the target size is written out. */
    method Add(e: Item)
      requires Valid()
      modifies this
      ensures Valid() && Added() == old(Added()) + [e]
      ensures if |EncodeEntries(old(pending) + [e])| >= blockSize
              then pending == [] && blocks == old(blocks) + [old(pending) + [e]]
              else pending == old(pending) + [e] && blocks == old(blocks)
    {
      hide EncodeEntries;
      hide EncodeEntry;
      hide Blocks;
      hide IndexOf;
      hide Flatten;
      ghost var before := Added();
      if entryCount == 0 {
        minKey := Some(e.key);
      }
      maxKey := Some(e.key);
      keys, entryCount := keys + [e.key], entryCount + 1;
      blockBuf, blockEntries := blockBuf + EncodeEntry(e), blockEntries + 1;
      OneMoreEntry(pending, e);
      pending := pending + [e];
      assert Added() == before + [e];
      if |blockBuf| >= blockSize {
        FlushBlock();
      }
    }

    /** Finish: the file of the blocks, with a filter that has every key. */
    method Finish() returns (ghost bloom: Bloom.Encoding)
      requires Valid() && |keys| * 10 < TWO32 - 17
      modifies this
      ensures Flatten(blocks) == old(Added()) && Full(blocks) && out == FileOf(blocks, bloom, crc)
      ensures blocks == old(blocks) + if old(pending) == [] then [] else [old(pending)]
      ensures FilterFits(bloom) && |bloom.bits| <= 2 * |keys| + 8
      ensures forall i :: 0 <= i < |keys| ==> Bloom.Has(bloom.bits, bloom.m, bloom.k, hash(keys[i]))
      ensures keys == KeysOf(Flatten(blocks))
    {
      hide EncodeEntries;
      hide Blocks;
      hide IndexOf;
      hide Flatten;
      hide Bloom.Has;
      hide Bloom.Encode;
      hide EncodeFooter;
      hide EncodeIndex;
      hide Full;
      hide KeysOf;
      hide U32;
      FlushBlock();
      assert Flatten(blocks) + [] == Flatten(blocks);
      var indexBuf := IndexBytes();
      var indexBlock := indexBuf + U32(|indexEntries|) + U32(crc(indexBuf));
      var bloomOffset := offset + |indexBlock|;
      var bf := Bloom.FilterOf(keys, hash);
      bloom := Bloom.Encoding(bf.m, bf.k, bf.bits);
      var bloomData := Bloom.Encode(Bloom.Encoding(bf.m, bf.k, bf.bits));
      var bloomBlock := bloomData + U32(crc(bloomData));
      var footer := EncodeFooter(Footer(offset, |indexBlock|, bloomOffset, |bloomBlock|), crc);
      out, offset := out + indexBlock + bloomBlock + footer, bloomOffset + |bloomBlock|;
    }

    /** The loop over the index entries. */
    method IndexBytes() returns (buf: Bytes)
      ensures buf == EncodeIndex(indexEntries)
    {
      hide EncodeIndexEntry;
      buf := [];
      NoIndex();
      for i := 0 to |indexEntries|
        invariant buf == EncodeIndex(indexEntries[..i])
      {
        IndexSnoc(indexEntries[..i], indexEntries[i]);
        assert indexEntries[..i + 1] == indexEntries[..i] + [indexEntries[i]];
        buf := buf + EncodeIndexEntry(indexEntries[i]);
      }
      assert indexEntries[..|indexEntries|] == indexEntries;
    }
  }

  lemma {:induction false} OneMoreEntry(es: Items, e: Item)
    ensures EncodeEntries(es + [e]) == EncodeEntries(es) + EncodeEntry(e)
  {
    hide EncodeEntry;
    assert (es + [e])[..|es|] == es;
  }

  lemma {:induction false} NoIndex()
    ensures EncodeIndex([]) == []
  {
  }

  lemma {:induction false} IndexSnoc(ies: seq<IndexEntry>, ie: IndexEntry)
    ensures EncodeIndex(ies + [ie]) == EncodeIndex(ies) + EncodeIndexEntry(ie)
  {
    hide EncodeIndexEntry;
    if ies == [] {
      assert ies + [ie] == [ie];
      assert [ie][1..] == [];
      NoIndex();
    } else {
      assert (ies + [ie])[1..] == ies[1..] + [ie];
      IndexSnoc(ies[1..], ie);
    }
  }
}
