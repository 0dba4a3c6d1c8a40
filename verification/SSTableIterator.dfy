/** The table iterator (sstable/iterator.go): block by block through the entries. */
module SSTableIterator {
  import opened Prelude
  import opened Keys
  import opened SSTableFormat
  import opened SSTableWriter
  import opened SSTableReader
  import S = SkipLists

  class TableIterator {
    const reader: Reader
    var blockIdx: nat
    var entries: seq<Cell>
    var entryIdx: nat
    var valid: bool
    ghost const bs: seq<Items>
    ghost var at: nat

    ghost predicate Inv()
      reads this, reader.bloom
    {
      && at <= |Flatten(bs)| && reader.For(bs)
      && if valid
         then && blockIdx < |bs| && entries == AllStored(bs[blockIdx]) && entryIdx < |entries|
              && at == Start(bs, blockIdx) + entryIdx
         else at == |Flatten(bs)|
    }

    /** The entries from the current one on. */
    ghost function Rest(): (r: Items)
      requires Inv()
      reads this, reader.bloom
    {
      Flatten(bs)[at..]
    }

    constructor (reader: Reader, ghost bs: seq<Items>)
      requires reader.For(bs)
      ensures this.reader == reader && this.bs == bs && Inv() && Rest() == []
    {
      this.reader, this.bs := reader, bs;
      blockIdx, entries, entryIdx, valid := 0, [], 0, false;
      at := |Flatten(bs)|;
    }

    method LoadBlock(idx: nat) returns (ok: bool)
      requires reader.For(bs) && idx < |bs|
      modifies `blockIdx, `entries
      ensures ok && blockIdx == idx && entries == AllStored(bs[idx])
    {
      hide Ordered;
      hide DecodeBlock;
      hide AllStored;
      var ie := reader.index[idx];
      var cells := ReadBlock(reader.file, ie.offset, ie.size, reader.crc);
      if cells.None? {
        return false;
      }
      blockIdx, entries := idx, cells.value;
      return true;
    }

    method SeekToFirst()
      requires Inv()
      modifies `blockIdx, `entries, `entryIdx, `valid, `at
      ensures Inv() && at == 0 && Rest() == Flatten(bs)
    {
      hide DecodeBlock;
      hide Flatten;
      StartsAtNothing(bs);
      if |reader.index| == 0 {
        assert bs[..0] == bs;
        valid, at := false, 0;
        return;
      }
      var ok := LoadBlock(0);
      entryIdx, at, valid := 0, 0, ok && |entries| > 0;
    }

    /** At the first entry that is not below the target. */
    method Seek(target: Key)
      requires Inv()
      modifies `blockIdx, `entries, `entryIdx, `valid, `at
      ensures Inv() && at == S.Place(Flatten(bs), target)
    {
      hide DecodeBlock;
      hide Flatten;
      hide S.Place;
      hide Rank;
      hide FirstReaching;
      if |reader.index| == 0 {
        NothingToSeek(bs, target);
        valid, at := false, |Flatten(bs)|;
        return;
      }
      var b := reader.FindBlock(target, bs);
      PlaceInBlock(bs, target, if b.None? then |bs| else b.value);
      if b.None? {
        valid, at := false, |Flatten(bs)|;
        return;
      }
      var ok := LoadBlock(b.value);
      FlattenAt(bs, b.value);
      var i := FirstNotBelow(target, bs[b.value]);
      entryIdx, valid, at := i, ok, Start(bs, b.value) + i;
    }

    /** The scan of the loaded block, which ends within it: its last key is not below the target. */
    method FirstNotBelow(target: Key, ghost es: Items) returns (i: nat)
      requires entries == AllStored(es) && S.Place(es, target) < |es|
      ensures i == S.Place(es, target)
    {
      hide Rank;
      i := 0;
      while i < |entries| && Compare(entries[i].key, target) < 0
        invariant i <= S.Place(es, target)
      {
        i := i + 1;
      }
    }

    method Next()
      requires Inv()
      modifies `blockIdx, `entries, `entryIdx, `valid, `at
      ensures Inv() && at == if old(at) < |Flatten(bs)| then old(at) + 1 else old(at)
    {
      hide DecodeBlock;
      hide Flatten;
      hide S.InOrder;
      if !valid {
        return;
      }
      FlattenAt(bs, blockIdx);
      StartStep(bs, blockIdx);
      entryIdx, at := entryIdx + 1, at + 1;
      if entryIdx >= |entries| {
        var nextBlock := blockIdx + 1;
        if nextBlock >= |reader.index| {
          assert bs[..nextBlock] == bs;
          valid := false;
          return;
        }
        var ok := LoadBlock(nextBlock);
        FlattenAt(bs, nextBlock);
        entryIdx, valid := 0, ok && |entries| > 0;
      }
    }

    /** Valid, Key, Value and IsTombstone. */
    method Current() returns (c: Option<Cell>)
      requires Inv()
      ensures c == if at == |Flatten(bs)| then None else Some(Stored(Flatten(bs)[at]))
    {
      hide DecodeBlock;
      hide Flatten;
      if !valid {
        return None;
      }
      FlattenAt(bs, blockIdx);
      assert Flatten(bs)[at] == Flatten(bs)[Start(bs, blockIdx)..Start(bs, blockIdx) + |bs[blockIdx]|][entryIdx];
      return Some(entries[entryIdx]);
    }
  }

  lemma {:induction false} StartsAtNothing(bs: seq<Items>)
    ensures Start(bs, 0) == 0
  {
    assert bs[..0] == [];
    assert Flatten([]) == [];
  }

  lemma {:induction false} NothingToSeek(bs: seq<Items>, target: Key)
    requires bs == []
    ensures S.Place(Flatten(bs), target) == |Flatten(bs)|
  {
  }
}
