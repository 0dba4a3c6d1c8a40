/** The bytes of a table file (sstable/writer.go, sstable/reader.go): blocks, index, filter and
    footer, and that reading gives back what was written. */
module SSTableFormat {
  import opened Prelude
  import opened Keys
  import opened ByteCodec
  import Bloom
  import S = SkipLists

  type Item = S.Item

  type Items = S.Items

  const VALUE: Byte := 1
  const TOMBSTONE: Byte := 2
  const MAGIC: nat := 0x4B56_5353_5442_4C00
  const VERSION: nat := 1
  const FOOTER_SIZE: nat := 48

  /** An entry as the reader decodes it; no value is Go's nil. */
  datatype Cell = Cell(key: Key, value: Option<Bytes>, tombstone: bool)

  /** What becomes of an entry on disk: an empty value comes back as nil, though not as a tombstone. */
  function Stored(e: Item): (c: Cell)
  {
    Cell(e.key, if e.value == Some([]) then None else e.value, e.value.None?)
  }

  function AllStored(es: Items): (cs: seq<Cell>)
    ensures |cs| == |es| && forall i :: 0 <= i < |es| ==> cs[i] == Stored(es[i])
  {
    seq(|es|, i requires 0 <= i < |es| => Stored(es[i]))
  }

  // ---------- entries ----------

  function EncodeEntry(e: Item): (r: Bytes)
    ensures |r| == 9 + |e.key| + |ValueBytes(e.value)|
  {
    U32(|e.key|) + U32(|ValueBytes(e.value)|) + [if e.value.None? then TOMBSTONE else VALUE] + e.key +
        ValueBytes(e.value)
  }

  function EncodeEntries(es: Items): (r: Bytes)
    ensures |r| >= |es|
  {
    if es == [] then [] else EncodeEntries(es[..|es| - 1]) + EncodeEntry(es[|es| - 1])
  }

  /** The first entry of the data and how many bytes it takes. */
  function DecodeEntry(data: Bytes): (r: Option<(Cell, nat)>)
    ensures r.Some? ==> 0 < r.value.1 <= |data|
  {
    if |data| < 9 then None
    else
      var keyEnd := 9 + FromU32(data[..4]);
      var valLen := FromU32(data[4..8]);
      if keyEnd > |data| then None
      else if data[8] == VALUE && valLen > 0 then
        if keyEnd + valLen > |data| then None
        else Some((Cell(data[9..keyEnd], Some(data[keyEnd..keyEnd + valLen]), false), keyEnd + valLen))
      else Some((Cell(data[9..keyEnd], None, data[8] == TOMBSTONE), keyEnd))
  }

  function DecodeEntries(data: Bytes, n: nat): (r: Option<seq<Cell>>)
  {
    if n == 0 then Some([])
    else
      var first := DecodeEntry(data);
      if first.None? then None
      else
        var rest := DecodeEntries(data[first.value.1..], n - 1);
        if rest.None? then None else Some([first.value.0] + rest.value)
  }

  predicate EntryFits(e: Item)
  {
    |e.key| < TWO32 && |ValueBytes(e.value)| < TWO32
  }

  lemma {:induction false} EntryBack(e: Item, rest: Bytes)
    requires EntryFits(e)
    ensures DecodeEntry(EncodeEntry(e) + rest) == Some((Stored(e), |EncodeEntry(e)|))
    ensures (EncodeEntry(e) + rest)[|EncodeEntry(e)|..] == rest
  {
    hide U32;
    hide FromU32;
    var v := ValueBytes(e.value);
    var d := EncodeEntry(e) + rest;
    assert d[..4] == U32(|e.key|);
    assert d[4..8] == U32(|v|);
    U32Back(|e.key|);
    U32Back(|v|);
    assert d[9..9 + |e.key|] == e.key;
    assert d[9 + |e.key|..9 + |e.key| + |v|] == v;
  }

  lemma {:induction false} EntriesSnoc(es: Items)
    requires es != []
    ensures EncodeEntries(es) == EncodeEntries(es[..|es| - 1]) + EncodeEntry(es[|es| - 1])
  {
    hide EncodeEntry;
  }

  lemma {:induction false} NoEntries()
    ensures EncodeEntries([]) == [] && AllStored([]) == []
  {
  }

  lemma {:induction false} EntriesCons(es: Items)
    requires es != []
    ensures EncodeEntries(es) == EncodeEntry(es[0]) + EncodeEntries(es[1..])
  {
    hide EncodeEntry;
    hide EncodeEntries;
    var n := |es| - 1;
    EntriesSnoc(es);
    if n == 0 {
      assert es[..0] == [] && es[1..] == [];
      NoEntries();
    } else {
      EntriesCons(es[..n]);
      assert es[..n][1..] == es[1..][..n - 1];
      EntriesSnoc(es[1..]);
      var a, b, c := EncodeEntry(es[0]), EncodeEntries(es[1..][..n - 1]), EncodeEntry(es[n]);
      assert (a + b) + c == a + (b + c);
    }
  }

  lemma {:induction false} StoredCons(es: Items)
    requires es != []
    ensures AllStored(es) == [Stored(es[0])] + AllStored(es[1..])
  {
    hide Stored;
  }

  lemma {:induction false} EntriesBack(es: Items, rest: Bytes)
    requires forall i :: 0 <= i < |es| ==> EntryFits(es[i])
    ensures DecodeEntries(EncodeEntries(es) + rest, |es|) == Some(AllStored(es))
  {
    hide EncodeEntry;
    hide EncodeEntries;
    hide DecodeEntry;
    hide EntryFits;
    hide Stored;
    hide AllStored;
    NoEntries();
    if es != [] {
      EntriesCons(es);
      var a, b := EncodeEntry(es[0]), EncodeEntries(es[1..]);
      assert a + b + rest == a + (b + rest);
      EntryBack(es[0], b + rest);
      EntriesBack(es[1..], rest);
      StoredCons(es);
    }
  }

  // ---------- blocks ----------

  function Block(es: Items, crc: Checksum): (r: Bytes)
    ensures |r| == |EncodeEntries(es)| + 8
  {
    EncodeEntries(es) + U32(|es|) + U32(crc(EncodeEntries(es)))
  }

  /** decodeBlock: checksum, count and entries of a stretch of the file. */
  function DecodeBlock(file: Bytes, offset: nat, size: nat, crc: Checksum): (r: Option<seq<Cell>>)
  {
    if offset + size > |file| || size < 8 then None
    else
      var block := file[offset..offset + size];
      var entryData := block[..size - 8];
      if crc(entryData) != FromU32(block[size - 4..]) then None
      else DecodeEntries(entryData, FromU32(block[size - 8..size - 4]))
  }

  predicate BlockFits(es: Items)
  {
    |es| < TWO32 && |EncodeEntries(es)| + 8 < TWO32 && forall i :: 0 <= i < |es| ==> EntryFits(es[i])
  }

  lemma {:induction false} BlockBack(a: Bytes, es: Items, b: Bytes, crc: Checksum)
    requires BlockFits(es)
    ensures DecodeBlock(a + Block(es, crc) + b, |a|, |Block(es, crc)|, crc) == Some(AllStored(es))
  {
    hide U32;
    hide FromU32;
    hide EncodeEntries;
    hide DecodeEntries;
    hide EntryFits;
    var body := EncodeEntries(es);
    var block := Block(es, crc);
    var n := |block|;
    assert (a + block + b)[|a|..|a| + n] == block;
    assert block[..n - 8] == body;
    assert block[n - 8..n - 4] == U32(|es|);
    assert block[n - 4..] == U32(crc(body));
    U32Back(|es|);
    U32Back(crc(body));
    EntriesBack(es, []);
    assert body + [] == body;
  }

  function Blocks(bs: seq<Items>, crc: Checksum): (r: Bytes)
  {
    if bs == [] then [] else Blocks(bs[..|bs| - 1], crc) + Block(bs[|bs| - 1], crc)
  }

  datatype IndexEntry = IndexEntry(lastKey: Key, offset: nat, size: nat)

  function LastKey(es: Items): (k: Key)
  {
    if es == [] then [] else es[|es| - 1].key
  }

  /** Where the blocks are, and the last key of each. */
  function IndexOf(bs: seq<Items>, crc: Checksum): (r: seq<IndexEntry>)
    ensures |r| == |bs|
  {
    if bs == [] then []
    else
      var n := |bs| - 1;
      IndexOf(bs[..n], crc) + [IndexEntry(LastKey(bs[n]), |Blocks(bs[..n], crc)|, |Block(bs[n], crc)|)]
  }

  lemma {:induction false} BlocksStep(bs: seq<Items>, crc: Checksum, i: nat)
    requires i < |bs|
    ensures Blocks(bs[..i + 1], crc) == Blocks(bs[..i], crc) + Block(bs[i], crc)
  {
    hide Block;
    assert bs[..i + 1][..i] == bs[..i];
  }

  lemma {:induction false} BlocksPrefix(bs: seq<Items>, crc: Checksum, i: nat)
    requires i <= |bs|
    ensures Blocks(bs[..i], crc) <= Blocks(bs, crc)
    decreases |bs| - i
  {
    hide Blocks;
    if i == |bs| {
      assert bs[..i] == bs;
    } else {
      BlocksPrefix(bs, crc, i + 1);
      BlocksStep(bs, crc, i);
    }
  }

  lemma {:induction false} IndexAt(bs: seq<Items>, crc: Checksum, i: nat)
    requires i < |bs|
    ensures IndexOf(bs, crc)[i] == IndexEntry(LastKey(bs[i]), |Blocks(bs[..i], crc)|, |Block(bs[i], crc)|)
  {
    hide Block;
    hide Blocks;
    var n := |bs| - 1;
    if i < n {
      IndexAt(bs[..n], crc, i);
      assert bs[..n][..i] == bs[..i];
    }
  }

  /** Reading block i where the index says it is. */
  lemma {:induction false} IndexedBlock(bs: seq<Items>, crc: Checksum, file: Bytes, i: nat)
    requires i < |bs| && Blocks(bs, crc) <= file && BlockFits(bs[i])
    ensures var ie := IndexOf(bs, crc)[i];
            ie.lastKey == LastKey(bs[i]) && DecodeBlock(file, ie.offset, ie.size, crc) == Some(AllStored(bs[i]))
  {
    hide Block;
    hide BlockFits;
    hide DecodeBlock;
    hide AllStored;
    hide Blocks;
    IndexAt(bs, crc, i);
    BlocksPrefix(bs, crc, i + 1);
    BlocksStep(bs, crc, i);
    var a, m := Blocks(bs[..i], crc), Block(bs[i], crc);
    var b := file[|a| + |m|..];
    assert file == a + m + b;
    BlockBack(a, bs[i], b, crc);
  }

  // ---------- index ----------

  function EncodeIndexEntry(ie: IndexEntry): (r: Bytes)
    ensures |r| == 16 + |ie.lastKey|
  {
    U32(|ie.lastKey|) + ie.lastKey + U64(ie.offset) + U32(ie.size)
  }

  function EncodeIndex(ies: seq<IndexEntry>): (r: Bytes)
  {
    if ies == [] then [] else EncodeIndexEntry(ies[0]) + EncodeIndex(ies[1..])
  }

  function DecodeIndexEntry(data: Bytes): (r: Option<(IndexEntry, nat)>)
    ensures r.Some? ==> 0 < r.value.1 <= |data|
  {
    if |data| < 4 then None
    else
      var keyEnd := 4 + FromU32(data[..4]);
      if keyEnd + 12 > |data| then None
      else Some((IndexEntry(data[4..keyEnd], FromU64(data[keyEnd..keyEnd + 8]), FromU32(data[keyEnd + 8..keyEnd + 12])),
                 keyEnd + 12))
  }

  function DecodeIndex(data: Bytes, n: nat): (r: Option<seq<IndexEntry>>)
  {
    if n == 0 then Some([])
    else
      var first := DecodeIndexEntry(data);
      if first.None? then None
      else
        var rest := DecodeIndex(data[first.value.1..], n - 1);
        if rest.None? then None else Some([first.value.0] + rest.value)
  }

  predicate IndexFits(ie: IndexEntry)
  {
    |ie.lastKey| < TWO32 && ie.offset < TWO64 && ie.size < TWO32
  }

  lemma {:induction false} IndexEntryBack(ie: IndexEntry, rest: Bytes)
    requires IndexFits(ie)
    ensures DecodeIndexEntry(EncodeIndexEntry(ie) + rest) == Some((ie, |EncodeIndexEntry(ie)|))
    ensures (EncodeIndexEntry(ie) + rest)[|EncodeIndexEntry(ie)|..] == rest
  {
    hide U32;
    hide U64;
    hide FromU32;
    hide FromU64;
    var d := EncodeIndexEntry(ie) + rest;
    var keyEnd := 4 + |ie.lastKey|;
    assert d[..4] == U32(|ie.lastKey|);
    assert d[4..keyEnd] == ie.lastKey;
    assert d[keyEnd..keyEnd + 8] == U64(ie.offset);
    assert d[keyEnd + 8..keyEnd + 12] == U32(ie.size);
    U32Back(|ie.lastKey|);
    U64Back(ie.offset);
    U32Back(ie.size);
  }

  lemma {:induction false} IndexBack(ies: seq<IndexEntry>, rest: Bytes)
    requires forall i :: 0 <= i < |ies| ==> IndexFits(ies[i])
    ensures DecodeIndex(EncodeIndex(ies) + rest, |ies|) == Some(ies)
  {
    hide EncodeIndexEntry;
    hide DecodeIndexEntry;
    hide IndexFits;
    if ies != [] {
      var a, b := EncodeIndexEntry(ies[0]), EncodeIndex(ies[1..]);
      assert a + b + rest == a + (b + rest);
      IndexEntryBack(ies[0], b + rest);
      IndexBack(ies[1..], rest);
      assert ies == [ies[0]] + ies[1..];
    }
  }

  function IndexBlock(ies: seq<IndexEntry>, crc: Checksum): (r: Bytes)
    ensures |r| == |EncodeIndex(ies)| + 8
  {
    EncodeIndex(ies) + U32(|ies|) + U32(crc(EncodeIndex(ies)))
  }

  /** parseIndex. */
  function ParseIndex(block: Bytes, crc: Checksum): (r: Option<seq<IndexEntry>>)
  {
    if |block| < 8 then None
    else
      var n := |block|;
      var entryData := block[..n - 8];
      if crc(entryData) != FromU32(block[n - 4..]) then None
      else DecodeIndex(entryData, FromU32(block[n - 8..n - 4]))
  }

  lemma {:induction false} IndexBlockBack(ies: seq<IndexEntry>, crc: Checksum)
    requires |ies| < TWO32 && forall i :: 0 <= i < |ies| ==> IndexFits(ies[i])
    ensures ParseIndex(IndexBlock(ies, crc), crc) == Some(ies)
  {
    hide U32;
    hide FromU32;
    hide EncodeIndex;
    hide DecodeIndex;
    hide IndexFits;
    var body, block := EncodeIndex(ies), IndexBlock(ies, crc);
    var n := |block|;
    assert block[..n - 8] == body;
    assert block[n - 8..n - 4] == U32(|ies|);
    assert block[n - 4..] == U32(crc(body));
    U32Back(|ies|);
    U32Back(crc(body));
    IndexBack(ies, []);
    assert body + [] == body;
  }

  // ---------- filter block and footer ----------

  function FilterBlock(e: Bloom.Encoding, crc: Checksum): (r: Bytes)
    ensures |r| == |Bloom.Encode(e)| + 4
  {
    Bloom.Encode(e) + U32(crc(Bloom.Encode(e)))
  }

  /** parseBloom. */
  function ParseFilter(block: Bytes, crc: Checksum): (r: Option<Bloom.Encoding>)
  {
    if |block| < 4 then None
    else
      var n := |block|;
      if crc(block[..n - 4]) != FromU32(block[n - 4..]) then None else Bloom.Decode(block[..n - 4])
  }

  predicate FilterFits(e: Bloom.Encoding)
  {
    8 <= e.m < TWO32 - 7 && e.k < TWO32 && |e.bits| == (e.m + 7) / 8
  }

  lemma {:induction false} FilterBack(e: Bloom.Encoding, crc: Checksum)
    requires FilterFits(e)
    ensures ParseFilter(FilterBlock(e, crc), crc) == Some(e)
  {
    hide U32;
    hide FromU32;
    hide Bloom.Encode;
    hide Bloom.Decode;
    var body, block := Bloom.Encode(e), FilterBlock(e, crc);
    assert block[..|block| - 4] == body;
    assert block[|block| - 4..] == U32(crc(body));
    U32Back(crc(body));
    Bloom.DecodeEncode(e);
  }

  datatype Footer = Footer(indexOffset: nat, indexSize: nat, bloomOffset: nat, bloomSize: nat)

  function FooterBody(f: Footer): (r: Bytes)
    ensures |r| == 44
  {
    U64(f.indexOffset) + U32(f.indexSize) + U64(f.bloomOffset) + U32(f.bloomSize)
    + [0, 0, 0, 0, 0, 0, 0, 0] + U64(MAGIC) + U32(VERSION)
  }

  function EncodeFooter(f: Footer, crc: Checksum): (r: Bytes)
    ensures |r| == FOOTER_SIZE
  {
    FooterBody(f) + U32(crc(FooterBody(f)))
  }

  /** parseFooter. */
  function ParseFooter(data: Bytes, crc: Checksum): (r: Option<Footer>)
    requires |data| == FOOTER_SIZE
  {
    if crc(data[..44]) != FromU32(data[44..48]) then None
    else if FromU64(data[32..40]) != MAGIC || FromU32(data[40..44]) != VERSION then None
    else Some(Footer(FromU64(data[..8]), FromU32(data[8..12]), FromU64(data[12..20]), FromU32(data[20..24])))
  }

  predicate FooterFits(f: Footer)
  {
    f.indexOffset < TWO64 && f.indexSize < TWO32 && f.bloomOffset < TWO64 && f.bloomSize < TWO32
  }

  lemma {:induction false} FooterBack(f: Footer, crc: Checksum)
    requires FooterFits(f)
    ensures ParseFooter(EncodeFooter(f, crc), crc) == Some(f)
  {
    hide U32;
    hide U64;
    hide FromU32;
    hide FromU64;
    var d := EncodeFooter(f, crc);
    FooterFields(f, d);
    assert d[..44] == FooterBody(f);
    assert d[44..48] == U32(crc(FooterBody(f)));
    U32Back(crc(FooterBody(f)));
  }

  lemma {:induction false} FooterFields(f: Footer, d: Bytes)
    requires FooterFits(f) && |d| == 48 && d[..44] == FooterBody(f)
    ensures FromU64(d[..8]) == f.indexOffset && FromU32(d[8..12]) == f.indexSize
    ensures FromU64(d[12..20]) == f.bloomOffset && FromU32(d[20..24]) == f.bloomSize
    ensures FromU64(d[32..40]) == MAGIC && FromU32(d[40..44]) == VERSION
  {
    hide U32;
    hide U64;
    hide FromU32;
    hide FromU64;
    var b := FooterBody(f);
    assert d[..8] == b[..8] == U64(f.indexOffset);
    assert d[8..12] == b[8..12] == U32(f.indexSize);
    assert d[12..20] == b[12..20] == U64(f.bloomOffset);
    assert d[20..24] == b[20..24] == U32(f.bloomSize);
    assert d[32..40] == b[32..40] == U64(MAGIC);
    assert d[40..44] == b[40..44] == U32(VERSION);
    U64Back(f.indexOffset);
    U32Back(f.indexSize);
    U64Back(f.bloomOffset);
    U32Back(f.bloomSize);
    U64Back(MAGIC);
    U32Back(VERSION);
  }

  // ---------- the file ----------

  /** What Finish leaves on disk for the given blocks. */
  function FileOf(bs: seq<Items>, bloom: Bloom.Encoding, crc: Checksum): (r: Bytes)
  {
    var body, idx, flt := Blocks(bs, crc), IndexBlock(IndexOf(bs, crc), crc), FilterBlock(bloom, crc);
    body + idx + flt + EncodeFooter(Footer(|body|, |idx|, |body| + |idx|, |flt|), crc)
  }

  /** A reader: the mapped file with its parsed index and filter. */
  datatype Opened = Opened(index: seq<IndexEntry>, bloom: Bloom.Encoding)

  /** OpenReader's parsing. */
  function Open(file: Bytes, crc: Checksum): (r: Option<Opened>)
  {
    if |file| < FOOTER_SIZE then None
    else
      var f := ParseFooter(file[|file| - FOOTER_SIZE..], crc);
      if f.None? || f.value.indexOffset + f.value.indexSize > |file|
          || f.value.bloomOffset + f.value.bloomSize > |file| then None
      else
        var index := ParseIndex(file[f.value.indexOffset..f.value.indexOffset + f.value.indexSize], crc);
        var bloom := ParseFilter(file[f.value.bloomOffset..f.value.bloomOffset + f.value.bloomSize], crc);
        if index.None? || bloom.None? then None else Some(Opened(index.value, bloom.value))
  }

  /** What the widths of the format allow. */
  ghost predicate TableFits(bs: seq<Items>, bloom: Bloom.Encoding, crc: Checksum)
  {
    && |bs| < TWO32 && (forall i :: 0 <= i < |bs| ==> BlockFits(bs[i])) && FilterFits(bloom)
    && |Blocks(bs, crc)| + |IndexBlock(IndexOf(bs, crc), crc)| < TWO64
    && |IndexBlock(IndexOf(bs, crc), crc)| < TWO32 && |FilterBlock(bloom, crc)| < TWO32
  }

  lemma {:induction false} IndexEntriesFit(bs: seq<Items>, crc: Checksum)
    requires (forall i :: 0 <= i < |bs| ==> BlockFits(bs[i])) && |Blocks(bs, crc)| < TWO64
    ensures forall i :: 0 <= i < |bs| ==> IndexFits(IndexOf(bs, crc)[i])
  {
    forall i | 0 <= i < |bs|
      ensures IndexFits(IndexOf(bs, crc)[i])
    {
      IndexAt(bs, crc, i);
      BlocksPrefix(bs, crc, i);
      LastKeyFits(bs[i]);
    }
  }

  lemma {:induction false} LastKeyFits(es: Items)
    requires BlockFits(es)
    ensures |LastKey(es)| < TWO32
  {
    assert es != [] ==> EntryFits(es[|es| - 1]);
  }

  lemma {:induction false} Parts(a: Bytes, b: Bytes, c: Bytes, d: Bytes)
    ensures var file := a + b + c + d;
            && a <= file && file[|a|..|a| + |b|] == b && file[|a| + |b|..|a| + |b| + |c|] == c
            && file[|file| - |d|..] == d
  {
  }

  /** Round trip: opening what Finish wrote succeeds with the index and the filter written, and every
      block reads back as its entries. */
  lemma {:induction false} OpenFinished(bs: seq<Items>, bloom: Bloom.Encoding, crc: Checksum)
    requires TableFits(bs, bloom, crc)
    ensures Open(FileOf(bs, bloom, crc), crc) == Some(Opened(IndexOf(bs, crc), bloom))
    ensures forall i :: 0 <= i < |bs| ==>
              var ie := IndexOf(bs, crc)[i];
              ie.lastKey == LastKey(bs[i])
                  && DecodeBlock(FileOf(bs, bloom, crc), ie.offset, ie.size, crc) == Some(AllStored(bs[i]))
  {
    hide Block;
    hide BlockFits;
    hide EncodeFooter;
    hide ParseFooter;
    hide ParseIndex;
    hide ParseFilter;
    hide FilterFits;
    hide IndexBlock;
    hide FilterBlock;
    hide DecodeBlock;
    hide AllStored;
    hide Blocks;
    hide IndexOf;
    var body, idx, flt := Blocks(bs, crc), IndexBlock(IndexOf(bs, crc), crc), FilterBlock(bloom, crc);
    var f := Footer(|body|, |idx|, |body| + |idx|, |flt|);
    var file := FileOf(bs, bloom, crc);
    Parts(body, idx, flt, EncodeFooter(f, crc));
    FooterBack(f, crc);
    IndexEntriesFit(bs, crc);
    IndexBlockBack(IndexOf(bs, crc), crc);
    FilterBack(bloom, crc);
    forall i | 0 <= i < |bs|
      ensures var ie := IndexOf(bs, crc)[i];
              ie.lastKey == LastKey(bs[i]) && DecodeBlock(file, ie.offset, ie.size, crc) == Some(AllStored(bs[i]))
    {
      IndexedBlock(bs, crc, file, i);
    }
  }

  // ---------- checksums ----------

  /** A stretch that decodes as a block lies in the file, and the four bytes at its end are the checksum
      of all but its last eight. */
  lemma {:induction false} BlockChecked(file: Bytes, offset: nat, size: nat, crc: Checksum)
    requires DecodeBlock(file, offset, size, crc).Some?
    ensures 8 <= size && offset + size <= |file|
    ensures crc(file[offset..offset + size - 8]) == GetLE(file[offset + size - 4..offset + size])
    ensures |DecodeBlock(file, offset, size, crc).value| == GetLE(file[offset + size - 8..offset + size - 4])
  {
    hide DecodeEntry;
    var block := file[offset..offset + size];
    Slice(file, offset, size, 0, size - 8);
    Slice(file, offset, size, size - 4, size);
    Slice(file, offset, size, size - 8, size - 4);
    DecodedCount(block[..size - 8], FromU32(block[size - 8..size - 4]));
  }

  lemma {:induction false} Slice(file: Bytes, offset: nat, size: nat, a: nat, b: nat)
    requires offset + size <= |file| && a <= b <= size
    ensures file[offset..offset + size][a..b] == file[offset + a..offset + b]
  {
    var l, r := file[offset..offset + size][a..b], file[offset + a..offset + b];
    assert |l| == |r| && forall i :: 0 <= i < |l| ==> l[i] == file[offset + a + i] == r[i];
  }

  lemma {:induction false} DecodedCount(data: Bytes, n: nat)
    requires DecodeEntries(data, n).Some?
    ensures |DecodeEntries(data, n).value| == n
  {
    if n > 0 {
      DecodedCount(data[DecodeEntry(data).value.1..], n - 1);
    }
  }

  /** The end of a checked part holds the checksum of the rest. */
  ghost predicate Sealed(part: Bytes, trailer: nat, crc: Checksum)
  {
    4 <= trailer <= |part| && crc(part[..|part| - trailer]) == GetLE(part[|part| - 4..])
  }

  /** A file that opens ends with a footer of the right checksum, magic number and version, which points
      to an index and a filter of the right checksums. */
  lemma {:induction false} OpenChecked(file: Bytes, crc: Checksum)
    requires Open(file, crc).Some?
    ensures |file| >= 48 && Sealed(file[|file| - 48..], 4, crc)
    ensures var f := file[|file| - 48..];
            && GetLE(f[32..40]) == 0x4B56_5353_5442_4C00 && GetLE(f[40..44]) == 1
            && GetLE(f[..8]) + GetLE(f[8..12]) <= |file| && GetLE(f[12..20]) + GetLE(f[20..24]) <= |file|
            && Sealed(file[GetLE(f[..8])..GetLE(f[..8]) + GetLE(f[8..12])], 8, crc)
            && Sealed(file[GetLE(f[12..20])..GetLE(f[12..20]) + GetLE(f[20..24])], 4, crc)
  {
    hide DecodeIndex;
    hide Bloom.Decode;
    hide GetLE;
    var f := file[|file| - 48..];
    FooterChecked(f, crc);
    var o := ParseFooter(f, crc).value;
    IndexChecked(file[o.indexOffset..o.indexOffset + o.indexSize], crc);
    FilterChecked(file[o.bloomOffset..o.bloomOffset + o.bloomSize], crc);
  }

  lemma {:induction false} FooterChecked(f: Bytes, crc: Checksum)
    requires |f| == FOOTER_SIZE && ParseFooter(f, crc).Some?
    ensures Sealed(f, 4, crc) && GetLE(f[32..40]) == 0x4B56_5353_5442_4C00 && GetLE(f[40..44]) == 1
    ensures var o := ParseFooter(f, crc).value;
            && o.indexOffset == GetLE(f[..8]) && o.indexSize == GetLE(f[8..12])
            && o.bloomOffset == GetLE(f[12..20]) && o.bloomSize == GetLE(f[20..24])
  {
    hide GetLE;
    assert f[44..48] == f[44..];
  }

  lemma {:induction false} IndexChecked(block: Bytes, crc: Checksum)
    requires ParseIndex(block, crc).Some?
    ensures Sealed(block, 8, crc)
  {
    hide GetLE;
    hide DecodeIndex;
  }

  lemma {:induction false} FilterChecked(block: Bytes, crc: Checksum)
    requires ParseFilter(block, crc).Some?
    ensures Sealed(block, 4, crc)
  {
    hide GetLE;
    hide Bloom.Decode;
  }
}
