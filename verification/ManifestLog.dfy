/** The manifest (engine/manifest.go): an append-only file of added and removed tables, and the
    per-level lists that its replay rebuilds. */
module ManifestLog {
  import opened Prelude
  import opened Keys
  import opened ByteCodec

  const ADD_FILE: Byte := 1
  const REMOVE_FILE: Byte := 2

  datatype FileMetadata = FileMetadata(fileNum: nat, level: nat, size: nat, minKey: Key, maxKey: Key)

  type Listing = seq<seq<FileMetadata>>

  datatype ManifestRecord = ManifestRecord(typ: Byte, meta: FileMetadata)

  // ---------- records as bytes ----------

  /** encodeManifestRecordPayload. */
  function Payload(r: ManifestRecord): (b: Bytes)
    ensures |b| == 29 + |r.meta.minKey| + |r.meta.maxKey|
  {
    var m := r.meta;
    [r.typ] + U64(m.fileNum) + U32(m.level) + U64(m.size) + U32(|m.minKey|) + m.minKey + U32(|m.maxKey|) + m.maxKey
  }

  /** writeRecord. */
  function Encoded(r: ManifestRecord, crc: Checksum): (b: Bytes)
    ensures |b| == |Payload(r)| + 4
  {
    Payload(r) + U32(crc(Payload(r)))
  }

  /** readRecord: a record, unless the bytes run out or the checksum of what was read is wrong. */
  function ReadRecord(data: Bytes, crc: Checksum): (r: Option<ManifestRecord>)
    ensures r.Some? ==> |Payload(r.value)| + 4 <= |data|
  {
    if |data| < 25 then None
    else
      var minEnd := 25 + FromU32(data[21..25]);
      if minEnd + 4 > |data| then None
      else
        var maxEnd := minEnd + 4 + FromU32(data[minEnd..minEnd + 4]);
        if maxEnd + 4 > |data| then None
        else
          var meta := FileMetadata(FromU64(data[1..9]), FromU32(data[9..13]), FromU64(data[13..21]),
                                   data[25..minEnd], data[minEnd + 4..maxEnd]);
          var rec := ManifestRecord(data[0], meta);
          if crc(Payload(rec)) != FromU32(data[maxEnd..maxEnd + 4]) then None else Some(rec)
  }

  /** Numbers and lengths are kept in 64 and 32 bits. */
  predicate Fits(r: ManifestRecord)
  {
    && r.meta.fileNum < TWO64 && r.meta.level < TWO32 && r.meta.size < TWO64
    && |r.meta.minKey| < TWO32 && |r.meta.maxKey| < TWO32
  }

  lemma {:induction false} FixedBack(r: ManifestRecord, rest: Bytes)
    requires Fits(r)
    ensures var d := Payload(r) + rest;
            && d[0] == r.typ && FromU64(d[1..9]) == r.meta.fileNum && FromU32(d[9..13]) == r.meta.level
            && FromU64(d[13..21]) == r.meta.size && FromU32(d[21..25]) == |r.meta.minKey|
  {
    hide U32;
    hide U64;
    hide FromU32;
    hide FromU64;
    var d := Payload(r) + rest;
    assert d[1..9] == U64(r.meta.fileNum);
    assert d[9..13] == U32(r.meta.level);
    assert d[13..21] == U64(r.meta.size);
    assert d[21..25] == U32(|r.meta.minKey|);
    U64Back(r.meta.fileNum);
    U32Back(r.meta.level);
    U64Back(r.meta.size);
    U32Back(|r.meta.minKey|);
  }

  lemma {:induction false} KeysBack(r: ManifestRecord, rest: Bytes)
    requires Fits(r)
    ensures var d := Payload(r) + rest;
            var minEnd := 25 + |r.meta.minKey|;
            var maxEnd := minEnd + 4 + |r.meta.maxKey|;
            && d[25..minEnd] == r.meta.minKey && FromU32(d[minEnd..minEnd + 4]) == |r.meta.maxKey|
            && d[minEnd + 4..maxEnd] == r.meta.maxKey && maxEnd == |Payload(r)| && d[maxEnd..] == rest
  {
    hide U32;
    hide U64;
    hide FromU32;
    var d := Payload(r) + rest;
    var minEnd := 25 + |r.meta.minKey|;
    assert d[minEnd..minEnd + 4] == U32(|r.meta.maxKey|);
    U32Back(|r.meta.maxKey|);
  }

  lemma {:induction false} ReadBack(r: ManifestRecord, crc: Checksum, rest: Bytes)
    requires Fits(r)
    ensures ReadRecord(Encoded(r, crc) + rest, crc) == Some(r)
    ensures (Encoded(r, crc) + rest)[|Encoded(r, crc)|..] == rest
  {
    hide U32;
    hide U64;
    hide FromU32;
    hide FromU64;
    hide Payload;
    var p, c := Payload(r), U32(crc(Payload(r)));
    var d := Encoded(r, crc) + rest;
    assert d == p + (c + rest);
    FixedBack(r, c + rest);
    KeysBack(r, c + rest);
    assert d[|p|..|p| + 4] == c;
    U32Back(crc(p));
  }

  lemma {:induction false} TornRead(r: ManifestRecord, crc: Checksum, c: nat)
    requires Fits(r) && c < |Encoded(r, crc)|
    ensures ReadRecord(Encoded(r, crc)[..c], crc).None?
  {
    hide U32;
    hide U64;
    hide FromU32;
    hide FromU64;
    hide Payload;
    var e := Encoded(r, crc);
    var d := e[..c];
    var s := U32(crc(Payload(r)));
    FixedBack(r, s);
    KeysBack(r, s);
    assert e == Payload(r) + s;
    if c >= 25 {
      var minEnd := 25 + |r.meta.minKey|;
      assert d[21..25] == e[21..25];
      if minEnd + 4 <= c {
        assert d[minEnd..minEnd + 4] == e[minEnd..minEnd + 4];
      }
    }
  }

  // ---------- the lists ----------

  /** The list without the first file of that number. */
  function WithoutFirst(files: seq<FileMetadata>, num: nat): (r: seq<FileMetadata>)
  {
    if files == [] then []
    else if files[0].fileNum == num then files[1..]
    else [files[0]] + WithoutFirst(files[1..], num)
  }

  /** applyRecord. */
  function Applied(ls: Listing, r: ManifestRecord): (ls': Listing)
    ensures |ls'| == |ls|
  {
    var l := r.meta.level;
    if l >= |ls| then ls
    else if r.typ == ADD_FILE then ls[l := ls[l] + [r.meta]]
    else if r.typ == REMOVE_FILE then ls[l := WithoutFirst(ls[l], r.meta.fileNum)]
    else ls
  }

  function AppliedAll(ls: Listing, rs: seq<ManifestRecord>): (ls': Listing)
    ensures |ls'| == |ls|
  {
    if rs == [] then ls else Applied(AppliedAll(ls, rs[..|rs| - 1]), rs[|rs| - 1])
  }

  function Data(rs: seq<ManifestRecord>, crc: Checksum): (b: Bytes)
  {
    if rs == [] then [] else Encoded(rs[0], crc) + Data(rs[1..], crc)
  }

  /** replay: the records read until one cannot be. */
  function Readable(data: Bytes, crc: Checksum): (rs: seq<ManifestRecord>)
    decreases |data|
  {
    var r := ReadRecord(data, crc);
    if r.None? then [] else [r.value] + Readable(data[|Payload(r.value)| + 4..], crc)
  }

  function Whole(rs: seq<ManifestRecord>, crc: Checksum, c: nat): (n: nat)
    ensures n <= |rs|
  {
    if rs == [] || c < |Encoded(rs[0], crc)| then 0 else 1 + Whole(rs[1..], crc, c - |Encoded(rs[0], crc)|)
  }

  lemma {:induction false} WholeIsMost(rs: seq<ManifestRecord>, crc: Checksum, c: nat)
    ensures var n := Whole(rs, crc, c);
            |Data(rs[..n], crc)| <= c && (n < |rs| ==> c < |Data(rs[..n + 1], crc)|)
  {
    hide Encoded;
    if rs != [] {
      var e := |Encoded(rs[0], crc)|;
      if c < e {
        assert rs[..1][1..] == [];
      } else {
        var n := Whole(rs[1..], crc, c - e);
        WholeIsMost(rs[1..], crc, c - e);
        assert rs[..n + 1][1..] == rs[1..][..n];
        assert n + 1 < |rs| ==> rs[..n + 2][1..] == rs[1..][..n + 1];
      }
    }
  }

  /** A manifest cut at any byte reads as the records that fit whole. */
  lemma {:induction false} CutReads(rs: seq<ManifestRecord>, crc: Checksum, c: nat)
    requires (forall i :: 0 <= i < |rs| ==> Fits(rs[i])) && c <= |Data(rs, crc)|
    ensures Readable(Data(rs, crc)[..c], crc) == rs[..Whole(rs, crc, c)]
    decreases |rs|
  {
    hide Encoded;
    hide ReadRecord;
    hide Fits;
    hide Payload;
    if rs == [] {
      NothingReadable(crc);
    } else {
      var e, rest := Encoded(rs[0], crc), Data(rs[1..], crc);
      if c < |e| {
        assert (e + rest)[..c] == e[..c];
        TornRead(rs[0], crc, c);
      } else {
        var rest' := rest[..c - |e|];
        assert (e + rest)[..c] == e + rest';
        ReadBack(rs[0], crc, rest');
        CutReads(rs[1..], crc, c - |e|);
        var n := Whole(rs[1..], crc, c - |e|);
        assert rs[..n + 1] == [rs[0]] + rs[1..][..n];
      }
    }
  }

  lemma {:induction false} NothingReadable(crc: Checksum)
    ensures Readable([], crc) == []
  {
  }

  lemma {:induction false} AllReadable(rs: seq<ManifestRecord>, crc: Checksum)
    requires forall i :: 0 <= i < |rs| ==> Fits(rs[i])
    ensures Readable(Data(rs, crc), crc) == rs
  {
    var d := Data(rs, crc);
    assert d[..|d|] == d;
    CutReads(rs, crc, |d|);
    WholeAll(rs, crc);
    assert rs[..|rs|] == rs;
  }

  lemma {:induction false} WholeAll(rs: seq<ManifestRecord>, crc: Checksum)
    ensures Whole(rs, crc, |Data(rs, crc)|) == |rs|
  {
    if rs != [] {
      WholeAll(rs[1..], crc);
    }
  }

  lemma {:induction false} DataSnoc(rs: seq<ManifestRecord>, r: ManifestRecord, crc: Checksum)
    ensures Data(rs + [r], crc) == Data(rs, crc) + Encoded(r, crc)
  {
    hide Encoded;
    if rs == [] {
      assert rs + [r] == [r];
      assert [r][1..] == [];
      assert Data([], crc) == [];
    } else {
      assert (rs + [r])[1..] == rs[1..] + [r];
      DataSnoc(rs[1..], r, crc);
    }
  }

  lemma {:induction false} ReadableFits(data: Bytes, crc: Checksum)
    ensures forall i :: 0 <= i < |Readable(data, crc)| ==> Fits(Readable(data, crc)[i])
    decreases |data|
  {
    hide Payload;
    var r := ReadRecord(data, crc);
    if r.Some? {
      ReadableFits(data[|Payload(r.value)| + 4..], crc);
    }
  }

  /** Opening the file of a manifest rebuilds its lists; opening a part of it, cut at any byte, gives
      the lists after those calls that were written whole. */
  lemma {:induction false} Reopens(rs: seq<ManifestRecord>, crc: Checksum, n: nat, c: nat)
    requires (forall i :: 0 <= i < |rs| ==> Fits(rs[i])) && c <= |Data(rs, crc)|
    ensures AppliedAll(NoFiles(n), Readable(Data(rs, crc), crc)) == AppliedAll(NoFiles(n), rs)
    ensures AppliedAll(NoFiles(n), Readable(Data(rs, crc)[..c], crc)) == AppliedAll(NoFiles(n), rs[..Whole(rs, crc, c)])
  {
    hide Readable;
    hide Data;
    hide Fits;
    AllReadable(rs, crc);
    CutReads(rs, crc, c);
  }

  function NoFiles(n: nat): (ls: Listing)
    ensures |ls| == n
  {
    seq(n, i => [])
  }

  // ---------- the manifest ----------

  class Manifest {
    const crc: Checksum
    var file: Bytes
    var levels: Listing
    ghost var calls: seq<ManifestRecord>    // those read at opening, and AddFile and RemoveFile since
    ghost var sound: bool                   // the file found had no torn record at its end

    /** The lists are the effect of the calls, and unless a torn record was found, the file has them. */
    ghost predicate Valid()
      reads this
    {
      && (forall i :: 0 <= i < |calls| ==> Fits(calls[i]))
      && levels == AppliedAll(NoFiles(|levels|), calls)
      && (sound ==> file == Data(calls, crc))
    }

    /** OpenManifest on any bytes. */
    constructor (data: Bytes, maxLevels: nat, crc: Checksum)
      ensures Valid() && this.crc == crc && file == data && calls == Readable(data, crc)
      ensures |levels| == maxLevels && (sound <==> data == Data(calls, crc))
    {
      hide Data;
      hide Fits;
      this.crc, file := crc, data;
      var ls := Replay(data, maxLevels, crc);
      levels := ls;
      calls := Readable(data, crc);
      sound := data == Data(Readable(data, crc), crc);
      new;
      ReadableFits(data, crc);
    }

    method AddFile(meta: FileMetadata)
      requires Valid() && Fits(ManifestRecord(ADD_FILE, meta))
      modifies `file, `levels, `calls
      ensures Valid() && calls == old(calls) + [ManifestRecord(ADD_FILE, meta)]
      ensures file == old(file) + Encoded(ManifestRecord(ADD_FILE, meta), crc)
      ensures levels == Applied(old(levels), ManifestRecord(ADD_FILE, meta))
    {
      hide Encoded;
      hide Data;
      hide Fits;
      ghost var rec := ManifestRecord(ADD_FILE, meta);
      DataSnoc(calls, rec, crc);
      AppliedSnoc(NoFiles(|levels|), calls, rec);
      file := file + Encoded(ManifestRecord(ADD_FILE, meta), crc);
      if meta.level < |levels| {
        levels := levels[meta.level := levels[meta.level] + [meta]];
      }
      calls := calls + [rec];
    }

    method RemoveFile(num: nat, level: nat)
      requires Valid() && num < TWO64 && level < TWO32
      modifies `file, `levels, `calls
      ensures Valid() && calls == old(calls) + [Removal(num, level)]
      ensures file == old(file) + Encoded(Removal(num, level), crc)
      ensures levels == Applied(old(levels), Removal(num, level))
    {
      hide Encoded;
      hide Data;
      hide WithoutFirst;
      DataSnoc(calls, Removal(num, level), crc);
      AppliedSnoc(NoFiles(|levels|), calls, Removal(num, level));
      file := file + Encoded(Removal(num, level), crc);
      calls := calls + [Removal(num, level)];
      if level < |levels| {
        var files := RemoveOne(levels[level], num);
        levels := levels[level := files];
      }
    }
  }

  // ---------- appending after a cut ----------

  lemma {:induction false} ReadableOne(r: ManifestRecord, crc: Checksum, rest: Bytes)
    requires Fits(r)
    ensures Readable(Encoded(r, crc) + rest, crc) == [r] + Readable(rest, crc)
  {
    hide Encoded;
    hide ReadRecord;
    hide Fits;
    hide Payload;
    ReadBack(r, crc, rest);
  }

  lemma {:induction false} ReadableAfter(rs: seq<ManifestRecord>, crc: Checksum, rest: Bytes)
    requires forall i :: 0 <= i < |rs| ==> Fits(rs[i])
    ensures Readable(Data(rs, crc) + rest, crc) == rs + Readable(rest, crc)
  {
    hide Encoded;
    hide Readable;
    hide Fits;
    if rs == [] {
      assert Data(rs, crc) + rest == rest;
    } else {
      var e, tail := Encoded(rs[0], crc), Data(rs[1..], crc);
      assert (e + tail) + rest == e + (tail + rest);
      ReadableOne(rs[0], crc, tail + rest);
      ReadableAfter(rs[1..], crc, rest);
      assert rs == [rs[0]] + rs[1..];
    }
  }

  /** Opening does not truncate the file. After a cut within a record no later call is read again,
      unless the bytes from the cut record on happen to read as a record. */
  lemma {:induction false} TornRecordHides(rs: seq<ManifestRecord>, r: ManifestRecord, c: nat,
                                           later: seq<ManifestRecord>, crc: Checksum)
    requires (forall i :: 0 <= i < |rs| ==> Fits(rs[i])) && 0 < c < |Encoded(r, crc)|
    ensures var tail := Encoded(r, crc)[..c] + Data(later, crc);
            Readable(Data(rs, crc) + tail, crc) == rs <==> ReadRecord(tail, crc).None?
  {
    hide Encoded;
    hide ReadRecord;
    hide Fits;
    hide Payload;
    hide Data;
    ReadableAfter(rs, crc, Encoded(r, crc)[..c] + Data(later, crc));
  }

  /** The bytes up to the end of the second key are the payload of what they are read as. */
  lemma {:induction false} PayloadOf(d: Bytes, minEnd: nat, maxEnd: nat)
    requires 25 <= minEnd && minEnd + 4 <= maxEnd <= |d|
    requires minEnd == 25 + FromU32(d[21..25]) && maxEnd == minEnd + 4 + FromU32(d[minEnd..minEnd + 4])
    ensures var meta := FileMetadata(FromU64(d[1..9]), FromU32(d[9..13]), FromU64(d[13..21]),
                                     d[25..minEnd], d[minEnd + 4..maxEnd]);
            Payload(ManifestRecord(d[0], meta)) == d[..maxEnd]
  {
    hide U32;
    hide U64;
    hide FromU32;
    hide FromU64;
    U64Bytes(d[1..9]);
    U32Bytes(d[9..13]);
    U64Bytes(d[13..21]);
    U32Bytes(d[21..25]);
    U32Bytes(d[minEnd..minEnd + 4]);
    assert d[..maxEnd] ==
      [d[0]] + d[1..9] + d[9..13] + d[13..21] + d[21..25] + d[25..minEnd] + d[minEnd..minEnd + 4] +
          d[minEnd + 4..maxEnd];
  }

  /** If both key lengths were written, the bytes that follow the cut are taken for the missing end of
      the record: they must be enough, and the mixture must fit the checksum at its end. */
  lemma {:induction false} MixedRecord(r: ManifestRecord, c: nat, more: Bytes, crc: Checksum)
    requires Fits(r) && 29 + |r.meta.minKey| <= c < |Encoded(r, crc)|
    ensures var missing := |Encoded(r, crc)| - c;
            ReadRecord(Encoded(r, crc)[..c] + more, crc).Some? <==>
            missing <= |more| &&
            var mixed := Encoded(r, crc)[..c] + more[..missing];
            var end := |mixed| - 4;
            crc(mixed[..end]) == FromU32(mixed[end..])
  {
    hide U32;
    hide U64;
    hide FromU32;
    hide FromU64;
    hide Payload;
    var e := Encoded(r, crc);
    var d := e[..c] + more;
    var s := U32(crc(Payload(r)));
    var minEnd := 25 + |r.meta.minKey|;
    var maxEnd := minEnd + 4 + |r.meta.maxKey|;
    FixedBack(r, s);
    KeysBack(r, s);
    assert e == Payload(r) + s;
    assert d[21..25] == e[21..25] && d[minEnd..minEnd + 4] == e[minEnd..minEnd + 4];
    var missing := |e| - c;
    if missing <= |more| {
      var mixed := e[..c] + more[..missing];
      assert d == mixed + more[missing..];
      PayloadOf(d, minEnd, maxEnd);
      assert d[..maxEnd] == mixed[..maxEnd] && d[maxEnd..maxEnd + 4] == mixed[maxEnd..];
    }
  }

  const TornAddition := ManifestRecord(ADD_FILE, FileMetadata(1, 0, 0, seq(200, i => 7), []))
  const NextAddition := ManifestRecord(ADD_FILE, FileMetadata(2, 0, 0, [1], [2]))

  /** The addition of a file, cut after the length of its first key, and a later addition: both are
      missing from the lists of every later opening, whatever the checksum function. */
  lemma {:induction false} LaterAdditionLost(crc: Checksum)
    ensures Fits(NextAddition) && |Encoded(TornAddition, crc)| > 25
    ensures Readable(Encoded(TornAddition, crc)[..25] + Data([NextAddition], crc), crc) == []
    ensures Readable(Data([NextAddition], crc), crc) == [NextAddition]
  {
    hide Readable;
    hide U32;
    hide U64;
    hide FromU32;
    hide FromU64;
    var e, d := Encoded(TornAddition, crc), Data([NextAddition], crc);
    var tail := e[..25] + d;
    assert [NextAddition][1..] == [] && Data([], crc) == [];
    FixedBack(TornAddition, U32(crc(Payload(TornAddition))));
    assert tail[21..25] == e[21..25];
    assert ReadRecord(tail, crc).None?;
    TornRecordHides([], TornAddition, 25, [NextAddition], crc);
    assert Data([], crc) + tail == tail;
    AllReadable([NextAddition], crc);
  }

  function Removal(num: nat, level: nat): (r: ManifestRecord)
  {
    ManifestRecord(REMOVE_FILE, FileMetadata(num, level, 0, [], []))
  }

  /** The splice loop. */
  method RemoveOne(files: seq<FileMetadata>, num: nat) returns (r: seq<FileMetadata>)
    ensures r == WithoutFirst(files, num)
  {
    assert files == files[..0] + files[0..];
    for i := 0 to |files|
      invariant WithoutFirst(files, num) == files[..i] + WithoutFirst(files[i..], num)
    {
      if files[i].fileNum == num {
        assert files[i..][1..] == files[i + 1..];
        return files[..i] + files[i + 1..];
      }
      assert files[i..][1..] == files[i + 1..];
      assert files[..i + 1] == files[..i] + [files[i]];
      assert files[..i] + ([files[i]] + WithoutFirst(files[i + 1..], num)) == files[..i + 1] +
             WithoutFirst(files[i + 1..], num);
    }
    assert files[|files|..] == [];
    return files;
  }

  /** replay and applyRecord. */
  method Replay(data: Bytes, maxLevels: nat, crc: Checksum) returns (levels: Listing)
    ensures levels == AppliedAll(NoFiles(maxLevels), Readable(data, crc))
  {
    hide ReadRecord;
    hide Payload;
    hide Applied;
    levels := NoFiles(maxLevels);
    ghost var seen: seq<ManifestRecord> := [];
    var pos := 0;
    assert data[0..] == data;
    while true
      invariant 0 <= pos <= |data| && levels == AppliedAll(NoFiles(maxLevels), seen)
      invariant seen + Readable(data[pos..], crc) == Readable(data, crc)
      decreases |data| - pos
    {
      var rec := ReadRecord(data[pos..], crc);
      if rec.None? {
        assert seen + [] == seen;
        break;
      }
      var n := |Payload(rec.value)| + 4;
      assert data[pos..][n..] == data[pos + n..];
      AppliedSnoc(NoFiles(maxLevels), seen, rec.value);
      levels := Applied(levels, rec.value);
      seen, pos := seen + [rec.value], pos + n;
    }
  }

  lemma {:induction false} AppliedSnoc(ls: Listing, rs: seq<ManifestRecord>, r: ManifestRecord)
    ensures AppliedAll(ls, rs + [r]) == Applied(AppliedAll(ls, rs), r)
  {
    hide Applied;
    assert (rs + [r])[..|rs + [r]| - 1] == rs;
  }
}
