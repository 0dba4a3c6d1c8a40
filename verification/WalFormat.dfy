/** The write-ahead log as bytes (wal/wal.go): records, files cut at any byte, and replay. */
module WalFormat {
  import opened Prelude
  import opened Keys
  import opened Writes
  import opened ByteCodec

  const PUT: Byte := 1
  const DELETE: Byte := 2

  /** A missing value is Go's nil. */
  datatype WalRecord = WalRecord(typ: Byte, key: Bytes, value: Option<Bytes>)

  /** The record without checksum and length. */
  function Payload(rec: WalRecord): (r: Bytes)
    ensures |r| == 9 + |rec.key| + |ValueBytes(rec.value)|
  {
    [rec.typ] + U32(|rec.key|) + rec.key + U32(|ValueBytes(rec.value)|) + ValueBytes(rec.value)
  }

  /** encodeRecord. */
  function EncodeRecord(rec: WalRecord, crc: Checksum): (r: Bytes)
    ensures |r| == 8 + |Payload(rec)|
  {
    U32(crc(Payload(rec))) + U32(|Payload(rec)|) + Payload(rec)
  }

  /** decodeRecordData. */
  function DecodePayload(data: Bytes): (r: Option<WalRecord>)
  {
    if |data| < 9 then None
    else
      var keyEnd := 5 + FromU32(data[1..5]);
      if keyEnd + 4 > |data| then None
      else
        var valEnd := keyEnd + 4 + FromU32(data[keyEnd..keyEnd + 4]);
        if valEnd > |data| then None
        else
          var value := if valEnd > keyEnd + 4 then Some(data[keyEnd + 4..valEnd]) else None;
          Some(WalRecord(data[0], data[5..keyEnd], value))
  }

  /** What a file delivers: its records up to the first that is short or fails its checksum. */
  function Replayed(data: Bytes, crc: Checksum): (r: seq<WalRecord>)
    decreases |data|
  {
    if |data| < 8 then []
    else
      var end := 8 + FromU32(data[4..8]);
      if |data| < end then []
      else if crc(data[8..end]) != FromU32(data[..4]) then []
      else
        var rec := DecodePayload(data[8..end]);
        if rec.None? then [] else [rec.value] + Replayed(data[end..], crc)
  }

  /** Lengths are kept in 32 bits. */
  predicate Fits(rec: WalRecord)
  {
    |Payload(rec)| < TWO32
  }

  /** A record as it is read back: an empty value comes back as nil. */
  function AsRead(rec: WalRecord): (r: WalRecord)
  {
    if rec.value == Some([]) then rec.(value := None) else rec
  }

  function AllAsRead(recs: seq<WalRecord>): (r: seq<WalRecord>)
    ensures |r| == |recs| && forall i :: 0 <= i < |r| ==> r[i] == AsRead(recs[i])
  {
    seq(|recs|, i requires 0 <= i < |recs| => AsRead(recs[i]))
  }

  function Data(recs: seq<WalRecord>, crc: Checksum): (r: Bytes)
  {
    if recs == [] then [] else EncodeRecord(recs[0], crc) + Data(recs[1..], crc)
  }

  lemma {:induction false} PayloadBack(rec: WalRecord)
    requires Fits(rec)
    ensures DecodePayload(Payload(rec)) == Some(AsRead(rec))
  {
    hide U32;
    hide FromU32;
    var p, k, v := Payload(rec), rec.key, ValueBytes(rec.value);
    var keyEnd := 5 + |k|;
    assert p[1..5] == U32(|k|);
    U32Back(|k|);
    assert p[keyEnd..keyEnd + 4] == U32(|v|);
    U32Back(|v|);
    assert p[5..keyEnd] == k;
    assert p[keyEnd + 4..keyEnd + 4 + |v|] == v;
  }

  /** The header of a record, in front of anything. */
  lemma {:induction false} HeaderBack(rec: WalRecord, crc: Checksum, rest: Bytes)
    requires Fits(rec)
    ensures var d := EncodeRecord(rec, crc) + rest;
            && FromU32(d[..4]) == crc(Payload(rec)) && FromU32(d[4..8]) == |Payload(rec)|
            && d[8..8 + |Payload(rec)|] == Payload(rec) && d[8 + |Payload(rec)|..] == rest
  {
    hide U32;
    hide FromU32;
    hide Payload;
    var p := Payload(rec);
    var d := EncodeRecord(rec, crc) + rest;
    assert d[..4] == U32(crc(p));
    assert d[4..8] == U32(|p|);
    U32Back(crc(p));
    U32Back(|p|);
  }

  lemma {:induction false} ReplayOne(rec: WalRecord, crc: Checksum, rest: Bytes)
    requires Fits(rec)
    ensures Replayed(EncodeRecord(rec, crc) + rest, crc) == [AsRead(rec)] + Replayed(rest, crc)
  {
    hide Payload;
    hide DecodePayload;
    hide EncodeRecord;
    hide FromU32;
    HeaderBack(rec, crc, rest);
    PayloadBack(rec);
  }

  /** A record cut short delivers nothing. */
  lemma {:induction false} ReplayTorn(rec: WalRecord, crc: Checksum, c: nat)
    requires Fits(rec) && c < |EncodeRecord(rec, crc)|
    ensures Replayed(EncodeRecord(rec, crc)[..c], crc) == []
  {
    hide Payload;
    hide DecodePayload;
    hide FromU32;
    var e := EncodeRecord(rec, crc);
    HeaderBack(rec, crc, []);
    assert e + [] == e;
    if c >= 8 {
      assert e[..c][4..8] == e[4..8];
    }
  }

  /** How many whole records the first c bytes hold. */
  function Whole(recs: seq<WalRecord>, crc: Checksum, c: nat): (r: nat)
    ensures r <= |recs|
  {
    if recs == [] || c < |EncodeRecord(recs[0], crc)| then 0
    else 1 + Whole(recs[1..], crc, c - |EncodeRecord(recs[0], crc)|)
  }

  lemma {:induction false} WholeIsMost(recs: seq<WalRecord>, crc: Checksum, c: nat)
    ensures var w := Whole(recs, crc, c);
            |Data(recs[..w], crc)| <= c && (w < |recs| ==> c < |Data(recs[..w + 1], crc)|)
  {
    hide EncodeRecord;
    if recs != [] {
      var n := |EncodeRecord(recs[0], crc)|;
      if c < n {
        assert recs[..1][1..] == [];
      } else {
        var w := Whole(recs[1..], crc, c - n);
        WholeIsMost(recs[1..], crc, c - n);
        assert recs[..w + 1][1..] == recs[1..][..w];
        assert w + 1 < |recs| ==> recs[..w + 2][1..] == recs[1..][..w + 1];
      }
    }
  }

  lemma {:induction false} AsReadCons(recs: seq<WalRecord>, w: nat)
    requires recs != [] && w < |recs|
    ensures AllAsRead(recs[..w + 1]) == [AsRead(recs[0])] + AllAsRead(recs[1..][..w])
  {
    assert recs[..w + 1] == [recs[0]] + recs[1..][..w];
  }

  /** Replay of a log cut at any byte: exactly the records that fit whole. */
  lemma {:induction false} CutReplay(recs: seq<WalRecord>, crc: Checksum, c: nat)
    requires (forall i :: 0 <= i < |recs| ==> Fits(recs[i])) && c <= |Data(recs, crc)|
    ensures Replayed(Data(recs, crc)[..c], crc) == AllAsRead(recs[..Whole(recs, crc, c)])
    decreases |recs|
  {
    hide EncodeRecord;
    hide Replayed;
    hide Fits;
    hide AllAsRead;
    if recs == [] {
      NothingReplayed(crc);
    } else {
      var e, rest := EncodeRecord(recs[0], crc), Data(recs[1..], crc);
      if c < |e| {
        assert (e + rest)[..c] == e[..c];
        ReplayTorn(recs[0], crc, c);
      } else {
        assert (e + rest)[..c] == e + rest[..c - |e|];
        ReplayOne(recs[0], crc, rest[..c - |e|]);
        CutReplay(recs[1..], crc, c - |e|);
        AsReadCons(recs, Whole(recs[1..], crc, c - |e|));
      }
    }
  }

  lemma {:induction false} NothingReplayed(crc: Checksum)
    ensures Replayed([], crc) == []
  {
  }

  lemma {:induction false} FullReplay(recs: seq<WalRecord>, crc: Checksum)
    requires forall i :: 0 <= i < |recs| ==> Fits(recs[i])
    ensures Replayed(Data(recs, crc), crc) == AllAsRead(recs)
  {
    var d := Data(recs, crc);
    assert d[..|d|] == d;
    CutReplay(recs, crc, |d|);
    WholeAll(recs, crc);
    assert recs[..|recs|] == recs;
  }

  lemma {:induction false} WholeAll(recs: seq<WalRecord>, crc: Checksum)
    ensures Whole(recs, crc, |Data(recs, crc)|) == |recs|
  {
    if recs != [] {
      WholeAll(recs[1..], crc);
    }
  }

  lemma {:induction false} DataAppend(a: seq<WalRecord>, b: seq<WalRecord>, crc: Checksum)
    ensures Data(a + b, crc) == Data(a, crc) + Data(b, crc)
  {
    if a == [] {
      assert a + b == b;
    } else {
      assert (a + b)[1..] == a[1..] + b;
      DataAppend(a[1..], b, crc);
    }
  }

  // ---------- appending after a cut ----------

  lemma {:induction false} DataPrefix(recs: seq<WalRecord>, w: nat, crc: Checksum)
    requires w <= |recs|
    ensures Data(recs[..w], crc) <= Data(recs, crc)
  {
    hide EncodeRecord;
    assert recs == recs[..w] + recs[w..];
    DataAppend(recs[..w], recs[w..], crc);
  }

  /** After a cut between records, what is appended later is replayed too. */
  lemma {:induction false} AppendAfterCleanCut(recs: seq<WalRecord>, w: nat, more: seq<WalRecord>, crc: Checksum)
    requires (forall i :: 0 <= i < |recs| ==> Fits(recs[i])) && (forall i :: 0 <= i < |more| ==> Fits(more[i]))
             && w <= |recs|
    ensures |Data(recs[..w], crc)| <= |Data(recs, crc)|
    ensures Replayed(Data(recs, crc)[..|Data(recs[..w], crc)|] + Data(more, crc), crc) == AllAsRead(recs[..w] + more)
  {
    hide EncodeRecord;
    hide Replayed;
    hide Fits;
    hide AllAsRead;
    DataPrefix(recs, w, crc);
    assert Data(recs, crc)[..|Data(recs[..w], crc)|] == Data(recs[..w], crc);
    hide Data;
    DataAppend(recs[..w], more, crc);
    FullReplay(recs[..w] + more, crc);
  }

  /** The bytes begin with what reads as a whole record. */
  predicate Resumes(d: Bytes, crc: Checksum)
  {
    |d| >= 8 &&
    var end := 8 + FromU32(d[4..8]);
    end <= |d| && crc(d[8..end]) == FromU32(d[..4]) && DecodePayload(d[8..end]).Some?
  }

  lemma {:induction false} ReplayAfter(recs: seq<WalRecord>, crc: Checksum, rest: Bytes)
    requires forall i :: 0 <= i < |recs| ==> Fits(recs[i])
    ensures Replayed(Data(recs, crc) + rest, crc) == AllAsRead(recs) + Replayed(rest, crc)
  {
    hide EncodeRecord;
    hide Replayed;
    hide Fits;
    if recs == [] {
      assert Data(recs, crc) + rest == rest && AllAsRead(recs) == [];
    } else {
      var e, tail := EncodeRecord(recs[0], crc), Data(recs[1..], crc);
      assert (e + tail) + rest == e + (tail + rest);
      ReplayOne(recs[0], crc, tail + rest);
      ReplayAfter(recs[1..], crc, rest);
      assert AllAsRead(recs) == [AsRead(recs[0])] + AllAsRead(recs[1..]);
    }
  }

  /** Reopening does not truncate the file. After a cut at any byte within a record, whatever was
      appended later is lost, all of it, unless the bytes from the cut record on happen to read as a
      record themselves. */
  lemma {:induction false} TornTailHides(recs: seq<WalRecord>, rec: WalRecord, c: nat, later: seq<WalRecord>,
                                         crc: Checksum)
    requires (forall i :: 0 <= i < |recs| ==> Fits(recs[i])) && 0 < c < |EncodeRecord(rec, crc)|
    ensures var tail := EncodeRecord(rec, crc)[..c] + Data(later, crc);
            Replayed(Data(recs, crc) + tail, crc) == AllAsRead(recs) <==> !Resumes(tail, crc)
  {
    hide EncodeRecord;
    hide Fits;
    hide FromU32;
    hide DecodePayload;
    hide Data;
    ReplayAfter(recs, crc, EncodeRecord(rec, crc)[..c] + Data(later, crc));
  }

  /** If the header was written, the bytes that follow the cut are taken for the missing end of the
      record: they must be enough, and the mixture must fit the checksum of the record. */
  lemma {:induction false} MixedRecord(rec: WalRecord, c: nat, more: Bytes, crc: Checksum)
    requires Fits(rec) && 8 <= c < |EncodeRecord(rec, crc)|
    ensures var missing := |EncodeRecord(rec, crc)| - c;
            Resumes(EncodeRecord(rec, crc)[..c] + more, crc) <==>
            missing <= |more| &&
            var mixed := Payload(rec)[..c - 8] + more[..missing];
            crc(mixed) == crc(Payload(rec)) && DecodePayload(mixed).Some?
  {
    hide Payload;
    hide DecodePayload;
    hide FromU32;
    var e := EncodeRecord(rec, crc);
    var d := e[..c] + more;
    HeaderBack(rec, crc, []);
    assert e + [] == e;
    assert d[..4] == e[..4] && d[4..8] == e[4..8];
    var missing := |e| - c;
    if missing <= |more| {
      assert d[8..|e|] == e[8..c] + more[..missing];
      assert e[8..c] == e[8..][..c - 8] && e[8..] == Payload(rec);
    }
  }

  const Long := WalRecord(PUT, [1], Some(seq(100, i => 7)))
  const Short := WalRecord(PUT, [2], Some([8]))

  /** A record of 118 bytes cut after its header and a short one appended later, which is never
      replayed, whatever the checksum function. */
  lemma {:induction false} LaterRecordLost(crc: Checksum)
    ensures |EncodeRecord(Long, crc)| == 118 && Fits(Short)
    ensures Replayed(EncodeRecord(Long, crc)[..8] + Data([Short], crc), crc) == []
    ensures Replayed(Data([Short], crc), crc) == [Short]
  {
    hide Replayed;
    assert [Short][1..] == [] && Data([], crc) == [];
    MixedRecord(Long, 8, Data([Short], crc), crc);
    TornTailHides([], Long, 8, [Short], crc);
    var tail := EncodeRecord(Long, crc)[..8] + Data([Short], crc);
    assert Data([], crc) + tail == tail && AllAsRead([]) == [];
    FullReplay([Short], crc);
  }

  // ---------- what the engine makes of it ----------

  /** The record Put or Delete writes. */
  function ToWal(r: Record): (w: WalRecord)
  {
    WalRecord(if r.value.Some? then PUT else DELETE, r.key, r.value)
  }

  /** What the engine's replay does with a record: a put of nil is a tombstone. */
  function Effect(w: WalRecord): (r: Option<(Key, Option<Bytes>)>)
  {
    if w.typ == PUT then Some((w.key, w.value))
    else if w.typ == DELETE then Some((w.key, None))
    else None
  }

  /** Logged and replayed, every write has its effect again, except a put of the empty value, which
      has become a delete. */
  lemma {:induction false} EmptyPutIsDelete(recs: seq<WalRecord>, crc: Checksum, i: nat)
    requires (forall j :: 0 <= j < |recs| ==> Fits(recs[j])) && i < |recs|
    ensures |Replayed(Data(recs, crc), crc)| == |recs|
    ensures var w, r := recs[i], Replayed(Data(recs, crc), crc)[i];
            && (Effect(r) == Effect(w) <==> !(w.typ == PUT && w.value == Some([])))
            && (w.typ == PUT && w.value == Some([]) ==> Effect(r) == Some((w.key, None)))
  {
    hide Replayed;
    hide Data;
    hide Fits;
    FullReplay(recs, crc);
  }

  function ToWals(rs: Records): (ws: seq<WalRecord>)
    ensures |ws| == |rs| && forall i :: 0 <= i < |rs| ==> ws[i] == ToWal(rs[i])
  {
    seq(|rs|, i requires 0 <= i < |rs| => ToWal(rs[i]))
  }

  /** The bytes of a log file of the engine. */
  function FileData(rs: Records, crc: Checksum): (r: Bytes)
  {
    Data(ToWals(rs), crc)
  }

  ghost predicate AllFit(rs: Records)
  {
    forall i :: 0 <= i < |rs| ==> Fits(ToWal(rs[i]))
  }

  ghost predicate HaveEffects(out: seq<WalRecord>, rs: Records)
  {
    |out| == |rs| && forall i :: 0 <= i < |rs| ==> Effect(out[i]) == Some((rs[i].key, rs[i].value))
  }

  /** Writes of the engine, logged and cut anywhere, come back as a prefix of themselves. */
  lemma {:induction false} EngineReplay(rs: Records, crc: Checksum, c: nat) returns (n: nat)
    requires AllFit(rs) && c <= |FileData(rs, crc)|
    ensures n <= |rs| && |FileData(rs[..n], crc)| <= c && (n < |rs| ==> c < |FileData(rs[..n + 1], crc)|)
    ensures HaveEffects(Replayed(FileData(rs, crc)[..c], crc), rs[..n])
  {
    hide Replayed;
    hide Fits;
    hide Data;
    var ws := ToWals(rs);
    n := Whole(ws, crc, c);
    CutReplay(ws, crc, c);
    WholeIsMost(ws, crc, c);
    assert ToWals(rs[..n]) == ws[..n];
    if n < |rs| {
      assert ToWals(rs[..n + 1]) == ws[..n + 1];
    }
  }

  lemma {:induction false} EngineReplayAll(rs: Records, crc: Checksum)
    requires AllFit(rs)
    ensures HaveEffects(Replayed(FileData(rs, crc), crc), rs)
  {
    hide Replayed;
    hide Fits;
    hide Data;
    FullReplay(ToWals(rs), crc);
  }
}
