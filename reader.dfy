/**
 * The lump reader: a cursor over one lump's bytes together with the lump's
 * length, identity and version, and the three ways the map reader consumes
 * a lump — as a run of fixed-size records, as the visibility header and
 * blob, and as entity text.
 */
module Reader {
  import opened Wrappers
  import opened Bytes
  import opened Records
  import opened BspFile
  import opened Entity

  /**
   * `read_vec` as a function of the lump bytes and the starting position: a
   * length that `size` does not divide is rejected before anything is read;
   * otherwise `length / size` records are read one after the other and the
   * first failing read ends the run with its error. The result pairs the
   * outcome with the resulting cursor position.
   */
  function ReadVecSpec<T>(data: seq<byte>, pos: nat, length: nat, lump: LumpType, size: nat,
                          decode: seq<byte> -> Result<T, ReadError>): (Result<seq<T>, BspError>, nat)
    requires size > 0
  {
    if length % size != 0 then (Err(InvalidLumpSize(lump, size, length)), pos)
    else
      var (r, p) := ReadRecords(data, pos, length / size, size, decode, []);
      (if r.Err? then Err(BinRead(r.error)) else Ok(r.value), p)
  }

  /** The record decoder `read_vec_ver` hands to each read: the version-aware decoder with the lump's version. */
  function WithVersion<T>(decode: (seq<byte>, u32) -> Result<T, ReadError>, version: u32): seq<byte> -> Result<T, ReadError>
  {
    b => decode(b, version)
  }

  /** Two consecutive little-endian `u32`s, as one eight-byte record. */
  function DecodeOffsetPair(b: seq<byte>): Result<(u32, u32), ReadError>
  {
    if |b| == 8 then Ok((LeU32(b[0..4]), LeU32(b[4..8]))) else Err(UnexpectedEof)
  }

  function Firsts(ps: seq<(u32, u32)>): (r: seq<u32>)
    ensures |r| == |ps| && forall i :: 0 <= i < |ps| ==> r[i] == ps[i].0
  {
    seq(|ps|, i requires 0 <= i < |ps| => ps[i].0)
  }

  function Seconds(ps: seq<(u32, u32)>): (r: seq<u32>)
    ensures |r| == |ps| && forall i :: 0 <= i < |ps| ==> r[i] == ps[i].1
  {
    seq(|ps|, i requires 0 <= i < |ps| => ps[i].1)
  }

  /**
   * `read_visdata` as a function of the lump bytes and the starting
   * position: a lump shorter than two `u32`s is the empty visibility data
   * and nothing is read; otherwise the cluster count, then a PVS and a PAS
   * offset per cluster, then all remaining bytes.
   */
  function ReadVisDataSpec(data: seq<byte>, pos: nat, length: nat): (Result<VisData, BspError>, nat)
    requires pos <= |data|
  {
    if length < 8 then (Ok(EmptyVisData), pos)
    else
      var (c, p1) := U32At(data, pos);
      if c.Err? then (Err(BinRead(c.error)), p1)
      else
        var (offsets, p2) := ReadRecords(data, p1, c.value, 8, DecodeOffsetPair, []);
        if offsets.Err? then (Err(BinRead(offsets.error)), p2)
        else
          ReadRecordsOk(data, p1, c.value, 8, DecodeOffsetPair, []);
          (Ok(VisData(c.value, Firsts(offsets.value), Seconds(offsets.value), data[p2..])), |data|)
  }

  /** `read_entities`: the rest of the lump as text, or an error when the bytes are not valid text. */
  function ReadEntitiesSpec(rest: seq<byte>, toText: seq<byte> -> Option<string>): Result<Entities, BspError>
  {
    match toText(rest)
    case None => Err(InvalidText)
    case Some(s) => Ok(Entity.Entities(s))
  }

  /** Reading a PVS and then a PAS offset is one eight-byte record read, failures included. */
  lemma OffsetPairRead(data: seq<byte>, pos: nat)
    requires pos <= |data|
    ensures var (a, p) := U32At(data, pos);
      a.Ok? ==> var (b, q) := U32At(data, p);
        RecordAt(data, pos, 8, DecodeOffsetPair)
          == (if b.Ok? then (Ok((a.value, b.value)), q) else (Err(b.error), q))
    ensures var (a, p) := U32At(data, pos);
      a.Err? ==> RecordAt(data, pos, 8, DecodeOffsetPair) == (Err(a.error), p)
  {
    if pos + 8 <= |data| {
      var b := data[pos..pos + 8];
      assert b[0..4] == data[pos..pos + 4];
      assert b[4..8] == data[pos + 4..pos + 8];
    }
  }

  class LumpReader {
    const inner: Cursor
    const length: nat
    const lump: LumpType
    const version: u32

    ghost predicate Valid()
      reads this, inner
    {
      inner.Valid() && length == |inner.data|
    }

    /** `LumpReader::new`: a cursor at the start of the lump's bytes, their count, and the given version. */
    constructor (data: seq<byte>, version: u32, lump: LumpType)
      ensures Valid() && fresh(inner)
      ensures inner.data == data && inner.pos == 0
      ensures length == |data| && this.version == version && this.lump == lump
    {
      inner := new Cursor(data);
      length := |data|;
      this.lump := lump;
      this.version := version;
    }

    /** `read_vec`: the records of the lump, each read by `decode` from `size` bytes. */
    method ReadVec<T>(size: nat, decode: seq<byte> -> Result<T, ReadError>) returns (r: Result<seq<T>, BspError>)
      requires Valid() && size > 0
      modifies inner
      ensures Valid()
      ensures (r, inner.pos) == ReadVecSpec(inner.data, old(inner.pos), length, lump, size, decode)
    {
      if length % size != 0 {
        return Err(InvalidLumpSize(lump, size, length));
      }
      var count := length / size;
      ghost var start := inner.pos;
      var entries: seq<T> := [];
      var i := 0;
      while i < count
        invariant inner.Valid() && i <= count
        invariant ReadRecords(inner.data, start, count, size, decode, [])
               == ReadRecords(inner.data, inner.pos, count - i, size, decode, entries)
      {
        var e := inner.ReadRecord(size, decode);
        if e.Err? {
          return Err(BinRead(e.error));
        }
        entries := entries + [e.value];
        i := i + 1;
      }
      return Ok(entries);
    }

    /** `read_vec_ver`: as `read_vec`, with the reader's version passed to every record read. */
    method ReadVecVer<T>(size: nat, decode: (seq<byte>, u32) -> Result<T, ReadError>) returns (r: Result<seq<T>, BspError>)
      requires Valid() && size > 0
      modifies inner
      ensures Valid()
      ensures (r, inner.pos) == ReadVecSpec(inner.data, old(inner.pos), length, lump, size, WithVersion(decode, version))
    {
      r := ReadVec(size, WithVersion(decode, version));
    }

    /** `read_visdata`: the visibility lump's cluster count, offsets and bit-vector blob. */
    method ReadVisData() returns (r: Result<VisData, BspError>)
      requires Valid()
      modifies inner
      ensures Valid()
      ensures (r, inner.pos) == ReadVisDataSpec(inner.data, old(inner.pos), length)
    {
      if length < 8 {
        return Ok(EmptyVisData);
      }
      var clusterCount := inner.ReadU32();
      if clusterCount.Err? {
        return Err(BinRead(clusterCount.error));
      }
      ghost var start := inner.pos;
      ghost var pairs: seq<(u32, u32)> := [];
      var pvsOffsets: seq<u32> := [];
      var pasOffsets: seq<u32> := [];
      var i := 0;
      while i < clusterCount.value
        invariant inner.Valid() && i <= clusterCount.value
        invariant pvsOffsets == Firsts(pairs) && pasOffsets == Seconds(pairs)
        invariant ReadRecords(inner.data, start, clusterCount.value, 8, DecodeOffsetPair, [])
               == ReadRecords(inner.data, inner.pos, clusterCount.value - i, 8, DecodeOffsetPair, pairs)
      {
        OffsetPairRead(inner.data, inner.pos);
        var pvs := inner.ReadU32();
        if pvs.Err? {
          return Err(BinRead(pvs.error));
        }
        var pas := inner.ReadU32();
        if pas.Err? {
          return Err(BinRead(pas.error));
        }
        pairs := pairs + [(pvs.value, pas.value)];
        pvsOffsets := pvsOffsets + [pvs.value];
        pasOffsets := pasOffsets + [pas.value];
        i := i + 1;
      }
      var data := inner.ReadToEnd();
      return Ok(VisData(clusterCount.value, pvsOffsets, pasOffsets, data));
    }

    /** `read_entities`: the rest of the lump, decoded as text by `toText`. */
    method ReadEntities(toText: seq<byte> -> Option<string>) returns (r: Result<Entities, BspError>)
      requires Valid()
      modifies inner
      ensures Valid() && inner.pos == |inner.data|
      ensures r == ReadEntitiesSpec(inner.data[old(inner.pos)..], toText)
    {
      var rest := inner.ReadToEnd();
      match toText(rest)
      case None => r := Err(InvalidText);
      case Some(s) => r := Ok(Entity.Entities(s));
    }
  }

  /**
   * `lump_reader`: a new reader over the bytes `get_lump` returns, with the
   * entry's version and the lump's identity; `get_lump`'s error otherwise.
   */
  method OpenLumpReader(file: BspFile, lump: LumpType, decompress: Decompressor) returns (r: Result<LumpReader, BspError>)
    ensures GetLump(file, lump, decompress).Err? ==> r == Err(GetLump(file, lump, decompress).error)
    ensures GetLump(file, lump, decompress).Ok? ==>
      && r.Ok? && fresh(r.value) && fresh(r.value.inner) && r.value.Valid()
      && r.value.inner.pos == 0 && r.value.lump == lump
      && (r.value.version, r.value.inner.data) == GetLump(file, lump, decompress).value
      && r.value.length == |GetLump(file, lump, decompress).value.1|
  {
    var got := GetLump(file, lump, decompress);
    if got.Err? {
      return Err(got.error);
    }
    var reader := new LumpReader(got.value.1, got.value.0, lump);
    return Ok(reader);
  }

  /** On a length that `size` does not divide, `read_vec` fails at once without moving the cursor. */
  lemma ReadVecSizeMismatch<T>(data: seq<byte>, pos: nat, length: nat, lump: LumpType, size: nat,
                               decode: seq<byte> -> Result<T, ReadError>)
    requires size > 0
    ensures ReadVecSpec(data, pos, length, lump, size, decode).0 == Err(InvalidLumpSize(lump, size, length))
            <==> length % size != 0
    ensures length % size != 0 ==> ReadVecSpec(data, pos, length, lump, size, decode).1 == pos
  {
    if length % size == 0 {
      var (r, p) := ReadRecords(data, pos, length / size, size, decode, []);
      assert ReadVecSpec(data, pos, length, lump, size, decode).0 == (if r.Err? then Err(BinRead(r.error)) else Ok(r.value));
    }
  }

  /** On a size mismatch the record decoder is never consulted: any two decoders give the same outcome. */
  lemma ReadVecMismatchIgnoresDecoder<T>(data: seq<byte>, pos: nat, length: nat, lump: LumpType, size: nat,
                                         decode: seq<byte> -> Result<T, ReadError>,
                                         other: seq<byte> -> Result<T, ReadError>)
    requires size > 0 && length % size != 0
    ensures ReadVecSpec(data, pos, length, lump, size, decode) == ReadVecSpec(data, pos, length, lump, size, other)
  {
  }

  /**
   * With a length that `size` divides, `read_vec` succeeds exactly when each
   * of the `length / size` records decodes; it then yields them all, in
   * read order, and the cursor has moved `length` bytes.
   */
  lemma ReadVecOk<T>(data: seq<byte>, pos: nat, length: nat, lump: LumpType, size: nat,
                     decode: seq<byte> -> Result<T, ReadError>)
    requires size > 0 && length % size == 0 && pos <= |data|
    ensures var (r, p) := ReadVecSpec(data, pos, length, lump, size, decode);
      && (r.Ok? <==> forall i :: 0 <= i < length / size ==> RecordResult(data, pos, size, decode, i).Ok?)
      && (r.Ok? ==>
            && |r.value| == length / size
            && (forall i :: 0 <= i < length / size ==> RecordResult(data, pos, size, decode, i) == Ok(r.value[i]))
            && p == pos + length)
  {
    var n := length / size;
    ExactDivision(length, size);
    ReadRecordsOk(data, pos, n, size, decode, []);
    var (rr, pp) := ReadRecords(data, pos, n, size, decode, []);
    assert ReadVecSpec(data, pos, length, lump, size, decode)
        == (if rr.Err? then Err(BinRead(rr.error)) else Ok(rr.value), pp);
  }

  /** A length that `size` divides is exactly `length / size` records. */
  lemma ExactDivision(length: nat, size: nat)
    requires size > 0 && length % size == 0
    ensures length / size * size == length
  {
  }

  /**
   * A failed record read aborts `read_vec` with that read's error: the
   * records before it were all read successfully, and no list is returned.
   */
  lemma ReadVecFirstError<T>(data: seq<byte>, pos: nat, length: nat, lump: LumpType, size: nat,
                             decode: seq<byte> -> Result<T, ReadError>)
    requires size > 0 && length % size == 0
    ensures var r := ReadVecSpec(data, pos, length, lump, size, decode).0;
      r.Err? ==> && r.error.BinRead?
                 && exists k :: 0 <= k < length / size
                      && (forall i :: 0 <= i < k ==> RecordResult(data, pos, size, decode, i).Ok?)
                      && RecordResult(data, pos, size, decode, k) == Err(r.error.readError)
  {
    ReadRecordsFirstError(data, pos, length / size, size, decode, []);
  }

  /** A visibility lump shorter than eight bytes is the empty visibility data, read without moving the cursor. */
  lemma ReadVisDataShort(data: seq<byte>, pos: nat, length: nat)
    requires pos <= |data| && length < 8
    ensures ReadVisDataSpec(data, pos, length) == (Ok(EmptyVisData), pos)
  {
  }

  /** Byte offset of the PVS offset of cluster `i`, for a visibility header read from `pos`. */
  function PvsOffsetAt(pos: nat, i: nat): nat
  {
    pos + 4 + 8 * i
  }

  /**
   * From eight bytes on, `read_visdata` succeeds exactly when the input
   * holds the count and all `cluster_count` offset pairs; it then has that
   * many PVS and PAS offsets, read interleaved as little-endian `u32`s, and
   * the blob is every byte after them. A failure is an end-of-input error.
   */
  lemma ReadVisDataOk(data: seq<byte>, pos: nat, length: nat)
    requires pos <= |data| && length >= 8
    ensures var (r, p) := ReadVisDataSpec(data, pos, length);
      && (r.Ok? <==> pos + 4 <= |data| && PvsOffsetAt(pos, LeU32(data[pos..pos + 4])) <= |data|)
      && (r.Err? ==> r.error == BinRead(UnexpectedEof))
      && (r.Ok? ==>
            var v := r.value;
            var n := v.clusterCount;
            && n == LeU32(data[pos..pos + 4])
            && |v.pvsOffsets| == n && |v.pasOffsets| == n
            && (forall i :: 0 <= i < n ==>
                  && v.pvsOffsets[i] == LeU32(data[PvsOffsetAt(pos, i)..PvsOffsetAt(pos, i) + 4])
                  && v.pasOffsets[i] == LeU32(data[PvsOffsetAt(pos, i) + 4..PvsOffsetAt(pos, i + 1)]))
            && v.data == data[PvsOffsetAt(pos, n)..]
            && p == |data|)
  {
    if pos + 4 <= |data| && PvsOffsetAt(pos, LeU32(data[pos..pos + 4])) <= |data| {
      VisDataPresent(data, pos, length);
    } else {
      VisDataTruncated(data, pos, length);
    }
  }

  /** The success half of `ReadVisDataOk`: every offset pair is there. */
  lemma VisDataPresent(data: seq<byte>, pos: nat, length: nat)
    requires pos <= |data| && length >= 8
    requires pos + 4 <= |data| && PvsOffsetAt(pos, LeU32(data[pos..pos + 4])) <= |data|
    ensures var (r, p) := ReadVisDataSpec(data, pos, length);
      && r.Ok?
      && var v := r.value;
         var n := v.clusterCount;
         && n == LeU32(data[pos..pos + 4])
         && |v.pvsOffsets| == n && |v.pasOffsets| == n
         && (forall i :: 0 <= i < n ==>
               && v.pvsOffsets[i] == LeU32(data[PvsOffsetAt(pos, i)..PvsOffsetAt(pos, i) + 4])
               && v.pasOffsets[i] == LeU32(data[PvsOffsetAt(pos, i) + 4..PvsOffsetAt(pos, i + 1)]))
         && v.data == data[PvsOffsetAt(pos, n)..]
         && p == |data|
  {
    var n := LeU32(data[pos..pos + 4]);
    var p1 := pos + 4;
    assert U32At(data, pos) == (Ok(n), p1);
    ReadRecordsOk(data, p1, n, 8, DecodeOffsetPair, []);
    var (offsets, p2) := ReadRecords(data, p1, n, 8, DecodeOffsetPair, []);
    OffsetPairsRead(data, pos, n);
    assert offsets.Ok?;
    var v := VisData(n, Firsts(offsets.value), Seconds(offsets.value), data[p2..]);
    assert ReadVisDataSpec(data, pos, length) == (Ok(v), |data|);
    forall i | 0 <= i < n
      ensures && v.pvsOffsets[i] == LeU32(data[PvsOffsetAt(pos, i)..PvsOffsetAt(pos, i) + 4])
              && v.pasOffsets[i] == LeU32(data[PvsOffsetAt(pos, i) + 4..PvsOffsetAt(pos, i + 1)])
    {
      assert RecordResult(data, p1, 8, DecodeOffsetPair, i) == Ok(offsets.value[i]);
    }
  }

  /** The failure half of `ReadVisDataOk`: the count or an offset pair runs past the end. */
  lemma VisDataTruncated(data: seq<byte>, pos: nat, length: nat)
    requires pos <= |data| && length >= 8
    requires !(pos + 4 <= |data| && PvsOffsetAt(pos, LeU32(data[pos..pos + 4])) <= |data|)
    ensures ReadVisDataSpec(data, pos, length).0 == Err(BinRead(UnexpectedEof))
  {
    if pos + 4 <= |data| {
      var n := LeU32(data[pos..pos + 4]);
      var p1 := pos + 4;
      assert U32At(data, pos) == (Ok(n), p1);
      ReadRecordsOk(data, p1, n, 8, DecodeOffsetPair, []);
      ReadRecordsFirstError(data, p1, n, 8, DecodeOffsetPair, []);
      var k := (|data| - p1) / 8;
      assert PvsOffsetAt(pos, k + 1) > |data|;
      assert !RecordResult(data, p1, 8, DecodeOffsetPair, k).Ok?;
    }
  }

  /** With all `n` pairs present, each pair record is the two `u32`s at its offset. */
  lemma OffsetPairsRead(data: seq<byte>, pos: nat, n: nat)
    requires PvsOffsetAt(pos, n) <= |data|
    ensures forall i :: 0 <= i < n ==>
      RecordResult(data, pos + 4, 8, DecodeOffsetPair, i)
        == Ok((LeU32(data[PvsOffsetAt(pos, i)..PvsOffsetAt(pos, i) + 4]),
               LeU32(data[PvsOffsetAt(pos, i) + 4..PvsOffsetAt(pos, i + 1)])))
  {
    forall i | 0 <= i < n
      ensures RecordResult(data, pos + 4, 8, DecodeOffsetPair, i)
           == Ok((LeU32(data[PvsOffsetAt(pos, i)..PvsOffsetAt(pos, i) + 4]),
                  LeU32(data[PvsOffsetAt(pos, i) + 4..PvsOffsetAt(pos, i + 1)])))
    {
      var q := PvsOffsetAt(pos, i);
      assert pos + 4 + i * 8 == q && q + 8 == PvsOffsetAt(pos, i + 1) <= PvsOffsetAt(pos, n);
      var b := data[q..q + 8];
      assert b[0..4] == data[q..q + 4];
      assert b[4..8] == data[q + 4..q + 8];
    }
  }
}
