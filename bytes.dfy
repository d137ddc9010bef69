/**
 * Fixed-width integers, little-endian decoding, first-occurrence search and
 * the byte cursor that the container and lump readers advance.
 *
 * The cursor stands for `binrw::io::Cursor` over a byte slice: a read of a
 * fixed-width value either consumes exactly its width or fails with an
 * end-of-input error, after which the cursor sits at the end of its data.
 */
module Bytes {
  import opened Wrappers

  type byte = x: int | 0 <= x < 0x100
  type u8 = x: int | 0 <= x < 0x100
  type u16 = x: int | 0 <= x < 0x1_0000
  type u32 = x: int | 0 <= x < 0x1_0000_0000
  type i16 = x: int | -0x8000 <= x < 0x8000
  type i32 = x: int | -0x8000_0000 <= x < 0x8000_0000

  /** The errors a binary read through a cursor can report. */
  datatype ReadError =
    | UnexpectedEof                 // fewer bytes remain than the value needs
    | Malformed(detail: string)     // a record decoder rejected its bytes

  /** The unsigned 32-bit value of four bytes, least significant first. */
  function LeU32(b: seq<byte>): u32
    requires |b| == 4
  {
    b[0] as int + 0x100 * b[1] as int + 0x1_0000 * b[2] as int + 0x100_0000 * b[3] as int
  }

  /** The four little-endian bytes of a 32-bit value. */
  function EncodeLeU32(x: u32): (b: seq<byte>)
    ensures |b| == 4
  {
    [x % 0x100, (x / 0x100) % 0x100, (x / 0x1_0000) % 0x100, x / 0x100_0000]
  }

  lemma LeU32OfEncode(x: u32)
    ensures LeU32(EncodeLeU32(x)) == x
  {
  }

  lemma EncodeOfLeU32(b: seq<byte>)
    requires |b| == 4
    ensures EncodeLeU32(LeU32(b)) == b
  {
    var x := LeU32(b);
    var q1 := b[1] as int + 0x100 * b[2] as int + 0x1_0000 * b[3] as int;
    var q2 := b[2] as int + 0x100 * b[3] as int;
    DivModByte(b[0], q1);
    DivModByte(b[1], q2);
    DivModByte(b[2], b[3]);
    assert x == b[0] + 0x100 * q1;
    assert x / 0x100 == q1;
    assert x / 0x1_0000 == q1 / 0x100 == q2;
    assert x / 0x100_0000 == q2 / 0x100 == b[3];
  }

  lemma DivModByte(r: int, q: int)
    requires 0 <= r < 0x100
    ensures (r + 0x100 * q) % 0x100 == r && (r + 0x100 * q) / 0x100 == q
  {
  }

  /** A `u32` read as a record decoder over exactly four bytes. */
  function DecodeU32(b: seq<byte>): (r: Result<u32, ReadError>)
    ensures |b| == 4 ==> r == Ok(LeU32(b))
  {
    if |b| == 4 then Ok(LeU32(b)) else Err(UnexpectedEof)
  }

  /** The index of the first occurrence of `x` in `s`, as `str::find` gives it. */
  function Find<T(==)>(s: seq<T>, x: T): (r: Option<nat>)
    ensures r.None? <==> forall k :: 0 <= k < |s| ==> s[k] != x
    ensures r.Some? ==> r.value < |s| && s[r.value] == x && forall k :: 0 <= k < r.value ==> s[k] != x
  {
    if |s| == 0 then None
    else if s[0] == x then Some(0)
    else match Find(s[1..], x)
      case None => None
      case Some(i) =>
        Some(i + 1)
  }

  /**
   * One fixed-size record read at `pos`: the decoder sees exactly `size`
   * bytes and the cursor moves past them; with too few bytes left the read
   * fails with end of input and the cursor is left at the end.
   * The result pairs the outcome with the new cursor position.
   */
  function RecordAt<T>(data: seq<byte>, pos: nat, size: nat,
                       decode: seq<byte> -> Result<T, ReadError>): (Result<T, ReadError>, nat)
  {
    if pos + size <= |data| then (decode(data[pos..pos + size]), pos + size)
    else (Err(UnexpectedEof), |data|)
  }

  /** The outcome of the `i`-th record of a run of records that starts at `pos`. */
  function RecordResult<T>(data: seq<byte>, pos: nat, size: nat,
                           decode: seq<byte> -> Result<T, ReadError>, i: nat): Result<T, ReadError>
  {
    RecordAt(data, pos + i * size, size, decode).0
  }

  /** The 32-bit little-endian value at `pos` and the cursor after it. */
  function U32At(data: seq<byte>, pos: nat): (Result<u32, ReadError>, nat)
  {
    RecordAt(data, pos, 4, DecodeU32)
  }

  /**
   * `n` records read one after the other from `pos`, appended to `acc`;
   * the first failing read ends the run with its error.
   */
  function ReadRecords<T>(data: seq<byte>, pos: nat, n: nat, size: nat,
                          decode: seq<byte> -> Result<T, ReadError>, acc: seq<T>): (Result<seq<T>, ReadError>, nat)
    decreases n
  {
    if n == 0 then (Ok(acc), pos)
    else
      var (x, p) := RecordAt(data, pos, size, decode);
      if x.Err? then (Err(x.error), p)
      else ReadRecords(data, p, n - 1, size, decode, acc + [x.value])
  }

  lemma RecordResultShift<T>(data: seq<byte>, pos: nat, size: nat,
                             decode: seq<byte> -> Result<T, ReadError>, i: nat)
    ensures RecordResult(data, pos + size, size, decode, i) == RecordResult(data, pos, size, decode, i + 1)
  {
    assert pos + size + i * size == pos + (i + 1) * size;
  }

  /**
   * A run of `n` records succeeds exactly when each of its records does; it
   * then yields their values in read order after `acc`, and the cursor ends
   * `n * size` bytes further on.
   */
  lemma {:induction false} ReadRecordsOk<T>(data: seq<byte>, pos: nat, n: nat, size: nat,
                                            decode: seq<byte> -> Result<T, ReadError>, acc: seq<T>)
    requires pos <= |data|
    ensures var (r, p) := ReadRecords(data, pos, n, size, decode, acc);
      && (r.Ok? <==> forall i :: 0 <= i < n ==> RecordResult(data, pos, size, decode, i).Ok?)
      && (r.Ok? ==>
            && |r.value| == |acc| + n && r.value[..|acc|] == acc
            && (forall i :: 0 <= i < n ==> RecordResult(data, pos, size, decode, i) == Ok(r.value[|acc| + i]))
            && p == pos + n * size && p <= |data|)
    decreases n
  {
    if n > 0 {
      var (x, p) := RecordAt(data, pos, size, decode);
      assert RecordResult(data, pos, size, decode, 0) == x;
      if x.Ok? {
        ReadRecordsOk(data, p, n - 1, size, decode, acc + [x.value]);
        forall i | 0 <= i < n - 1
          ensures RecordResult(data, p, size, decode, i) == RecordResult(data, pos, size, decode, i + 1)
        {
          RecordResultShift(data, pos, size, decode, i);
        }
        var (r, q) := ReadRecords(data, p, n - 1, size, decode, acc + [x.value]);
        if r.Ok? {
          assert r.value[..|acc| + 1] == acc + [x.value];
          assert r.value[..|acc|] == (acc + [x.value])[..|acc|];
          forall i | 0 <= i < n
            ensures RecordResult(data, pos, size, decode, i) == Ok(r.value[|acc| + i])
          {
            if i > 0 {
              RecordResultShift(data, pos, size, decode, i - 1);
            }
          }
          assert p + (n - 1) * size == pos + n * size;
        } else {
          var k :| 0 <= k < n - 1 && !RecordResult(data, p, size, decode, k).Ok?;
          RecordResultShift(data, pos, size, decode, k);
        }
      }
    }
  }

  /**
   * A failed run reports the error of its first failing record: every
   * record before it was read successfully.
   */
  lemma {:induction false} ReadRecordsFirstError<T>(data: seq<byte>, pos: nat, n: nat, size: nat,
                                                    decode: seq<byte> -> Result<T, ReadError>, acc: seq<T>)
    ensures var r := ReadRecords(data, pos, n, size, decode, acc).0;
      r.Err? ==> exists k :: 0 <= k < n
                   && (forall i :: 0 <= i < k ==> RecordResult(data, pos, size, decode, i).Ok?)
                   && RecordResult(data, pos, size, decode, k) == Err(r.error)
    decreases n
  {
    if n > 0 {
      var (x, p) := RecordAt(data, pos, size, decode);
      assert RecordResult(data, pos, size, decode, 0) == x;
      var r := ReadRecords(data, pos, n, size, decode, acc).0;
      if x.Ok? && r.Err? {
        ReadRecordsFirstError(data, p, n - 1, size, decode, acc + [x.value]);
        var k :| 0 <= k < n - 1
          && (forall i :: 0 <= i < k ==> RecordResult(data, p, size, decode, i).Ok?)
          && RecordResult(data, p, size, decode, k) == Err(r.error);
        RecordResultShift(data, pos, size, decode, k);
        forall i | 0 <= i < k + 1
          ensures RecordResult(data, pos, size, decode, i).Ok?
        {
          if i > 0 {
            RecordResultShift(data, pos, size, decode, i - 1);
          }
        }
      }
    }
  }

  /** A cursor over immutable bytes; only its position changes. */
  class Cursor {
    const data: seq<byte>
    var pos: nat

    ghost predicate Valid()
      reads this
    {
      pos <= |data|
    }

    constructor (data: seq<byte>)
      ensures Valid() && this.data == data && pos == 0
    {
      this.data := data;
      pos := 0;
    }

    /** Read one record of `size` bytes through `decode`. */
    method ReadRecord<T>(size: nat, decode: seq<byte> -> Result<T, ReadError>) returns (r: Result<T, ReadError>)
      requires Valid()
      modifies this
      ensures Valid()
      ensures (r, pos) == RecordAt(data, old(pos), size, decode)
    {
      if pos + size <= |data| {
        r := decode(data[pos..pos + size]);
        pos := pos + size;
      } else {
        r := Err(UnexpectedEof);
        pos := |data|;
      }
    }

    /** `read_le::<u32>()`. */
    method ReadU32() returns (r: Result<u32, ReadError>)
      requires Valid()
      modifies this
      ensures Valid()
      ensures (r, pos) == U32At(data, old(pos))
    {
      r := ReadRecord(4, DecodeU32);
    }

    /** `read_to_end`: everything after the position; the cursor ends at the end. */
    method ReadToEnd() returns (rest: seq<byte>)
      requires Valid()
      modifies this
      ensures Valid()
      ensures rest == data[old(pos)..] && pos == |data|
    {
      rest := data[pos..];
      pos := |data|;
    }
  }
}
