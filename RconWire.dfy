/**
 * The wire helpers of the Source RCON client (go-rcon's wire.go): little-endian integers,
 * NUL-terminated strings and the request prefix, read from a consuming reader and written
 * to a growing buffer.
 *
 * A reader is modelled by the bytes it still holds (`ByteReader.rest`), a `bytes.Buffer` being
 * written by the bytes written so far (`ByteBuffer.data`). Go strings travel as their bytes.
 */
module RconWire {
  import opened Wrappers
  import GoStrings

  newtype byte = x: int | 0 <= x < 256

  /** Go's `int32`, the width of every field of an RCON packet. */
  newtype int32 = x: int | -0x8000_0000 <= x < 0x8000_0000

  /**
   * The errors the package reports: from the reader (`io.EOF`, `io.ErrUnexpectedEOF`), the
   * runtime panic of a negative `make` length (recovered into an error by its caller), `toInt`'s
   * errors, the server's protocol errors, and failures of the connection itself.
   */
  datatype Error =
    | EOF
    | ErrUnexpectedEOF
    | MakeSliceLenOutOfRange
    | ErrBadData
    | ErrSyntax
    | ErrRange
    | ErrRCONAuthFailed
    | ErrRCONNotInitialized
    | ErrInvalidResponseType
    | ErrInvalidResponseID
    | ErrInvalidResponseTrailer
    | ErrNoAddress
    | Conn(msg: string)

  // ---------------------------------------------------------------------------------------
  // Little-endian integers

  function Pow256(n: nat): (p: nat)
    ensures p > 0
  {
    if n == 0 then 1 else 256 * Pow256(n - 1)
  }

  /** Half the range of an `n`-byte integer: the bound of its signed values. */
  function Half(n: nat): (h: int)
    requires n > 0
    ensures h > 0 && Pow256(n) == 2 * h
  {
    128 * Pow256(n - 1)
  }

  /** The unsigned value of little-endian bytes. */
  function LE(bs: seq<byte>): (v: nat)
    ensures v < Pow256(|bs|)
  {
    if bs == [] then 0 else bs[0] as nat + 256 * LE(bs[1..])
  }

  /** The `n` little-endian bytes of `v`. */
  function LEBytes(v: nat, n: nat): (bs: seq<byte>)
    requires v < Pow256(n)
    ensures |bs| == n && LE(bs) == v
  {
    if n == 0 then []
    else
      var bs := [(v % 256) as byte] + LEBytes(v / 256, n - 1);
      assert bs[1..] == LEBytes(v / 256, n - 1);
      bs
  }

  /** Encoding the value of some bytes gives back those bytes. */
  lemma {:induction false} LEBytesOfLE(bs: seq<byte>)
    ensures LEBytes(LE(bs), |bs|) == bs
    decreases |bs|
  {
    if bs != [] {
      LEBytesOfLE(bs[1..]);
      assert LE(bs) % 256 == bs[0] as nat && LE(bs) / 256 == LE(bs[1..]);
    }
  }

  /** Two's complement: the signed value of an `n`-byte unsigned value. */
  function Signed(u: nat, n: nat): (v: int)
    requires n > 0 && u < Pow256(n)
    ensures -Half(n) <= v < Half(n)
  {
    if u < Half(n) then u else u - Pow256(n)
  }

  /** The `n`-byte unsigned representation of a signed value. */
  function Unsigned(v: int, n: nat): (u: nat)
    requires n > 0 && -Half(n) <= v < Half(n)
    ensures u < Pow256(n)
  {
    if v < 0 then v + Pow256(n) else v
  }

  lemma SignedUnsigned(v: int, n: nat)
    requires n > 0 && -Half(n) <= v < Half(n)
    ensures Signed(Unsigned(v, n), n) == v
  {
  }

  /** What `writeLong` writes for `v`. */
  function Long(v: int32): (bs: seq<byte>)
    ensures |bs| == 4
  {
    LEBytes(Unsigned(v as int, 4), 4)
  }

  /** The `int32` at offset `k` of `data`, as `readLong` decodes it. */
  function Int32At(data: seq<byte>, k: nat): int32
    requires k + 4 <= |data|
  {
    Signed(LE(data[k..k + 4]), 4) as int32
  }

  /** Reading back a written `int32` gives the value written. */
  lemma LongRoundTrip(v: int32, tail: seq<byte>)
    ensures Int32At(Long(v) + tail, 0) == v
  {
    assert (Long(v) + tail)[0..4] == Long(v);
    SignedUnsigned(v as int, 4);
  }

  // ---------------------------------------------------------------------------------------
  // Reading

  /** A reader: the bytes not yet consumed. */
  class ByteReader {
    var rest: seq<byte>

    constructor (data: seq<byte>)
      ensures rest == data
    {
      rest := data;
    }
  }

  /** A read of `n` bytes by `io.ReadFull`: the buffer, the bytes left, and the error. */
  datatype Read<T> = Read(value: T, rest: seq<byte>, err: Option<Error>)

  /**
   * `io.ReadFull` of `n` bytes: with enough bytes, those bytes; otherwise whatever is there,
   * padded with zeros, `EOF` when nothing was there and `ErrUnexpectedEOF` when some was.
   */
  function FullRead(rest: seq<byte>, n: nat): (r: Read<seq<byte>>)
    ensures |r.value| == n
    ensures r.err.None? <==> n <= |rest|
    ensures r.err.None? ==> r.value + r.rest == rest
    ensures r.err.Some? ==> r.rest == [] && r.value[..|rest|] == rest
                            && r.err == Some(if rest == [] then EOF else ErrUnexpectedEOF)
  {
    if n <= |rest| then Read(rest[..n], rest[n..], None)
    else Read(rest + seq(n - |rest|, _ => 0 as byte), [], Some(if rest == [] then EOF else ErrUnexpectedEOF))
  }

  /** `readBytes`, and `readByte` with `n` = 1. A negative length makes `make` panic before anything is read. */
  method ReadBytes(r: ByteReader, n: int) returns (buf: seq<byte>, err: Option<Error>)
    modifies r
    ensures n < 0 ==> err == Some(MakeSliceLenOutOfRange) && r.rest == old(r.rest)
    ensures n >= 0 ==> Read(buf, r.rest, err) == FullRead(old(r.rest), n)
  {
    if n < 0 {
      return [], Some(MakeSliceLenOutOfRange);
    }
    var read := FullRead(r.rest, n);
    buf, err := read.value, read.err;
    r.rest := read.rest;
  }

  /**
   * `binary.Read` of an `n`-byte little-endian integer, `signed` or not: the bytes are read
   * with `io.ReadFull`, and the result stays 0 when they run short.
   */
  function FixedRead(rest: seq<byte>, n: nat, signed: bool): (r: Read<int>)
    requires n > 0
    ensures r.err.None? <==> n <= |rest|
    ensures r.err.None? ==> r.rest == rest[n..] && r.value == (if signed then Signed(LE(rest[..n]), n) else LE(rest[..n]))
    ensures r.err.Some? ==> r.value == 0 && r.rest == []
    ensures signed ==> -Half(n) <= r.value < Half(n)
    ensures !signed ==> 0 <= r.value < Pow256(n)
  {
    var full := FullRead(rest, n);
    if full.err.Some? then Read(0, full.rest, full.err)
    else Read(if signed then Signed(LE(full.value), n) else LE(full.value), full.rest, None)
  }

  /** Reading back the `n`-byte representation of a value gives that value, and leaves what followed it. */
  lemma FixedRoundTrip(v: int, n: nat, signed: bool, tail: seq<byte>)
    requires n > 0
    requires if signed then -Half(n) <= v < Half(n) else 0 <= v < Pow256(n)
    ensures FixedRead(LEBytes(if signed then Unsigned(v, n) else v, n) + tail, n, signed) == Read(v, tail, None)
  {
    var bs := LEBytes(if signed then Unsigned(v, n) else v, n);
    assert (bs + tail)[..n] == bs && (bs + tail)[n..] == tail;
    if signed {
      SignedUnsigned(v, n);
    }
  }

  method ReadFixed(r: ByteReader, n: nat, signed: bool) returns (v: int, err: Option<Error>)
    requires n > 0
    modifies r
    ensures Read(v, r.rest, err) == FixedRead(old(r.rest), n, signed)
  {
    var buf, e := ReadBytes(r, n);
    if e.Some? {
      return 0, e;
    }
    v := if signed then Signed(LE(buf), n) else LE(buf);
    err := None;
  }

  /** `readShort`: a little-endian `int16`. */
  method ReadShort(r: ByteReader) returns (v: int, err: Option<Error>)
    modifies r
    ensures Read(v, r.rest, err) == FixedRead(old(r.rest), 2, true)
  {
    v, err := ReadFixed(r, 2, true);
  }

  /** `readLong`: a little-endian `int32`. */
  method ReadLong(r: ByteReader) returns (v: int32, err: Option<Error>)
    modifies r
    ensures Read(v as int, r.rest, err) == FixedRead(old(r.rest), 4, true)
    ensures err.None? ==> v == Int32At(old(r.rest), 0)
  {
    var x;
    x, err := ReadFixed(r, 4, true);
    v := x as int32;
  }

  /** `readULong`: a little-endian `uint32`. */
  method ReadULong(r: ByteReader) returns (v: int, err: Option<Error>)
    modifies r
    ensures Read(v, r.rest, err) == FixedRead(old(r.rest), 4, false)
  {
    v, err := ReadFixed(r, 4, false);
  }

  /** `readLongLong`: a little-endian `int64`. */
  method ReadLongLong(r: ByteReader) returns (v: int, err: Option<Error>)
    modifies r
    ensures Read(v, r.rest, err) == FixedRead(old(r.rest), 8, true)
  {
    v, err := ReadFixed(r, 8, true);
  }

  /** The position of the first NUL byte. */
  function NulIndex(bs: seq<byte>): (k: Option<nat>)
    ensures k.Some? ==> k.value < |bs| && bs[k.value] == 0 && 0 !in bs[..k.value]
    ensures k.None? ==> 0 !in bs
  {
    if bs == [] then None
    else if bs[0] == 0 then Some(0)
    else match NulIndex(bs[1..])
      case None => None
      case Some(k) =>
        assert bs[..k + 1] == [bs[0]] + bs[1..][..k];
        Some(k + 1)
  }

  /**
   * `readString`: the bytes up to and including the first NUL. Without a NUL the two paths
   * differ: on a `bytes.Buffer` the rest of the bytes come back with `EOF`, while the
   * byte-by-byte path gives back nothing but the error; both consume everything.
   */
  function StringRead(rest: seq<byte>, buffered: bool): (r: Read<seq<byte>>)
    ensures r.err.None? <==> 0 in rest
    ensures r.err.None? ==> r.value + r.rest == rest && |r.value| > 0 && r.value[|r.value| - 1] == 0
                            && 0 !in r.value[..|r.value| - 1]
    ensures r.err.Some? ==> r.err == Some(EOF) && r.rest == [] && r.value == (if buffered then rest else [])
  {
    match NulIndex(rest)
    case Some(k) =>
      assert rest[..k + 1][..k] == rest[..k];
      Read(rest[..k + 1], rest[k + 1..], None)
    case None => Read(if buffered then rest else [], [], Some(EOF))
  }

  /** `readString` on a `bytes.Buffer` (`buffered`) or on any other reader, one byte at a time. */
  method ReadString(r: ByteReader, buffered: bool) returns (s: seq<byte>, err: Option<Error>)
    modifies r
    ensures Read(s, r.rest, err) == StringRead(old(r.rest), buffered)
  {
    if buffered {
      var read := StringRead(r.rest, true);
      s, err := read.value, read.err;
      r.rest := read.rest;
      return;
    }
    ghost var rest0 := r.rest;
    var buf: seq<byte> := [];
    while true
      invariant buf + r.rest == rest0 && 0 !in buf
      decreases |r.rest|
    {
      ghost var before := r.rest;
      var b, e := ReadBytes(r, 1);
      if e.Some? {
        assert before == [] && buf == rest0;
        return [], e;
      }
      assert before == b + r.rest;
      buf := buf + [b[0]];
      if b[0] == 0 {
        NulReached(rest0, buf, r.rest);
        return buf, None;
      }
    }
  }

  /** The byte-by-byte path stops at the first NUL: what it gathered is exactly `StringRead`'s. */
  lemma NulReached(rest0: seq<byte>, buf: seq<byte>, rest: seq<byte>)
    requires buf + rest == rest0 && buf != [] && buf[|buf| - 1] == 0 && 0 !in buf[..|buf| - 1]
    ensures StringRead(rest0, false) == Read(buf, rest, None)
  {
    var k := |buf| - 1;
    assert rest0[..k] == buf[..k];
    FirstNul(rest0, k);
    assert rest0[..k + 1] == buf;
  }

  lemma FirstNul(bs: seq<byte>, k: nat)
    requires k < |bs| && bs[k] == 0 && 0 !in bs[..k]
    ensures NulIndex(bs) == Some(k)
  {
  }

  /** A string without NUL, written by `writeString`, reads back NUL-terminated on either path. */
  lemma StringRoundTrip(v: seq<byte>, tail: seq<byte>, buffered: bool)
    requires 0 !in v
    ensures StringRead(v + [0] + tail, buffered) == Read(v + [0], tail, None)
  {
    var bs := v + [0] + tail;
    assert bs[..|v|] == v;
    FirstNul(bs, |v|);
    assert bs[..|v| + 1] == v + [0];
  }

  // ---------------------------------------------------------------------------------------
  // toInt

  /** The dynamic types `toInt` distinguishes, and anything else. */
  datatype Dynamic =
    | DByte(b: byte)
    | DInt16(i16: int)
    | DInt32(i32: int32)
    | DInt64(i64: int)
    | DString(s: string)
    | DOther

  /**
   * `toInt`: an `int64` is returned as it is and a string is parsed with `strconv.Atoi`. The
   * byte, `int16` and `int32` cases are empty, so those fall out of the switch into
   * `ErrBadData` like every other type.
   */
  function ToInt(v: Dynamic): (r: Result<int, Error>)
    ensures r.Ok? <==> v.DInt64? || (v.DString? && GoStrings.Atoi(v.s).Some?)
    ensures v.DInt64? ==> r == Ok(v.i64)
    ensures v.DString? && GoStrings.Atoi(v.s).Some? ==> r == Ok(GoStrings.Atoi(v.s).value)
    ensures v.DString? && GoStrings.Decimal(v.s).Some? && GoStrings.Atoi(v.s).None? ==> r == Err(ErrRange)
    ensures v.DString? && GoStrings.RunOverflows(v.s) ==> r == Err(ErrRange)
    ensures v.DString? && GoStrings.Decimal(v.s).None? && !GoStrings.RunOverflows(v.s) ==> r == Err(ErrSyntax)
    ensures !v.DInt64? && !v.DString? ==> r == Err(ErrBadData)
  {
    match v
    case DByte(_) => Err(ErrBadData)
    case DInt16(_) => Err(ErrBadData)
    case DInt32(_) => Err(ErrBadData)
    case DInt64(i) => Ok(i)
    case DString(s) =>
      GoStrings.AtoiOutcome(s);
      (match GoStrings.AtoiResult(s)
       case Num(i) => Ok(i)
       case SyntaxError => Err(ErrSyntax)
       case RangeError => Err(ErrRange))
    case DOther => Err(ErrBadData)
  }

  /** A single digit parses to its value. */
  lemma ToIntDigit(c: char)
    requires GoStrings.IsDigit(c)
    ensures ToInt(DString([c])) == Ok(c as int - '0' as int)
  {
    GoStrings.AtoiDigit(c);
  }

  /** The decimal form of a number reads back as that number within `int64`, and as `ErrRange` beyond it. */
  lemma ToIntItoa(n: nat)
    ensures n <= GoStrings.MaxInt64 ==> ToInt(DString(GoStrings.Itoa(n))) == Ok(n)
    ensures n > GoStrings.MaxInt64 ==> ToInt(DString(GoStrings.Itoa(n))) == Err(ErrRange)
  {
    GoStrings.DecimalItoa(n);
    GoStrings.AtoiDecimal(GoStrings.Itoa(n));
  }

  /**
   * Text that is not a signed decimal number fails with `ErrSyntax`, unless its leading digits
   * already pass `uint64`, which fails with `ErrRange` before the bad character is seen.
   */
  lemma ToIntSyntax(s: string)
    requires s == [] || !(GoStrings.IsDigit(s[|s| - 1]))
    ensures !GoStrings.RunOverflows(s) ==> ToInt(DString(s)) == Err(ErrSyntax)
    ensures GoStrings.RunOverflows(s) ==> ToInt(DString(s)) == Err(ErrRange)
  {
  }

  /** Digits beyond `uint64` fail with `ErrRange` whatever text follows them. */
  lemma ToIntOverflowFirst(d: string, rest: string)
    requires GoStrings.AllDigits(d) && GoStrings.DigitsValue(d) > GoStrings.MaxUint64
    requires rest == [] || !GoStrings.IsDigit(rest[0])
    ensures ToInt(DString(d + rest)) == Err(ErrRange)
  {
    assert d != [];
    assert GoStrings.Unsigned(d + rest) == d + rest;
    GoStrings.DigitRunOf(d, rest);
  }

  /** Twenty-one digits then a letter: the range error comes first. */
  lemma ToIntOverflowExample()
    ensures ToInt(DString("123456789012345678901x")) == Err(ErrRange)
  {
    var d := "123456789012345678901";
    GoStrings.TwentyOneDigitsOverflow(d);
    assert "123456789012345678901x" == d + "x";
    ToIntOverflowFirst(d, "x");
  }

  // ---------------------------------------------------------------------------------------
  // Writing

  /** A `bytes.Buffer` being written: the bytes written so far. */
  class ByteBuffer {
    var data: seq<byte>

    constructor ()
      ensures data == []
    {
      data := [];
    }
  }

  /** The header of a connectionless request: four 0xFF bytes. */
  const RequestPrefix: seq<byte> := [0xFF, 0xFF, 0xFF, 0xFF]

  /** The prefix reads as the `int32` -1. */
  lemma RequestPrefixIsMinusOne()
    ensures Int32At(RequestPrefix, 0) == -1
  {
    assert RequestPrefix[0..4] == RequestPrefix;
    assert LE(RequestPrefix) == 0xFFFF_FFFF by {
      assert RequestPrefix[1..][1..][1..][1..] == [];
    }
  }

  method WriteRequestPrefix(buf: ByteBuffer) returns (err: Option<Error>)
    modifies buf
    ensures buf.data == old(buf.data) + RequestPrefix && err.None?
  {
    buf.data := buf.data + RequestPrefix;
    err := None;
  }

  /** `writeString`: the string's bytes and a terminating NUL. */
  method WriteString(buf: ByteBuffer, v: seq<byte>)
    modifies buf
    ensures buf.data == old(buf.data) + v + [0]
  {
    buf.data := buf.data + v;
    buf.data := buf.data + [0];
  }

  method WriteByte(buf: ByteBuffer, v: byte)
    modifies buf
    ensures buf.data == old(buf.data) + [v]
  {
    buf.data := buf.data + [v];
  }

  /** `writeLong`: the four little-endian bytes of `v`. */
  method WriteLong(buf: ByteBuffer, v: int32) returns (err: Option<Error>)
    modifies buf
    ensures buf.data == old(buf.data) + Long(v) && err.None?
  {
    buf.data := buf.data + Long(v);
    err := None;
  }

  method WriteNull(buf: ByteBuffer) returns (err: Option<Error>)
    modifies buf
    ensures buf.data == old(buf.data) + [0] && err.None?
  {
    buf.data := buf.data + [0];
    err := None;
  }
}
