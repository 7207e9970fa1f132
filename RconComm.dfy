/**
 * RCON packets (go-rcon's comm.go): building a request, its wire form, and decoding a
 * response. A packet is a little-endian `int32` size, id and type, the body, and two NUL
 * bytes; the size counts everything after itself.
 *
 * Request ids come from `rand.Int31` in the client; here they are parameters.
 */
module RconComm {
  import opened Wrappers
  import opened RconWire

  const RrtAuth: int32 := 3
  const RrtExecCmd: int32 := 2
  const RrtAuthResp: int32 := 2
  const RrtRespValue: int32 := 0

  /** The fields `rconRequest` and `rconResponse` share. */
  datatype Packet = Packet(size: int32, id: int32, typ: int32, body: seq<byte>)

  /** Go's conversion `int32(x)`: the integer wrapped into 32-bit two's complement. */
  function WrapInt32(x: int): (r: int32)
    ensures (r as int - x) % 0x1_0000_0000 == 0
    ensures -0x8000_0000 <= x < 0x8000_0000 ==> r as int == x
  {
    ((x + 0x8000_0000) % 0x1_0000_0000 - 0x8000_0000) as int32
  }

  /** `newRCONRequest`: the body and type as given, with size `len(body) + 10` as an `int32`. */
  function NewRequest(typ: int32, body: seq<byte>, id: int32): (r: Packet)
    ensures r.typ == typ && r.body == body && r.id == id
    ensures |body| + 10 < 0x8000_0000 ==> r.size as int == |body| + 10
  {
    Packet(WrapInt32(|body| + 10), id, typ, body)
  }

  /** The bytes `marshalBinary` produces. */
  function Marshal(p: Packet): (data: seq<byte>)
    ensures |data| == |p.body| + 14
  {
    Long(p.size) + Long(p.id) + Long(p.typ) + p.body + [0, 0]
  }

  /** A request's wire form is four bytes longer than its size says: the size does not count itself. */
  lemma MarshalLength(typ: int32, body: seq<byte>, id: int32)
    requires |body| + 10 < 0x8000_0000
    ensures |Marshal(NewRequest(typ, body, id))| == NewRequest(typ, body, id).size as int + 4
  {
  }

  /** `marshalBinary`: writes size, id and type, the body, and two NULs; it never fails. */
  method MarshalBinary(p: Packet) returns (data: seq<byte>, err: Option<Error>)
    ensures data == Marshal(p) && err.None?
  {
    var buf := new ByteBuffer();
    var _ := WriteLong(buf, p.size);
    var _ := WriteLong(buf, p.id);
    var _ := WriteLong(buf, p.typ);
    buf.data := buf.data + p.body;
    var _ := WriteNull(buf);
    var _ := WriteNull(buf);
    return buf.data, None;
  }

  /**
   * What `unmarshalBinary` makes of `data`: size, id and type are the `int32`s at offsets 0, 4
   * and 8, and the body is everything after them but the last two bytes, which are not
   * checked. Short data fails: `EOF` when an integer finds no byte left, `ErrUnexpectedEOF`
   * when it finds some but not four, and the negative body length of 12 or 13 bytes panics
   * in `make`, which is recovered as the error.
   */
  function Decode(data: seq<byte>): (r: Result<Packet, Error>)
    ensures r.Ok? <==> |data| >= 14
    ensures r.Ok? ==> r.value == Packet(Int32At(data, 0), Int32At(data, 4), Int32At(data, 8), data[12..|data| - 2])
    ensures r.Err? ==> r.error == (if |data| >= 12 then MakeSliceLenOutOfRange
                                   else if |data| % 4 == 0 then EOF else ErrUnexpectedEOF)
  {
    if |data| < 4 then Err(if |data| == 0 then EOF else ErrUnexpectedEOF)
    else if |data| < 8 then Err(if |data| == 4 then EOF else ErrUnexpectedEOF)
    else if |data| < 12 then Err(if |data| == 8 then EOF else ErrUnexpectedEOF)
    else if |data| < 14 then Err(MakeSliceLenOutOfRange)
    else Ok(Packet(Int32At(data, 0), Int32At(data, 4), Int32At(data, 8), data[12..|data| - 2]))
  }

  /** Decoding a marshalled packet gives back its size, id, type and body. */
  lemma DecodeMarshal(p: Packet)
    ensures Decode(Marshal(p)) == Ok(p)
  {
    var data := Marshal(p);
    assert data[0..4] == Long(p.size);
    assert data[4..8] == Long(p.id);
    assert data[8..12] == Long(p.typ);
    assert data[12..|data| - 2] == p.body;
    LongRoundTrip(p.size, []);
    LongRoundTrip(p.id, []);
    LongRoundTrip(p.typ, []);
    assert Long(p.size) + [] == Long(p.size) && Long(p.id) + [] == Long(p.id) && Long(p.typ) + [] == Long(p.typ);
  }

  /** An `rconResponse`, whose fields `unmarshalBinary` assigns one after the other. */
  class Response {
    var size: int32
    var id: int32
    var typ: int32
    var body: seq<byte>

    /** The zero value `var resp rconResponse`. */
    constructor ()
      ensures size == 0 && id == 0 && typ == 0 && body == []
    {
      size, id, typ, body := 0, 0, 0, [];
    }

    /**
     * `unmarshalBinary`: decodes `data` into the fields, failing as `Decode` does. A failure
     * leaves behind the fields read so far; a size or id whose read failed is set to 0.
     */
    method UnmarshalBinary(data: seq<byte>) returns (err: Option<Error>)
      modifies this
      ensures err.None? <==> Decode(data).Ok?
      ensures err.None? ==> Decode(data) == Ok(Packet(size, id, typ, body))
      ensures err.Some? ==> Decode(data) == Err(err.value)
      ensures |data| < 4 ==> size == 0 && id == old(id) && typ == old(typ) && body == old(body)
      ensures 4 <= |data| < 8 ==> size == Int32At(data, 0) && id == 0 && typ == old(typ) && body == old(body)
      ensures 8 <= |data| < 14 ==> size == Int32At(data, 0) && id == Int32At(data, 4) && body == old(body)
      ensures 8 <= |data| < 12 ==> typ == old(typ)
      ensures 12 <= |data| < 14 ==> typ == Int32At(data, 8)
    {
      var buf := new ByteReader(data);
      var v, e := ReadLong(buf);
      size := v;
      if e.Some? {
        return e;
      }
      assert buf.rest == data[4..];
      v, e := ReadLong(buf);
      id := v;
      if e.Some? {
        return e;
      }
      assert data[4..][0..4] == data[4..8];
      assert buf.rest == data[8..];
      v, e := ReadLong(buf);
      if e.Some? {
        return e;
      }
      assert data[8..][0..4] == data[8..12];
      typ := v;
      assert buf.rest == data[12..];
      var b;
      b, e := ReadBytes(buf, |data| - 14);
      if e.Some? {
        return e;
      }
      body := b;
      assert b == data[12..|data| - 2];
      return e;
    }
  }
}
