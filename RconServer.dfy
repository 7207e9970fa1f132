/**
 * The RCON client of a Source engine server (go-rcon's server.go): connecting and
 * authenticating, sending a command and validating the packets that answer it, and closing.
 *
 * The TCP connection is a `Socket` holding what was written to it and the packets the server
 * will deliver, one per `receive`, each the packet's bytes or the error the read met. How a
 * packet is framed on the stream (rconsocket.go) is not part of this model. Request ids are
 * parameters.
 */
module RconServer {
  import opened Wrappers
  import opened RconWire
  import opened RconComm

  /** The body of the packet a server sends after answering the mirror request. */
  const Trailer: seq<byte> := [0x00, 0x01, 0x00, 0x00]

  /** One `receive`: a packet's bytes, or the error. */
  type Received = Result<seq<byte>, Error>

  /** What the next `receive` gives: the next packet, or `EOF` once the server sends nothing more. */
  function Head(incoming: seq<Received>): Received {
    if incoming == [] then Err(EOF) else incoming[0]
  }

  function Tail(incoming: seq<Received>): (rest: seq<Received>)
    ensures |rest| == if incoming == [] then 0 else |incoming| - 1
  {
    if incoming == [] then [] else incoming[1..]
  }

  /** A connection: the packets written, the packets still to come, the error every write meets (if any), and whether it was closed. */
  class Socket {
    var sent: seq<seq<byte>>
    var incoming: seq<Received>
    var writeError: Option<Error>
    var closed: bool

    constructor (incoming: seq<Received>, writeError: Option<Error>)
      ensures sent == [] && this.incoming == incoming && this.writeError == writeError && !closed
    {
      this.sent := [];
      this.incoming := incoming;
      this.writeError := writeError;
      this.closed := false;
    }

    /** `send`: writes one packet, or fails with the connection's write error. */
    method Send(p: seq<byte>) returns (err: Option<Error>)
      modifies this
      ensures err == writeError == old(writeError)
      ensures sent == if err.None? then old(sent) + [p] else old(sent)
      ensures incoming == old(incoming) && closed == old(closed)
    {
      err := writeError;
      if err.None? {
        sent := sent + [p];
      }
    }

    /** `receive`: the next packet. */
    method Receive() returns (r: Received)
      modifies this
      ensures r == Head(old(incoming)) && incoming == Tail(old(incoming))
      ensures sent == old(sent) && writeError == old(writeError) && closed == old(closed)
    {
      r := Head(incoming);
      incoming := Tail(incoming);
    }

    method Close()
      modifies this
      ensures closed
      ensures sent == old(sent) && incoming == old(incoming) && writeError == old(writeError)
    {
      closed := true;
    }
  }

  // ---------------------------------------------------------------------------------------
  // authenticate

  /** One response `authenticate` checks: received, decoded, and of type `typ` and id `id`; `mismatch` otherwise. */
  function CheckResponse(r: Received, typ: int32, id: int32, mismatch: Error): (err: Option<Error>)
    ensures err.None? <==> r.Ok? && Decode(r.value).Ok? && Decode(r.value).value.typ == typ && Decode(r.value).value.id == id
  {
    match r
    case Err(e) => Some(e)
    case Ok(data) =>
      match Decode(data)
      case Err(e) => Some(e)
      case Ok(p) => if p.typ != typ || p.id != id then Some(mismatch) else None
  }

  datatype Authenticated = Authenticated(err: Option<Error>, rest: seq<Received>)

  /**
   * The checks of `authenticate` on the packets that answer the auth request `reqId`: first
   * an empty response value with that id (else `ErrInvalidResponseID`), then an auth response
   * with that id (else `ErrRCONAuthFailed`).
   */
  function Authentication(incoming: seq<Received>, reqId: int32): Authenticated {
    var first := CheckResponse(Head(incoming), RrtRespValue, reqId, ErrInvalidResponseID);
    if first.Some? then Authenticated(first, Tail(incoming))
    else Authenticated(CheckResponse(Head(Tail(incoming)), RrtAuthResp, reqId, ErrRCONAuthFailed), Tail(Tail(incoming)))
  }

  /** A server that answers with the empty response and the auth response, both carrying the request id, accepts the login. */
  lemma AuthenticationAccepts(reqId: int32, size1: int32, body1: seq<byte>, size2: int32, body2: seq<byte>, tail: seq<Received>)
    ensures Authentication([Ok(Marshal(Packet(size1, reqId, RrtRespValue, body1))),
                            Ok(Marshal(Packet(size2, reqId, RrtAuthResp, body2)))] + tail, reqId)
         == Authenticated(None, tail)
  {
    DecodeMarshal(Packet(size1, reqId, RrtRespValue, body1));
    DecodeMarshal(Packet(size2, reqId, RrtAuthResp, body2));
    var inc := [Ok(Marshal(Packet(size1, reqId, RrtRespValue, body1))),
                Ok(Marshal(Packet(size2, reqId, RrtAuthResp, body2)))] + tail;
    assert Tail(inc)[1..] == tail;
  }

  /** A wrong password: the server answers the auth response with another id (-1), and the login fails. */
  lemma AuthenticationRejects(reqId: int32, size1: int32, body1: seq<byte>, size2: int32, body2: seq<byte>, tail: seq<Received>)
    requires reqId != -1
    ensures Authentication([Ok(Marshal(Packet(size1, reqId, RrtRespValue, body1))),
                            Ok(Marshal(Packet(size2, -1, RrtAuthResp, body2)))] + tail, reqId).err
         == Some(ErrRCONAuthFailed)
  {
    DecodeMarshal(Packet(size1, reqId, RrtRespValue, body1));
    DecodeMarshal(Packet(size2, -1, RrtAuthResp, body2));
  }

  /**
   * The type check after the id check in `authenticate` can never fire: a first response of
   * the wrong type is reported as `ErrInvalidResponseID`, so `ErrInvalidResponseType` only
   * comes back when the connection itself reported it.
   */
  lemma AuthenticationNeverInvalidType(incoming: seq<Received>, reqId: int32)
    ensures Authentication(incoming, reqId).err == Some(ErrInvalidResponseType) ==>
      Head(incoming) == Err(ErrInvalidResponseType) || Head(Tail(incoming)) == Err(ErrInvalidResponseType)
  {
    var p := Head(incoming);
    if p.Ok? && Decode(p.value).Ok? && Decode(p.value).value.typ != RrtRespValue {
      assert Authentication(incoming, reqId).err == Some(ErrInvalidResponseID);
    }
  }

  // ---------------------------------------------------------------------------------------
  // Send

  datatype Reply = Reply(result: Result<seq<byte>, Error>, rest: seq<Received>)

  /**
   * The receive loop of `Send` for request `reqId` and mirror request `mirrorId`, from the
   * state `sawMirror` with the bodies `acc` gathered so far: every packet must be a response
   * value; before the mirror's answer, packets with the request's id add their bodies and any
   * other id is an error; the mirror's answer adds nothing, and the packet after it must carry
   * the trailer, which ends the loop with the gathered bodies.
   */
  function Responses(incoming: seq<Received>, reqId: int32, mirrorId: int32, sawMirror: bool, acc: seq<byte>): Reply
    decreases |incoming|
  {
    if incoming == [] then Reply(Err(EOF), [])
    else
      match incoming[0]
      case Err(e) => Reply(Err(e), incoming[1..])
      case Ok(data) =>
        match Decode(data)
        case Err(e) => Reply(Err(e), incoming[1..])
        case Ok(resp) =>
          if resp.typ != RrtRespValue then Reply(Err(ErrInvalidResponseType), incoming[1..])
          else if !sawMirror && resp.id == mirrorId then Responses(incoming[1..], reqId, mirrorId, true, acc)
          else if sawMirror then
            Reply(if resp.body == Trailer then Ok(acc) else Err(ErrInvalidResponseTrailer), incoming[1..])
          else if resp.id != reqId then Reply(Err(ErrInvalidResponseID), incoming[1..])
          else Responses(incoming[1..], reqId, mirrorId, false, acc + resp.body)
  }

  /** A received packet that decodes as a response value. */
  predicate ResponseValue(r: Received) {
    r.Ok? && Decode(r.value).Ok? && Decode(r.value).value.typ == RrtRespValue
  }

  /** An answer to the request: a response value with the request's id, which is not the mirror's. */
  predicate IsReply(r: Received, reqId: int32, mirrorId: int32) {
    ResponseValue(r) && Decode(r.value).value.id == reqId && reqId != mirrorId
  }

  predicate IsMirror(r: Received, mirrorId: int32) {
    ResponseValue(r) && Decode(r.value).value.id == mirrorId
  }

  predicate IsTrailer(r: Received) {
    ResponseValue(r) && Decode(r.value).value.body == Trailer
  }

  /** The bodies of the packets that decode, in order. */
  function Bodies(incoming: seq<Received>): seq<byte> {
    if incoming == [] then []
    else
      var r := incoming[0];
      (if r.Ok? && Decode(r.value).Ok? then Decode(r.value).value.body else []) + Bodies(incoming[1..])
  }

  /** After the mirror, only a trailer packet ends the loop successfully. */
  lemma ResponsesAfterMirror(incoming: seq<Received>, reqId: int32, mirrorId: int32, acc: seq<byte>)
    ensures Responses(incoming, reqId, mirrorId, true, acc).result.Ok? ==>
      incoming != [] && IsTrailer(incoming[0]) && Responses(incoming, reqId, mirrorId, true, acc) == Reply(Ok(acc), incoming[1..])
  {
  }

  /** One step of the loop on a packet that decodes as a response value. */
  lemma ResponsesUnfold(incoming: seq<Received>, reqId: int32, mirrorId: int32, sawMirror: bool, acc: seq<byte>)
    requires incoming != [] && ResponseValue(incoming[0])
    ensures var resp := Decode(incoming[0].value).value;
      Responses(incoming, reqId, mirrorId, sawMirror, acc) ==
        if !sawMirror && resp.id == mirrorId then Responses(incoming[1..], reqId, mirrorId, true, acc)
        else if sawMirror then
          Reply(if resp.body == Trailer then Ok(acc) else Err(ErrInvalidResponseTrailer), incoming[1..])
        else if resp.id != reqId then Reply(Err(ErrInvalidResponseID), incoming[1..])
        else Responses(incoming[1..], reqId, mirrorId, false, acc + resp.body)
  {
  }

  /** The replies before the mirror, gathered: `k` replies, then the mirror and the trailer. */
  predicate WellFormedAt(incoming: seq<Received>, reqId: int32, mirrorId: int32, k: nat) {
    && k + 2 <= |incoming|
    && (forall i :: 0 <= i < k ==> IsReply(incoming[i], reqId, mirrorId))
    && IsMirror(incoming[k], mirrorId) && IsTrailer(incoming[k + 1])
  }

  /** A reply in front of a well-formed answer keeps it well formed, one packet longer. */
  lemma WellFormedCons(incoming: seq<Received>, reqId: int32, mirrorId: int32, k: nat)
    requires incoming != [] && IsReply(incoming[0], reqId, mirrorId) && WellFormedAt(incoming[1..], reqId, mirrorId, k)
    ensures WellFormedAt(incoming, reqId, mirrorId, k + 1)
    ensures Bodies(incoming[..k + 1]) == Decode(incoming[0].value).value.body + Bodies(incoming[1..][..k])
    ensures incoming[1..][k + 2..] == incoming[k + 3..]
  {
    assert incoming[..k + 1][1..] == incoming[1..][..k];
    forall i | 0 < i < k + 1 ensures IsReply(incoming[i], reqId, mirrorId) {
      assert incoming[i] == incoming[1..][i - 1];
    }
  }

  /** A successful answer that starts with the mirror's answer is the mirror and a trailer. */
  lemma ResponsesOkAtMirror(incoming: seq<Received>, reqId: int32, mirrorId: int32, acc: seq<byte>)
    requires incoming != [] && IsMirror(incoming[0], mirrorId)
    requires Responses(incoming, reqId, mirrorId, false, acc).result.Ok?
    ensures WellFormedAt(incoming, reqId, mirrorId, 0)
    ensures Responses(incoming, reqId, mirrorId, false, acc) == Reply(Ok(acc + Bodies(incoming[..0])), incoming[2..])
  {
    ResponsesUnfold(incoming, reqId, mirrorId, false, acc);
    ResponsesAfterMirror(incoming[1..], reqId, mirrorId, acc);
    assert incoming[..0] == [] && acc + [] == acc;
    assert incoming[1..][1..] == incoming[2..];
  }

  /** A reply in front of a successful well-formed answer: its body comes first. */
  lemma ResponsesOkAtReply(incoming: seq<Received>, reqId: int32, mirrorId: int32, acc: seq<byte>, k: nat)
    requires incoming != [] && IsReply(incoming[0], reqId, mirrorId)
    requires WellFormedAt(incoming[1..], reqId, mirrorId, k)
    requires var body := Decode(incoming[0].value).value.body;
      Responses(incoming[1..], reqId, mirrorId, false, acc + body)
        == Reply(Ok(acc + body + Bodies(incoming[1..][..k])), incoming[1..][k + 2..])
    ensures WellFormedAt(incoming, reqId, mirrorId, k + 1)
    ensures Responses(incoming, reqId, mirrorId, false, acc) == Reply(Ok(acc + Bodies(incoming[..k + 1])), incoming[k + 3..])
  {
    var body := Decode(incoming[0].value).value.body;
    ResponsesUnfold(incoming, reqId, mirrorId, false, acc);
    WellFormedCons(incoming, reqId, mirrorId, k);
    assert acc + body + Bodies(incoming[1..][..k]) == acc + Bodies(incoming[..k + 1]);
  }

  /**
   * `Send` succeeds only on a well-formed answer: some replies to the request, then the
   * mirror's answer, then the trailer. The result is the replies' bodies in order, and
   * reading stops right after the trailer.
   */
  lemma {:induction false} ResponsesOk(incoming: seq<Received>, reqId: int32, mirrorId: int32, acc: seq<byte>)
    ensures Responses(incoming, reqId, mirrorId, false, acc).result.Ok? ==>
      exists k: nat :: WellFormedAt(incoming, reqId, mirrorId, k)
        && Responses(incoming, reqId, mirrorId, false, acc) == Reply(Ok(acc + Bodies(incoming[..k])), incoming[k + 2..])
    decreases |incoming|
  {
    var reply := Responses(incoming, reqId, mirrorId, false, acc);
    if incoming != [] && reply.result.Ok? {
      assert ResponseValue(incoming[0]);
      ResponsesUnfold(incoming, reqId, mirrorId, false, acc);
      var resp := Decode(incoming[0].value).value;
      if resp.id == mirrorId {
        ResponsesOkAtMirror(incoming, reqId, mirrorId, acc);
      } else {
        ResponsesOk(incoming[1..], reqId, mirrorId, acc + resp.body);
        var k: nat :| WellFormedAt(incoming[1..], reqId, mirrorId, k)
          && Responses(incoming[1..], reqId, mirrorId, false, acc + resp.body)
             == Reply(Ok(acc + resp.body + Bodies(incoming[1..][..k])), incoming[1..][k + 2..]);
        ResponsesOkAtReply(incoming, reqId, mirrorId, acc, k);
      }
    }
  }

  /** One step of the loop on a marshalled response. */
  lemma ResponsesStep(p: Packet, rest: seq<Received>, reqId: int32, mirrorId: int32, sawMirror: bool, acc: seq<byte>)
    requires p.typ == RrtRespValue
    ensures Responses([Ok(Marshal(p))] + rest, reqId, mirrorId, sawMirror, acc) ==
        if !sawMirror && p.id == mirrorId then Responses(rest, reqId, mirrorId, true, acc)
        else if sawMirror then
          Reply(if p.body == Trailer then Ok(acc) else Err(ErrInvalidResponseTrailer), rest)
        else if p.id != reqId then Reply(Err(ErrInvalidResponseID), rest)
        else Responses(rest, reqId, mirrorId, false, acc + p.body)
  {
    DecodeMarshal(p);
    assert ([Ok(Marshal(p))] + rest)[1..] == rest;
    ResponsesUnfold([Ok(Marshal(p))] + rest, reqId, mirrorId, sawMirror, acc);
  }

  /** The packets a server sends in answer to the request: one response value per body. */
  function ReplyPackets(bodies: seq<seq<byte>>, reqId: int32): seq<Received> {
    if bodies == [] then []
    else [Ok(Marshal(NewRequest(RrtRespValue, bodies[0], reqId)))] + ReplyPackets(bodies[1..], reqId)
  }

  function Flatten(bodies: seq<seq<byte>>): seq<byte> {
    if bodies == [] then [] else bodies[0] + Flatten(bodies[1..])
  }

  /** Replies to the request add their bodies, in order, and nothing else. */
  lemma {:induction false} ResponsesReplies(bodies: seq<seq<byte>>, reqId: int32, mirrorId: int32, acc: seq<byte>,
                                            rest: seq<Received>)
    requires reqId != mirrorId
    ensures Responses(ReplyPackets(bodies, reqId) + rest, reqId, mirrorId, false, acc)
         == Responses(rest, reqId, mirrorId, false, acc + Flatten(bodies))
    decreases |bodies|
  {
    if bodies == [] {
      assert ReplyPackets(bodies, reqId) + rest == rest;
      assert acc + [] == acc;
    } else {
      var reply := NewRequest(RrtRespValue, bodies[0], reqId);
      assert ReplyPackets(bodies, reqId) + rest == [Ok(Marshal(reply))] + (ReplyPackets(bodies[1..], reqId) + rest);
      ResponsesStep(reply, ReplyPackets(bodies[1..], reqId) + rest, reqId, mirrorId, false, acc);
      ResponsesReplies(bodies[1..], reqId, mirrorId, acc + bodies[0], rest);
      assert acc + bodies[0] + Flatten(bodies[1..]) == acc + Flatten(bodies);
    }
  }

  /**
   * A well-formed answer is accepted: the replies, the mirror's answer and the trailer give
   * the replies' bodies concatenated, and what follows the trailer is left unread.
   */
  lemma ResponsesAccept(bodies: seq<seq<byte>>, reqId: int32, mirrorId: int32, trailerId: int32, tail: seq<Received>)
    requires reqId != mirrorId
    ensures Responses(ReplyPackets(bodies, reqId)
                        + [Ok(Marshal(NewRequest(RrtRespValue, [], mirrorId))),
                           Ok(Marshal(NewRequest(RrtRespValue, Trailer, trailerId)))] + tail,
                      reqId, mirrorId, false, [])
         == Reply(Ok(Flatten(bodies)), tail)
  {
    var mirror := NewRequest(RrtRespValue, [], mirrorId);
    var trailer := NewRequest(RrtRespValue, Trailer, trailerId);
    var rest := [Ok(Marshal(trailer))] + tail;
    var ending := [Ok(Marshal(mirror))] + rest;
    assert ReplyPackets(bodies, reqId) + [Ok(Marshal(mirror)), Ok(Marshal(trailer))] + tail
        == ReplyPackets(bodies, reqId) + ending;
    ResponsesReplies(bodies, reqId, mirrorId, [], ending);
    ResponsesStep(mirror, rest, reqId, mirrorId, false, [] + Flatten(bodies));
    ResponsesStep(trailer, tail, reqId, mirrorId, true, [] + Flatten(bodies));
    assert [] + Flatten(bodies) == Flatten(bodies);
  }

  /** A result as `Send` returns it: the text, or "" and the error. */
  function Returned(r: Result<seq<byte>, Error>): (seq<byte>, Option<Error>) {
    match r
    case Ok(out) => (out, None)
    case Err(e) => ([], Some(e))
  }

  // ---------------------------------------------------------------------------------------
  // Server

  /** A `Server`: its address, RCON password, connection, and whether RCON was initialised. */
  class Server {
    var addr: string
    var rconPassword: seq<byte>
    var rsock: Socket?
    var rconInitialized: bool

    /** An initialised server has a connection. */
    predicate Valid()
      reads this
    {
      rconInitialized ==> rsock != null
    }

    constructor (addr: string, rconPassword: seq<byte>)
      ensures this.addr == addr && this.rconPassword == rconPassword
      ensures rsock == null && !rconInitialized && Valid()
    {
      this.addr := addr;
      this.rconPassword := rconPassword;
      this.rsock := null;
      this.rconInitialized := false;
    }

    /** `authenticate`: sends the auth request `reqId` carrying the password and checks the two answers. */
    method Authenticate(reqId: int32) returns (err: Option<Error>)
      requires rsock != null
      modifies rsock
      ensures old(rsock.writeError).Some? ==> err == old(rsock.writeError) && rsock.incoming == old(rsock.incoming)
      ensures old(rsock.writeError).None? ==>
        Authenticated(err, rsock.incoming) == Authentication(old(rsock.incoming), reqId)
      ensures rsock.sent == old(rsock.sent) + (if old(rsock.writeError).None? then [Marshal(NewRequest(RrtAuth, rconPassword, reqId))] else [])
      ensures rsock.writeError == old(rsock.writeError) && rsock.closed == old(rsock.closed)
    {
      var req := NewRequest(RrtAuth, rconPassword, reqId);
      var data, _ := MarshalBinary(req);
      err := rsock.Send(data);
      if err.Some? {
        return;
      }
      var received := rsock.Receive();
      if received.Err? {
        return Some(received.error);
      }
      var resp := new Response();
      err := resp.UnmarshalBinary(received.value);
      if err.Some? {
        return;
      }
      if resp.typ != RrtRespValue || resp.id != req.id {
        return Some(ErrInvalidResponseID);
      }
      if resp.id != req.id {
        return Some(ErrInvalidResponseType);
      }
      received := rsock.Receive();
      if received.Err? {
        return Some(received.error);
      }
      err := resp.UnmarshalBinary(received.value);
      if err.Some? {
        return;
      }
      if resp.typ != RrtAuthResp || resp.id != req.id {
        return Some(ErrRCONAuthFailed);
      }
      return None;
    }

    /**
     * `initRCON`: needs an address, then the connection `dial` gives, then a successful login;
     * a failed login closes the connection again.
     */
    method InitRCON(dial: Result<Socket, Error>, authId: int32) returns (err: Option<Error>)
      requires !rconInitialized
      modifies this, if dial.Ok? then {dial.value} else {}
      ensures addr == old(addr) && rconPassword == old(rconPassword) && Valid()
      ensures addr == "" ==> err == Some(ErrNoAddress) && !rconInitialized
      ensures addr != "" && dial.Err? ==> err == Some(dial.error) && !rconInitialized
      ensures addr != "" && dial.Ok? ==>
        && rsock == dial.value
        && err == (if old(dial.value.writeError).Some? then old(dial.value.writeError)
                   else Authentication(old(dial.value.incoming), authId).err)
        && rconInitialized == err.None?
        && rsock.closed == (old(dial.value.closed) || err.Some?)
    {
      if addr == "" {
        return Some(ErrNoAddress);
      }
      if dial.Err? {
        return Some(dial.error);
      }
      rsock := dial.value;
      err := Authenticate(authId);
      if err.Some? {
        rsock.Close();
        return;
      }
      rconInitialized := true;
    }

    /** `Close`: closes the connection only when RCON was initialised. */
    method Close()
      requires Valid()
      modifies rsock
      ensures rconInitialized ==> rsock.closed
      ensures !rconInitialized && rsock != null ==> rsock.closed == old(rsock.closed)
    {
      if rconInitialized {
        rsock.Close();
      }
    }

    /**
     * `Send`: on an initialised server, sends the command as request `reqId` and an empty
     * response value as mirror request `mirrorId`, then reads the answer as `Responses` does.
     * An uninitialised server fails with `ErrRCONNotInitialized` before sending anything.
     */
    method Send(cmd: seq<byte>, reqId: int32, mirrorId: int32) returns (out: seq<byte>, err: Option<Error>)
      requires Valid()
      modifies rsock
      ensures !rconInitialized ==> out == [] && err == Some(ErrRCONNotInitialized)
      ensures !rconInitialized && rsock != null ==> rsock.sent == old(rsock.sent) && rsock.incoming == old(rsock.incoming)
      ensures rconInitialized && old(rsock.writeError).Some? ==>
        out == [] && err == old(rsock.writeError) && rsock.sent == old(rsock.sent) && rsock.incoming == old(rsock.incoming)
      ensures rconInitialized && old(rsock.writeError).None? ==>
        && rsock.sent == old(rsock.sent) + [Marshal(NewRequest(RrtExecCmd, cmd, reqId)), Marshal(NewRequest(RrtRespValue, [], mirrorId))]
        && (out, err) == Returned(Responses(old(rsock.incoming), reqId, mirrorId, false, []).result)
        && rsock.incoming == Responses(old(rsock.incoming), reqId, mirrorId, false, []).rest
    {
      if !rconInitialized {
        return [], Some(ErrRCONNotInitialized);
      }
      var req := NewRequest(RrtExecCmd, cmd, reqId);
      var data, _ := MarshalBinary(req);
      err := rsock.Send(data);
      if err.Some? {
        return [], err;
      }
      var reqMirror := NewRequest(RrtRespValue, [], mirrorId);
      var mirrorData, _ := MarshalBinary(reqMirror);
      err := rsock.Send(mirrorData);
      if err.Some? {
        return [], err;
      }
      var buf: seq<byte> := [];
      var sawMirror := false;
      ghost var incoming0 := rsock.incoming;
      while true
        invariant rsock.sent == old(rsock.sent) + [Marshal(req), Marshal(reqMirror)]
        invariant Responses(incoming0, reqId, mirrorId, false, []) == Responses(rsock.incoming, reqId, mirrorId, sawMirror, buf)
        decreases |rsock.incoming|
      {
        ghost var before := rsock.incoming;
        var received := rsock.Receive();
        if received.Err? {
          return [], Some(received.error);
        }
        var resp := new Response();
        err := resp.UnmarshalBinary(received.value);
        if err.Some? {
          return [], err;
        }
        if resp.typ != RrtRespValue {
          return [], Some(ErrInvalidResponseType);
        }
        if !sawMirror && resp.id == reqMirror.id {
          sawMirror := true;
          continue;
        }
        if sawMirror {
          if resp.body == Trailer {
            return buf, None;
          }
          return [], Some(ErrInvalidResponseTrailer);
        }
        if req.id != resp.id {
          return [], Some(ErrInvalidResponseID);
        }
        buf := buf + resp.body;
      }
    }
  }

  /** `Connect`: without a password the server is returned as it is; otherwise RCON must initialise. */
  method Connect(addr: string, password: seq<byte>, dial: Result<Socket, Error>, authId: int32)
      returns (s: Server?, err: Option<Error>)
    modifies if dial.Ok? then {dial.value} else {}
    ensures password == [] ==> err.None? && s != null && fresh(s) && !s.rconInitialized && s.rsock == null
    ensures password != [] ==> (s != null <==> err.None?)
    ensures s != null ==> s.addr == addr && s.rconPassword == password && s.Valid()
    ensures password != [] && err.None? ==>
      addr != "" && dial.Ok? && old(dial.value.writeError).None?
      && Authentication(old(dial.value.incoming), authId).err.None?
      && s.rconInitialized && s.rsock == dial.value
    ensures password != [] && addr == "" ==> err == Some(ErrNoAddress)
    ensures password != [] && addr != "" && dial.Ok? && err.Some? ==> dial.value.closed
  {
    s := new Server(addr, password);
    if password == [] {
      return s, None;
    }
    err := s.InitRCON(dial, authId);
    if err.Some? {
      return null, err;
    }
  }
}
