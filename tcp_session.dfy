/** The receive loop and `send` of `TcpSession` (src/network/server/session.rs)
    and the `SessionEvent` it reports to the registry of
    src/network/server/mod.rs. The session channel is the sequence of events
    sent on it. */
module TcpSessions {
  import opened Base
  import opened StreamReader

  /** A `TcpSession` as the registry sees it: its id. */
  datatype TcpSession = TcpSession(id: u32)

  /** `SessionEvent` of src/network/server/mod.rs. */
  datatype SessionEvent =
    | Connected(session: TcpSession)
    | Disconnected(id: u32)
    | PacketData(data: seq<byte>)
    | PostPacket(to: u32, data: seq<byte>)
    | RequestDisconnect(id: u32)

  /** The length of `main_loop`'s `packet_buf`. */
  const PacketBufLen: nat := 0x1_0000

  /** One turn of `main_loop`, and the number of stream bytes it consumes. */
  datatype Frame = Frame(result: Outcome<Option<seq<byte>>>, consumed: nat)

  /** One turn of `main_loop` on a stream with `avail` bytes left: a failed
      or empty header read, or a failed `parse_packet`, ends the loop (`None`);
      a successful one yields the first `cnt` bytes of the packet buffer, `cnt`
      being the size byte, after consuming the header, the size byte and
      `cnt` more bytes. */
  function NextFrameSpec(avail: seq<byte>, end: StreamEnd): (r: Frame)
    ensures r.consumed <= |avail|
    ensures r.result.Ok? && r.result.value.Some? ==>
      && |avail| >= 2 && avail[1] >= 1
      && r.consumed == 2 + avail[1] as int
      && r.result.value.value == avail[..avail[1]]
  {
    if |avail| == 0 then Frame(Ok(None), 0)
    else
      var p := ParsePacketSpec(avail[0], avail[1..], end, PacketBufLen);
      match p.result
      case Panic => Frame(Panic, 1 + p.consumed)
      case Ok(Failure(_)) => Frame(Ok(None), 1 + p.consumed)
      case Ok(Success(cnt)) => Frame(Ok(Some(avail[..cnt])), 1 + p.consumed)
  }

  /** What `main_loop` sends on the session channel for a stream with
      `avail` bytes left: one `PacketData` per frame read, then
      `Disconnected(id)` from `close_client`. */
  function RxEvents(avail: seq<byte>, end: StreamEnd, id: u32): (r: Outcome<seq<SessionEvent>>)
    decreases |avail|
  {
    var f := NextFrameSpec(avail, end);
    match f.result
    case Panic => Panic
    case Ok(None) => Ok([Disconnected(id)])
    case Ok(Some(d)) => Then([PacketData(d)], RxEvents(avail[f.consumed..], end, id))
  }

  /** One turn of `main_loop`: the header read and `parse_packet` into
      `packetBuf`. */
  method NextFrame(packetBuf: array<byte>, src: ByteSource) returns (f: Outcome<Option<seq<byte>>>)
    requires src.Valid() && packetBuf.Length == PacketBufLen
    modifies packetBuf, src
    ensures src.Valid()
    ensures var s := NextFrameSpec(old(src.Rest()), src.end);
      && f == s.result && src.pos == old(src.pos) + s.consumed
      && (f.Ok? && f.value.Some? ==>
            && packetBuf[..s.consumed] == old(src.Rest())[..s.consumed]
            && packetBuf[s.consumed..] == old(packetBuf[s.consumed..]))
  {
    ghost var avail := src.Rest();
    var b := src.Read();
    if !b.Byte? {
      return Ok(None);
    }
    assert src.Rest() == avail[1..];
    var p := ParsePacket(b.b, packetBuf, src);
    ghost var s := ParsePacketSpec(avail[0], avail[1..], src.end, PacketBufLen);
    match p
    case Panic =>
      return Panic;
    case Ok(Failure(_)) =>
      return Ok(None);
    case Ok(Success(cnt)) =>
      assert packetBuf[..s.written] == [avail[0]] + packetBuf[1..s.written];
      assert avail[..s.written] == [avail[0]] + avail[1..][..s.written - 1];
      assert packetBuf[..cnt] == avail[..cnt];
      return Ok(Some(packetBuf[0..cnt]));
  }

  /** `TcpSession::main_loop` reading `src` for session `id`. */
  method MainLoop(src: ByteSource, id: u32) returns (r: Outcome<seq<SessionEvent>>)
    requires src.Valid()
    modifies src
    ensures r == RxEvents(old(src.Rest()), src.end, id)
  {
    var packetBuf := new byte[PacketBufLen];
    var sent: seq<SessionEvent> := [];
    ThenNil(RxEvents(src.Rest(), src.end, id));
    while true
      invariant src.Valid() && packetBuf.Length == PacketBufLen
      invariant RxEvents(old(src.Rest()), src.end, id) == Then(sent, RxEvents(src.Rest(), src.end, id))
      decreases |src.bytes| - src.pos
    {
      ghost var avail := src.Rest();
      var f := NextFrame(packetBuf, src);
      ghost var s := NextFrameSpec(avail, src.end);
      assert src.Rest() == avail[s.consumed..];
      match f
      case Panic =>
        return Panic;
      case Ok(None) =>
        break;
      case Ok(Some(d)) =>
        ThenAssoc(sent, [PacketData(d)], RxEvents(src.Rest(), src.end, id));
        sent := sent + [PacketData(d)];
    }
    return Ok(sent + [Disconnected(id)]);
  }

  /** A well-formed frame (header, size byte `sz >= 1`, `sz` more bytes) is
      consumed whole, `sz + 2` bytes, but only its first `sz` bytes are sent
      as `PacketData`; the loop then goes on with what follows. */
  lemma {:induction false} RxFrame(h: byte, sz: byte, data: seq<byte>, tail: seq<byte>, end: StreamEnd, id: u32)
    requires sz >= 1 && |data| == sz
    ensures RxEvents([h, sz] + data + tail, end, id)
         == Then([PacketData(([h, sz] + data)[..sz])], RxEvents(tail, end, id))
  {
    var avail := [h, sz] + data + tail;
    assert avail[1..] == [sz] + data + tail;
    C1FrameRead(sz, data, tail, end, PacketBufLen - 1);
    assert avail[..sz] == ([h, sz] + data)[..sz];
    assert avail[2 + sz..] == tail;
  }

  /** A size byte of 0 ends the session: the reader swallows the rest of the
      stream into the packet buffer, then reports the stream's end, or panics
      when more than 65534 bytes follow. */
  lemma {:induction false} RxZeroSize(h: byte, tail: seq<byte>, end: StreamEnd, id: u32)
    ensures RxEvents([h, 0] + tail, end, id)
         == if |tail| <= PacketBufLen - 2 then Ok([Disconnected(id)]) else Panic
  {
    var avail := [h, 0] + tail;
    assert avail[1..] == [0] + tail;
    C1ZeroSize(tail, end, PacketBufLen - 1);
  }

  /** Every run that does not panic sends some `PacketData` events and then
      exactly one `Disconnected(id)`, as its last event. */
  lemma {:induction false} RxEndsWithDisconnect(avail: seq<byte>, end: StreamEnd, id: u32)
    ensures var r := RxEvents(avail, end, id);
      r.Ok? ==>
        && |r.value| >= 1
        && r.value[|r.value| - 1] == Disconnected(id)
        && forall i :: 0 <= i < |r.value| - 1 ==> r.value[i].PacketData?
    decreases |avail|
  {
    var f := NextFrameSpec(avail, end);
    if f.result.Ok? && f.result.value.Some? {
      RxEndsWithDisconnect(avail[f.consumed..], end, id);
    }
  }

  /** The outcome of a `write` on the session's stream. */
  datatype WriteOutcome = Wrote(n: nat) | WriteError

  /** `TcpSession::send`: a write error is `StreamWriteFailure`; any write
      that returns, however many bytes it took, is success. */
  function Send(w: WriteOutcome): (r: Result<(), SessionError>)
    ensures r.Success? <==> w.Wrote?
    ensures r.Failure? ==> r.error == StreamWriteFailure
  {
    match w
    case Wrote(_) => Success(())
    case WriteError => Failure(StreamWriteFailure)
  }
}
