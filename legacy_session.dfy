/** The earlier session of src/network/session.rs: its `SessionEvent`
    constructors and its receive loop. Its `read_n_bytes`, `read_c1_data` and
    `parse_packet` are those of `StreamReader`. */
module LegacySessions {
  import opened Base
  import opened ByteOrder
  import opened StreamReader
  import TcpSessions

  datatype SessionEventType = Connected | Disconnected | Data

  /** `SessionEvent`: a kind and a byte payload. */
  datatype SessionEvent = SessionEvent(kind: SessionEventType, data: seq<byte>)

  /** `SessionEvent::connected`: the id as 4 big-endian bytes, which
      `get_u32` reads back. */
  function ConnectedEvent(id: u32): (r: SessionEvent)
    ensures r.kind == Connected && |r.data| == 4
    ensures GetU32(r.data) == id
  {
    GetBeU32(id);
    SessionEvent(Connected, BeU32(id))
  }

  /** `SessionEvent::disconnect`: the same 4-byte encoding of the id. */
  function DisconnectEvent(id: u32): (r: SessionEvent)
    ensures r.kind == Disconnected && |r.data| == 4
    ensures GetU32(r.data) == id
  {
    GetBeU32(id);
    SessionEvent(Disconnected, BeU32(id))
  }

  /** `SessionEvent::data`: a copy of the given bytes. */
  function DataEvent(d: seq<byte>): (r: SessionEvent)
    ensures r.kind == Data && r.data == d
  {
    SessionEvent(Data, d)
  }

  /** The two id-carrying events differ only in their kind. */
  lemma {:induction false} IdEventsShareEncoding(id: u32, other: u32)
    ensures ConnectedEvent(id).data == DisconnectEvent(id).data
    ensures ConnectedEvent(id).data == ConnectedEvent(other).data <==> id == other
  {
    if ConnectedEvent(id).data == ConnectedEvent(other).data {
      assert GetU32(ConnectedEvent(id).data) == GetU32(ConnectedEvent(other).data);
    }
  }

  /** `packet_buf` as `main_loop` allocates it. */
  function ZeroBuf(): (r: seq<byte>)
    ensures |r| == TcpSessions.PacketBufLen
    ensures forall i :: 0 <= i < |r| ==> r[i] == 0
  {
    seq(TcpSessions.PacketBufLen, _ => 0)
  }

  /** What `Session::main_loop` sends for a stream with `avail` bytes left
      when the packet buffer holds `buf`: each frame read overwrites the front
      of the buffer with the bytes it consumed, and the event sent is
      `data(&packet_buf)`, the whole buffer; then `disconnect(id)`. */
  function RxEvents(avail: seq<byte>, end: StreamEnd, id: u32, buf: seq<byte>): (r: Outcome<seq<SessionEvent>>)
    requires |buf| == TcpSessions.PacketBufLen
    decreases |avail|
  {
    var f := TcpSessions.NextFrameSpec(avail, end);
    match f.result
    case Panic => Panic
    case Ok(None) => Ok([DisconnectEvent(id)])
    case Ok(Some(_)) =>
      var nb := avail[..f.consumed] + buf[f.consumed..];
      Then([DataEvent(nb)], RxEvents(avail[f.consumed..], end, id, nb))
  }

  /** A turn of `main_loop` that reads a frame sends the buffer it leaves. */
  lemma RxStep(avail: seq<byte>, end: StreamEnd, id: u32, buf: seq<byte>, nb: seq<byte>, sent: seq<SessionEvent>)
    requires |buf| == TcpSessions.PacketBufLen
    requires var f := TcpSessions.NextFrameSpec(avail, end);
      && f.result.Ok? && f.result.value.Some?
      && nb == avail[..f.consumed] + buf[f.consumed..]
    ensures var f := TcpSessions.NextFrameSpec(avail, end);
      Then(sent, RxEvents(avail, end, id, buf))
      == Then(sent + [DataEvent(nb)], RxEvents(avail[f.consumed..], end, id, nb))
  {
    var f := TcpSessions.NextFrameSpec(avail, end);
    ThenAssoc(sent, [DataEvent(nb)], RxEvents(avail[f.consumed..], end, id, nb));
  }

  /** A turn of `main_loop` that reads no frame ends with `disconnect(id)`. */
  lemma RxEnds(avail: seq<byte>, end: StreamEnd, id: u32, buf: seq<byte>, sent: seq<SessionEvent>)
    requires |buf| == TcpSessions.PacketBufLen
    requires TcpSessions.NextFrameSpec(avail, end).result == Ok(None)
    ensures Then(sent, RxEvents(avail, end, id, buf)) == Ok(sent + [DisconnectEvent(id)])
  {
  }

  /** A turn of `main_loop` that panics ends the run with the panic. */
  lemma RxPanics(avail: seq<byte>, end: StreamEnd, id: u32, buf: seq<byte>, sent: seq<SessionEvent>)
    requires |buf| == TcpSessions.PacketBufLen
    requires TcpSessions.NextFrameSpec(avail, end).result == Panic
    ensures Then(sent, RxEvents(avail, end, id, buf)) == Panic
  {
  }

  /** `let mut packet_buf = [0; 65536]`. */
  method NewPacketBuf() returns (a: array<byte>)
    ensures fresh(a) && a[..] == ZeroBuf()
  {
    a := new byte[TcpSessions.PacketBufLen](_ => 0);
    assert a[..] == ZeroBuf();
  }

  /** One turn of `Session::main_loop`: what it sends after `sent`, in terms
      of the stream and the packet buffer before and after the turn. */
  method Turn(packetBuf: array<byte>, src: ByteSource, id: u32, ghost sent: seq<SessionEvent>)
    returns (f: Outcome<Option<seq<byte>>>)
    requires src.Valid() && packetBuf.Length == TcpSessions.PacketBufLen
    modifies packetBuf, src
    ensures src.Valid()
    ensures f.Panic? ==> Then(sent, RxEvents(old(src.Rest()), src.end, id, old(packetBuf[..]))) == Panic
    ensures f == Ok(None) ==>
      Then(sent, RxEvents(old(src.Rest()), src.end, id, old(packetBuf[..]))) == Ok(sent + [DisconnectEvent(id)])
    ensures f.Ok? && f.value.Some? ==>
      && src.pos > old(src.pos)
      && Then(sent, RxEvents(old(src.Rest()), src.end, id, old(packetBuf[..])))
         == Then(sent + [DataEvent(packetBuf[..])], RxEvents(src.Rest(), src.end, id, packetBuf[..]))
  {
    ghost var avail := src.Rest();
    ghost var buf := packetBuf[..];
    f := TcpSessions.NextFrame(packetBuf, src);
    ghost var s := TcpSessions.NextFrameSpec(avail, src.end);
    assert src.Rest() == avail[s.consumed..];
    match f
    case Panic =>
      RxPanics(avail, src.end, id, buf, sent);
    case Ok(None) =>
      RxEnds(avail, src.end, id, buf, sent);
    case Ok(Some(_)) =>
      assert packetBuf[..] == packetBuf[..s.consumed] + packetBuf[s.consumed..];
      RxStep(avail, src.end, id, buf, packetBuf[..], sent);
  }

  /** `Session::main_loop` reading `src` for session `id`. */
  method MainLoop(src: ByteSource, id: u32) returns (r: Outcome<seq<SessionEvent>>)
    requires src.Valid()
    modifies src
    ensures r == RxEvents(old(src.Rest()), src.end, id, ZeroBuf())
  {
    var packetBuf := NewPacketBuf();
    var sent: seq<SessionEvent> := [];
    ThenNil(RxEvents(src.Rest(), src.end, id, packetBuf[..]));
    while true
      invariant src.Valid() && packetBuf.Length == TcpSessions.PacketBufLen
      invariant RxEvents(old(src.Rest()), src.end, id, ZeroBuf())
             == Then(sent, RxEvents(src.Rest(), src.end, id, packetBuf[..]))
      decreases |src.bytes| - src.pos
    {
      var f := Turn(packetBuf, src, id, sent);
      match f
      case Panic =>
        return Panic;
      case Ok(None) =>
        break;
      case Ok(Some(_)) =>
        sent := sent + [DataEvent(packetBuf[..])];
    }
    return Ok(sent + [DisconnectEvent(id)]);
  }

  /** Every `Data` event of a run carries the whole 65536-byte buffer, never
      just the frame. */
  lemma {:induction false} RxSendsWholeBuffer(avail: seq<byte>, end: StreamEnd, id: u32, buf: seq<byte>)
    requires |buf| == TcpSessions.PacketBufLen
    ensures var r := RxEvents(avail, end, id, buf);
      r.Ok? ==> forall i :: 0 <= i < |r.value| && r.value[i].kind == Data ==>
        |r.value[i].data| == TcpSessions.PacketBufLen
    decreases |avail|
  {
    var f := TcpSessions.NextFrameSpec(avail, end);
    if f.result.Ok? && f.result.value.Some? {
      var nb := avail[..f.consumed] + buf[f.consumed..];
      assert |nb| == TcpSessions.PacketBufLen;
      RxSendsWholeBuffer(avail[f.consumed..], end, id, nb);
      var rest := RxEvents(avail[f.consumed..], end, id, nb);
      if rest.Ok? {
        var r := RxEvents(avail, end, id, buf);
        assert r.value == [DataEvent(nb)] + rest.value;
        forall i | 0 <= i < |r.value| && r.value[i].kind == Data
          ensures |r.value[i].data| == TcpSessions.PacketBufLen
        {
          if i > 0 {
            assert r.value[i] == rest.value[i - 1];
          } else {
            assert r.value[i] == DataEvent(nb);
          }
        }
      }
    }
  }

  /** The first frame of a session, `sz >= 1`: its event holds the header,
      the size byte and the `sz` bytes read, padded with the buffer's zeros
      to 65536 bytes. */
  lemma {:induction false} RxFirstFrame(h: byte, sz: byte, data: seq<byte>, tail: seq<byte>, end: StreamEnd, id: u32)
    requires sz >= 1 && |data| == sz
    ensures var r := RxEvents([h, sz] + data + tail, end, id, ZeroBuf());
      r.Ok? ==> r.value[0] == DataEvent([h, sz] + data + ZeroBuf()[2 + sz..])
  {
    var avail := [h, sz] + data + tail;
    assert avail[1..] == [sz] + data + tail;
    C1FrameRead(sz, data, tail, end, TcpSessions.PacketBufLen - 1);
    assert avail[..2 + sz] == [h, sz] + data;
  }
}
