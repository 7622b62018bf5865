/** The tokio codec of lib/mu-proto/src/codec.rs: `decode` cuts one MU frame
    off the front of a receive buffer, `encode` writes a packet into a send
    buffer. */
module MuCodec {
  import opened Base
  import opened ByteOrder
  import opened MuPackets

  /** A `BytesMut`: its readable bytes. Reserving capacity does not change
      them, so capacity is not modelled. */
  class ByteBuf {
    var bytes: seq<byte>

    constructor (init: seq<byte>)
      ensures bytes == init
    {
      bytes := init;
    }
  }

  /** The size a frame header announces: `buf[1]` for 0xC1, big-endian
      `buf[1..3]` for 0xC2. */
  function DeclaredSize(buf: seq<byte>): (r: nat)
    requires |buf| >= 3 && (buf[0] == 0xC1 || buf[0] == 0xC2)
    ensures r < 0x1_0000
    ensures buf[0] == 0xC1 ==> r == buf[1]
    ensures buf[0] == 0xC2 ==> BeU16(r) == buf[1..3]
  {
    if buf[0] == 0xC1 then buf[1] else GetU16(buf[1..3])
  }

  /** What one `decode` call returns and what stays in the buffer. */
  datatype Decoded = Decoded(result: Outcome<Option<MuPacket>>, rest: seq<byte>)

  /** `decode` on the readable bytes `buf`: need more (`None`, nothing
      consumed) below 3 bytes or below the announced size; panic on an unknown
      frame kind; otherwise the packet `new` reads from the first `sz` bytes,
      which are consumed. */
  function DecodeSpec(buf: seq<byte>): (r: Decoded)
    ensures |buf| < 3 ==> r == Decoded(Ok(None), buf)
    ensures |buf| >= 3 && buf[0] != 0xC1 && buf[0] != 0xC2 ==> r.result == Panic
    ensures r.result == Ok(None) ==> r.rest == buf
    ensures r.result.Panic? ==> r.rest == buf
    ensures |buf| >= 3 && (buf[0] == 0xC1 || buf[0] == 0xC2) && |buf| < DeclaredSize(buf) ==>
      r == Decoded(Ok(None), buf)
    ensures |buf| >= 3 && (buf[0] == 0xC1 || buf[0] == 0xC2) && |buf| >= DeclaredSize(buf) ==>
      r.result == New(buf[..DeclaredSize(buf)])
    ensures r.result.Ok? && r.result.value.Some? ==>
      && |buf| >= 3 && (buf[0] == 0xC1 || buf[0] == 0xC2)
      && |r.rest| == |buf| - DeclaredSize(buf)
      && buf == buf[..DeclaredSize(buf)] + r.rest
      && New(buf[..DeclaredSize(buf)]) == r.result
  {
    if |buf| < 3 then Decoded(Ok(None), buf)
    else if buf[0] != 0xC1 && buf[0] != 0xC2 then Decoded(Panic, buf)
    else
      var sz := DeclaredSize(buf);
      if |buf| < sz then Decoded(Ok(None), buf)
      else match New(buf[..sz])
        case Panic => Decoded(Panic, buf)
        case Ok(pkt) => Decoded(Ok(pkt), buf[sz..])
  }

  /** `MuCodec::decode`. */
  method Decode(buf: ByteBuf) returns (r: Outcome<Option<MuPacket>>)
    modifies buf
    ensures Decoded(r, buf.bytes) == DecodeSpec(old(buf.bytes))
  {
    if |buf.bytes| < 3 {
      return Ok(None);
    }
    var kind := buf.bytes[0];
    var sz: nat;
    if kind == 0xC1 {
      sz := buf.bytes[1];
    } else if kind == 0xC2 {
      sz := (buf.bytes[1] as int) * 0x100 + buf.bytes[2];
    } else {
      return Panic;
    }
    if |buf.bytes| < sz {
      return Ok(None);
    }
    var pkt := New(buf.bytes[0..sz]);
    if pkt.Panic? {
      return Panic;
    }
    buf.bytes := buf.bytes[sz..];
    return pkt;
  }

  /** A packet that frames itself: consistent, announcing its own length, and
      short enough for a one-byte size when it is a 0xC1 frame. */
  predicate SelfFramed(p: MuPacket)
  {
    && Consistent(p)
    && p.sz == Len(p)
    && (p.kind == 0xC1 ==> Len(p) < 0x100)
  }

  /** The bytes `serialize` writes announce their own length. */
  lemma {:induction false} WireDeclaresLen(p: MuPacket, rest: seq<byte>)
    requires SelfFramed(p)
    ensures |Wire(p) + rest| >= 3
    ensures (Wire(p) + rest)[0] == p.kind
    ensures DeclaredSize(Wire(p) + rest) == Len(p)
  {
    var w := Wire(p) + rest;
    assert w[0] == p.kind;
    assert w[1..1 + SizeWidth(p.kind)] == SizeBytes(p.kind, p.sz);
    if p.kind == 0xC2 {
      assert w[1..3] == BeU16(p.sz);
      GetBeU16(p.sz);
    }
  }

  /** Any proper prefix of a self-framed packet's bytes is left in the buffer
      untouched: `decode` asks for more and never panics on it. */
  lemma {:induction false} DecodePartialFrame(p: MuPacket, k: nat)
    requires SelfFramed(p)
    requires k < Len(p)
    ensures DecodeSpec(Wire(p)[..k]) == Decoded(Ok(None), Wire(p)[..k])
  {
    var w := Wire(p)[..k];
    if |w| >= 3 {
      WireDeclaresLen(p, []);
      assert Wire(p) + [] == Wire(p);
      assert w[..3] == Wire(p)[..3];
      assert DeclaredSize(w) == DeclaredSize(Wire(p));
    }
  }

  /** `decode` of a self-framed packet's bytes followed by anything returns
      exactly that packet and leaves exactly what followed. */
  lemma {:induction false} DecodeRoundTrip(p: MuPacket, rest: seq<byte>)
    requires SelfFramed(p)
    ensures DecodeSpec(Wire(p) + rest) == Decoded(Ok(Some(p)), rest)
  {
    var w := Wire(p) + rest;
    WireDeclaresLen(p, rest);
    assert w[..Len(p)] == Wire(p);
    NewWire(p);
    assert w[Len(p)..] == rest;
  }

  /** `MuCodec::encode` as written: `reserve` grows the capacity but not the
      readable bytes, so `serialize` sees the buffer's current length; it
      fails with `BufferTooSmall` when that is below `len()`, and `unwrap`
      panics. Otherwise the packet overwrites the front of the buffer. */
  method Encode(msg: MuPacket, buf: ByteBuf) returns (r: Outcome<()>)
    modifies buf
    ensures |old(buf.bytes)| < Len(msg) ==> r == Panic
    ensures |old(buf.bytes)| >= Len(msg) ==> (r.Ok? <==> Consistent(msg))
    ensures r.Ok? ==> buf.bytes == Wire(msg) + old(buf.bytes)[Len(msg)..]
  {
    var view := new byte[|buf.bytes|](i requires 0 <= i < |buf.bytes| reads buf => buf.bytes[i]);
    assert view[..] == buf.bytes;
    var res := Serialize(msg, view);
    if res != Ok(Success(Len(msg))) {
      return Panic;
    }
    buf.bytes := view[..];
    return Ok(());
  }

  /** The codec is handed an empty buffer for each frame it sends; `encode`
      as written panics on it for every packet. */
  method EncodeIntoEmptyPanics(msg: MuPacket) returns (r: Outcome<()>)
    ensures r == Panic
  {
    var buf := new ByteBuf([]);
    r := Encode(msg, buf);
  }

  /** `encode` as intended: append the packet's `len()` bytes to the buffer;
      only the sub-code mismatch of `serialize` is left to panic. */
  method EncodeAppend(msg: MuPacket, buf: ByteBuf) returns (r: Outcome<()>)
    modifies buf
    ensures r.Ok? <==> Consistent(msg)
    ensures r.Ok? ==> buf.bytes == old(buf.bytes) + Wire(msg)
  {
    var tail := new byte[Len(msg)];
    var res := Serialize(msg, tail);
    if res != Ok(Success(Len(msg))) {
      return Panic;
    }
    assert tail[..] == Wire(msg) + [];
    buf.bytes := buf.bytes + tail[..];
    return Ok(());
  }

  /** With the intended `encode`, a self-framed packet the encoder appends to
      an empty buffer comes back out of `decode`, and nothing is left over. */
  method EncodeAppendThenDecode(msg: MuPacket) returns (r: Outcome<Option<MuPacket>>, left: seq<byte>)
    requires SelfFramed(msg)
    ensures r == Ok(Some(msg)) && left == []
  {
    var buf := new ByteBuf([]);
    var e := EncodeAppend(msg, buf);
    assert buf.bytes == Wire(msg) + [];
    DecodeRoundTrip(msg, []);
    r := Decode(buf);
    left := buf.bytes;
  }
}
