/** The MU packet of lib/mu-proto/src/packet.rs: a frame kind byte (0xC1 with
    a one-byte size, 0xC2 with a two-byte big-endian size), the code byte, a
    sub-code byte for the codes in `SubCodePkts`, and the payload. */
module MuPackets {
  import opened Base
  import opened ByteOrder
  import opened MuProtocol

  /** The frame kinds a `MuPacket` can hold: its fields are private and both
      `new` and `from_protocol` only ever store 0xC1 or 0xC2. */
  type FrameKind = k: byte | k == 0xC1 || k == 0xC2 witness 0xC1

  /** `MuPacket`: `sz` is the size as read or as computed by
      `from_protocol`; `subCode` is 0 when the header has none. */
  datatype MuPacket = MuPacket(kind: FrameKind, sz: u16, code: byte, subCode: byte, data: seq<byte>)

  datatype MuPacketError = BufferTooSmall

  /** `has_sub_code`. */
  predicate HasSubCode(code: byte)
  {
    code in SubCodePkts
  }

  /** The width of the size field of a frame kind. */
  function SizeWidth(kind: FrameKind): nat
  {
    if kind == 0xC1 then 1 else 2
  }

  /** `header_len`: 2 for 0xC1 and 3 for 0xC2, plus 2 with a sub-code and 1
      without; any other kind panics. That is one kind byte, the size field,
      the code byte and the optional sub-code byte. */
  function HeaderLen(kind: byte, code: byte): (r: Outcome<u16>)
    ensures r.Ok? <==> kind == 0xC1 || kind == 0xC2
    ensures r.Ok? ==> r.value == 1 + SizeWidth(kind) + 1 + (if HasSubCode(code) then 1 else 0)
  {
    var res := if kind == 0xC1 then 2 else if kind == 0xC2 then 3 else 0;
    if res == 0 then Panic
    else if HasSubCode(code) then Ok(res + 2)
    else Ok(res + 1)
  }

  /** The size field as `serialize` writes it: truncated to a `u8` for 0xC1,
      big-endian for 0xC2. */
  function SizeBytes(kind: FrameKind, sz: u16): (r: seq<byte>)
    ensures |r| == SizeWidth(kind)
  {
    if kind == 0xC1 then [AsU8(sz)] else BeU16(sz)
  }

  /** The header bytes `serialize` writes: the sub-code byte goes out exactly
      when `sub_code > 0`. */
  function WireHeader(p: MuPacket): seq<byte>
  {
    [p.kind] + SizeBytes(p.kind, p.sz) + [p.code] + (if p.subCode > 0 then [p.subCode] else [])
  }

  /** Everything `serialize` writes for `p`. */
  function Wire(p: MuPacket): seq<byte>
  {
    WireHeader(p) + p.data
  }

  /** `serialize` tests `sub_code > 0` where `header_len` tests the code;
      a packet is consistent when the two agree. */
  predicate Consistent(p: MuPacket)
  {
    (p.subCode > 0) <==> HasSubCode(p.code)
  }

  /** `len`: header length plus payload length. For a consistent packet it is
      the number of bytes `serialize` writes. */
  function Len(p: MuPacket): (r: nat)
    ensures r >= 3
    ensures Consistent(p) ==> r == |Wire(p)|
  {
    HeaderLen(p.kind, p.code).value + |p.data|
  }

  /** The header bytes that `new` needs to read for a buffer starting with a
      known frame kind: kind, size field, code, and the sub-code when the code
      has one. */
  predicate HeaderFits(buffer: seq<byte>)
    requires |buffer| >= 1 && (buffer[0] == 0xC1 || buffer[0] == 0xC2)
  {
    var n := 1 + SizeWidth(buffer[0]);
    |buffer| > n && (HasSubCode(buffer[n]) ==> |buffer| > n + 1)
  }

  /** `MuPacket::new`: `None` for an unknown first byte; otherwise the kind,
      the size as 1 byte (0xC1) or big-endian 2 bytes (0xC2), the code, the
      sub-code byte when the code has one (else 0), and every remaining byte as
      data, whatever the size says. Indexing past a short buffer panics. */
  function New(buffer: seq<byte>): (r: Outcome<Option<MuPacket>>)
    ensures |buffer| >= 1 && buffer[0] != 0xC1 && buffer[0] != 0xC2 ==> r == Ok(None)
    ensures r.Ok? <==> |buffer| >= 1 && (buffer[0] == 0xC1 || buffer[0] == 0xC2 ==> HeaderFits(buffer))
    ensures r.Ok? && r.value.Some? ==>
      var p := r.value.value;
      && buffer == [p.kind] + SizeBytes(p.kind, p.sz) + [p.code]
                    + (if HasSubCode(p.code) then [p.subCode] else []) + p.data
      && (!HasSubCode(p.code) ==> p.subCode == 0)
      && (p.kind == 0xC1 ==> p.sz < 0x100)
    ensures r.Ok? && (buffer[0] == 0xC1 || buffer[0] == 0xC2) ==> r.value.Some?
  {
    if |buffer| < 1 then Panic
    else
      var kind := buffer[0];
      if kind != 0xC1 && kind != 0xC2 then Ok(None)
      else
        var n := 1;
        if |buffer| < n + SizeWidth(kind) then Panic
        else
          var sz: u16 := if kind == 0xC1 then buffer[n] else GetU16(buffer[n..n + 2]);
          var n := n + SizeWidth(kind);
          if |buffer| <= n then Panic
          else
            var code := buffer[n];
            var n := n + 1;
            if HasSubCode(code) && |buffer| <= n then Panic
            else
              var subCode := if HasSubCode(code) then buffer[n] else 0;
              var n := if HasSubCode(code) then n + 1 else n;
              var p := MuPacket(kind, sz, code, subCode, buffer[n..]);
              SizeFieldRead(buffer, kind);
              HeaderSplit(buffer, SizeBytes(kind, sz), code, if HasSubCode(code) then [subCode] else []);
              Ok(Some(p))
  }

  /** The size field `new` reads is written back as the same bytes. */
  lemma SizeFieldRead(buffer: seq<byte>, kind: FrameKind)
    requires |buffer| >= 1 + SizeWidth(kind)
    ensures SizeBytes(kind, if kind == 0xC1 then buffer[1] else GetU16(buffer[1..3])) == buffer[1..1 + SizeWidth(kind)]
  {
    if kind == 0xC1 {
      assert buffer[1..2] == [buffer[1]];
    } else {
      assert buffer[1..3][..2] == buffer[1..3];
    }
  }

  /** A buffer read as a kind byte, a size field, a code byte and an
      optional sub-code is those pieces followed by the rest. */
  lemma HeaderSplit(buffer: seq<byte>, size: seq<byte>, code: byte, sub: seq<byte>)
    requires 2 + |size| + |sub| <= |buffer|
    requires buffer[1..1 + |size|] == size && buffer[1 + |size|] == code
    requires buffer[2 + |size|..2 + |size| + |sub|] == sub
    ensures buffer == [buffer[0]] + size + [code] + sub + buffer[2 + |size| + |sub|..]
  {
    var w := |size|;
    assert buffer == buffer[..1] + buffer[1..1 + w] + buffer[1 + w..2 + w] + buffer[2 + w..2 + w + |sub|] + buffer[2 + w + |sub|..];
  }

  /** `new` applied to what `serialize` writes gives back the kind, code,
      sub-code and data, and the size as the size field carried it (its low
      8 bits for 0xC1), whenever the packet is consistent. */
  lemma {:induction false} NewWire(p: MuPacket)
    requires Consistent(p)
    ensures New(Wire(p)) == Ok(Some(p.(sz := if p.kind == 0xC1 then AsU8(p.sz) else p.sz)))
  {
    var w := Wire(p);
    var q := New(w).value.value;
    var n := 1 + SizeWidth(p.kind);
    assert w[n] == p.code;
    assert HasSubCode(p.code) ==> w[n + 1] == p.subCode;
    assert w == [q.kind] + SizeBytes(q.kind, q.sz) + [q.code] + (if HasSubCode(q.code) then [q.subCode] else []) + q.data;
    assert q.kind == p.kind && q.code == p.code && q.subCode == p.subCode;
    assert SizeBytes(q.kind, q.sz) == w[1..n] == SizeBytes(p.kind, p.sz);
    if p.kind == 0xC2 {
      assert BeU16(q.sz) == BeU16(p.sz);
      GetBeU16(q.sz);
      GetBeU16(p.sz);
    }
    assert |WireHeader(p)| == n + 1 + (if HasSubCode(p.code) then 1 else 0);
    assert q.data == w[|WireHeader(p)|..] == p.data;
  }

  /** `serialize`: `BufferTooSmall` (nothing written) when `buf` is shorter
      than `len()`; otherwise writes the header, with the sub-code byte only
      when `sub_code > 0`, and copies the data into `buf[idx..len()]`, which
      panics unless the two sub-code tests agree. On success returns `len()`
      and leaves `buf[len()..]` untouched. */
  method Serialize(p: MuPacket, buf: array<byte>) returns (r: Outcome<Result<nat, MuPacketError>>)
    modifies buf
    ensures buf.Length < Len(p) ==> r == Ok(Failure(BufferTooSmall)) && buf[..] == old(buf[..])
    ensures buf.Length >= Len(p) ==> (r == Ok(Success(Len(p))) <==> Consistent(p))
    ensures buf.Length >= Len(p) && !Consistent(p) ==> r == Panic
    ensures r == Ok(Success(Len(p))) ==> buf[..] == Wire(p) + old(buf[Len(p)..])
  {
    var len := Len(p);
    if buf.Length < len {
      return Ok(Failure(BufferTooSmall));
    }
    var h := WriteHeader(p, buf);
    if h.Panic? {
      return Panic;
    }
    if h.value <= len {
      assert buf[len..] == buf[h.value..][len - h.value..];
    }
    r := WriteData(p, buf, h.value);
  }

  /** The data part of `serialize`: `buf[idx..len()].clone_from_slice(&data)`
      after the header, which panics unless the slice has exactly `|data|`
      bytes, i.e. unless the two sub-code tests agree. */
  method WriteData(p: MuPacket, buf: array<byte>, idx: nat) returns (r: Outcome<Result<nat, MuPacketError>>)
    requires buf.Length >= Len(p) && idx == |WireHeader(p)| <= buf.Length
    requires buf[..idx] == WireHeader(p)
    modifies buf
    ensures r == Ok(Success(Len(p))) <==> Consistent(p)
    ensures !Consistent(p) ==> r == Panic
    ensures r.Ok? ==> buf[..] == Wire(p) + old(buf[Len(p)..])
  {
    var len := Len(p);
    WireLenAgrees(p);
    if idx > len || len - idx != |p.data| {
      return Panic;
    }
    CopyData(buf, idx, p.data);
    assert buf[..idx] == WireHeader(p) && buf[idx..len] == p.data;
    assert buf[..] == buf[..idx] + buf[idx..len] + buf[len..];
    assert Wire(p) == WireHeader(p) + p.data;
    return Ok(Success(len));
  }

  /** The header `serialize` writes and the data fill exactly `len()`
      bytes iff the two sub-code tests agree. */
  lemma WireLenAgrees(p: MuPacket)
    ensures |WireHeader(p)| + |p.data| == Len(p) <==> Consistent(p)
  {
  }

  /** The header part of `serialize`: kind, size field and code, then the
      sub-code byte when `sub_code > 0`, which indexes past the end of a
      buffer that has no room for it. Returns the index after the header. */
  method WriteHeader(p: MuPacket, buf: array<byte>) returns (r: Outcome<nat>)
    requires buf.Length >= Len(p)
    modifies buf
    ensures r.Panic? <==> p.subCode > 0 && 2 + SizeWidth(p.kind) >= buf.Length
    ensures r.Ok? ==> && r.value == |WireHeader(p)| <= buf.Length
                      && buf[..r.value] == WireHeader(p)
                      && buf[r.value..] == old(buf[r.value..])
  {
    ghost var hdr := WireHeader(p);
    var idx := 0;
    buf[idx] := p.kind;
    idx := idx + 1;
    if p.kind == 0xC1 {
      buf[idx] := AsU8(p.sz);
      idx := idx + 1;
    } else {
      buf[idx] := (p.sz / 0x100) % 0x100;
      buf[idx + 1] := p.sz % 0x100;
      idx := idx + 2;
    }
    buf[idx] := p.code;
    idx := idx + 1;
    if p.subCode > 0 {
      if idx >= buf.Length {
        return Panic;
      }
      buf[idx] := p.subCode;
      idx := idx + 1;
    }
    assert idx == |hdr|;
    assert buf[..idx] == hdr;
    return Ok(idx);
  }

  /** `clone_from_slice` of `data` into `buf[idx..idx + |data|]`. */
  method CopyData(buf: array<byte>, idx: nat, data: seq<byte>)
    requires idx + |data| <= buf.Length
    modifies buf
    ensures buf[..idx] == old(buf[..idx])
    ensures buf[idx..idx + |data|] == data
    ensures buf[idx + |data|..] == old(buf[idx + |data|..])
  {
    var k := 0;
    while k < |data|
      invariant 0 <= k <= |data|
      invariant forall i :: 0 <= i < buf.Length ==> buf[i] == if idx <= i < idx + k then data[i - idx] else old(buf[i])
    {
      buf[idx + k] := data[k];
      k := k + 1;
    }
  }

  /** The packet `from_protocol` builds: the triple of `msg`, the serialized
      payload of `proto` as data, and `sz = size + header_len` in wrapping
      `u16` arithmetic. It panics when `serialize` does not fit the buffer of
      `size` bytes. */
  function PacketOf(msg: ProtoMsg, proto: Message): (r: Outcome<MuPacket>)
    ensures r.Ok? <==> Serializes(proto, Size(proto))
    ensures r.Ok? ==> Consistent(r.value) && r.value.data == PayloadBytes(proto)
    ensures r.Ok? ==> (r.value.kind, r.value.code, r.value.subCode) == Triple(msg)
    ensures r.Ok? ==> r.value.sz == AsU16(Size(proto) + HeaderLen(r.value.kind, r.value.code).value)
  {
    var (kind, code, sub) := Triple(msg);
    if !Serializes(proto, Size(proto)) then Panic
    else Ok(MuPacket(kind, AsU16(Size(proto) + HeaderLen(kind, code).value), code, sub, PayloadBytes(proto)))
  }

  /** `MuPacket::from_protocol`: allocates `size` zero bytes, serializes the
      message into them and frames them with the triple of `msg`. */
  method FromProtocol(msg: ProtoMsg, proto: Message) returns (r: Outcome<MuPacket>)
    ensures r == PacketOf(msg, proto)
  {
    var (kind, code, subcode) := Triple(msg);
    var len := Size(proto);
    var ok, data := SerializeSized(proto);
    if !ok {
      return Panic;
    }
    var hl := HeaderLen(kind, code).value;
    r := Ok(MuPacket(kind, AsU16(len as int + hl), code, subcode, data));
  }

  /** `let mut data = vec![0; proto.size() as usize]; proto.serialize(&mut data)`:
      the payload, unless `serialize` panics on the buffer of `size` bytes. */
  method SerializeSized(proto: Message) returns (ok: bool, data: seq<byte>)
    ensures ok <==> Serializes(proto, Size(proto))
    ensures ok ==> data == PayloadBytes(proto)
  {
    var v := new byte[Size(proto)];
    ok := MuProtocol.Serialize(proto, v);
    if ok {
      SerializesAtSize(proto);
    }
    data := v[..];
  }

  /** The message a `ProtoMsg` names. */
  predicate Names(msg: ProtoMsg, proto: Message)
  {
    match msg
    case ServerInfoMsg => proto.Info?
    case JoinServerStatMsg => proto.Join?
    case ConnectResultMsg => proto.Connect?
    case ServerListMsg => proto.List?
  }

  /** A packet built for the message its `ProtoMsg` names carries its own
      length as `sz`, so it frames itself; a server list needs fewer than
      16383 entries for the `u16` size not to wrap. */
  lemma {:induction false} PacketOfFramesItself(msg: ProtoMsg, proto: Message)
    requires Names(msg, proto)
    requires proto.List? ==> |proto.list.entries| < 16383
    requires !proto.Join?
    ensures PacketOf(msg, proto).Ok?
    ensures PacketOf(msg, proto).value.sz == Len(PacketOf(msg, proto).value)
    ensures PacketOf(msg, proto).value.kind == 0xC1 ==> Len(PacketOf(msg, proto).value) < 0x100
  {
    var p := PacketOf(msg, proto);
    assert |PayloadBytes(proto)| == Size(proto);
  }
}
