/** The byte-at-a-time readers of src/network/server/session.rs
    (`read_n_bytes`, `read_c1_data`, `parse_packet`); src/network/session.rs
    carries the same `read_n_bytes` and `read_c1_data`. A TCP stream is the
    bytes it will deliver followed by how it ends: end of stream (a read of 0
    bytes) or a read error. */
module StreamReader {
  import opened Base

  datatype StreamEnd = Eof | ReadFailure

  /** The outcome of one `stream.read` into a one-byte buffer. */
  datatype ReadResult = Byte(b: byte) | Zero | ReadError

  /** `SessionError`. */
  datatype SessionError =
    | BufferTooSmall
    | FailedToReadNBytes
    | EosReached
    | C1ErrorGeneralFailure
    | C1ErrorEosReached
    | StreamCopyFailure
    | ThreadCreationFailure
    | StreamWriteFailure

  /** A stream being read: `pos` bytes of `bytes` are consumed. */
  class ByteSource {
    const bytes: seq<byte>
    const end: StreamEnd
    var pos: nat

    predicate Valid()
      reads this
    {
      pos <= |bytes|
    }

    /** The bytes the stream has yet to deliver. */
    function Rest(): seq<byte>
      reads this
      requires Valid()
    {
      bytes[pos..]
    }

    constructor (bytes: seq<byte>, end: StreamEnd)
      ensures this.bytes == bytes && this.end == end && pos == 0
      ensures Valid()
    {
      this.bytes := bytes;
      this.end := end;
      pos := 0;
    }

    /** A one-byte `read`: the next byte, else 0 bytes at end of stream or an
        error, forever after. */
    method Read() returns (r: ReadResult)
      requires Valid()
      modifies this
      ensures Valid()
      ensures old(pos) < |bytes| ==> r == Byte(bytes[old(pos)]) && pos == old(pos) + 1
      ensures old(pos) == |bytes| ==> pos == old(pos) && r == (if end == Eof then Zero else ReadError)
    {
      if pos < |bytes| {
        r := Byte(bytes[pos]);
        pos := pos + 1;
      } else {
        r := if end == Eof then Zero else ReadError;
      }
    }
  }

  /** What a read operation returns, how many stream bytes it consumes and
      how many bytes it stores, in stream order, from the start of its
      output slice. */
  datatype ReadN = ReadN(result: Outcome<Result<nat, SessionError>>, consumed: nat, written: nat)

  /** The error a byte loop reports when the stream runs out. */
  function EndError(end: StreamEnd): SessionError
  {
    if end == Eof then EosReached else FailedToReadNBytes
  }

  /** `read_n_bytes` into an output slice of `room` bytes from a stream with
      `avail` bytes left:
      - `BufferTooSmall`, reading nothing, when `room < cnt`;
      - for `cnt >= 1`, `cnt` once that many bytes are read;
      - the end-of-stream or read error when fewer are left;
      - for `cnt == 0` the loop's exit test `total == cnt` never holds: it
        stores bytes until the stream ends or the store past the slice
        panics. */
  function ReadNBytesSpec(avail: seq<byte>, end: StreamEnd, room: nat, cnt: nat): (r: ReadN)
    ensures r.written <= r.consumed <= |avail| && r.written <= room
    ensures r.result.Ok? && r.result.value.Success? ==>
      r.result.value.value == cnt >= 1 && r.consumed == r.written == cnt
    ensures r.result == Ok(Failure(BufferTooSmall)) <==> room < cnt
    ensures r.result == Ok(Failure(BufferTooSmall)) ==> r.consumed == 0
    ensures r.result.Panic? <==> cnt == 0 && |avail| > room
  {
    if room < cnt then ReadN(Ok(Failure(BufferTooSmall)), 0, 0)
    else if cnt > 0 && |avail| >= cnt then ReadN(Ok(Success(cnt)), cnt, cnt)
    else if cnt == 0 && |avail| > room then ReadN(Panic, room + 1, room)
    else ReadN(Ok(Failure(EndError(end))), |avail|, |avail|)
  }

  /** `read_n_bytes(&mut out[off..], cnt, stream)`. */
  method ReadNBytes(out: array<byte>, off: nat, cnt: nat, src: ByteSource) returns (r: Outcome<Result<nat, SessionError>>)
    requires off <= out.Length && src.Valid()
    modifies out, src
    ensures src.Valid()
    ensures var s := ReadNBytesSpec(old(src.Rest()), src.end, out.Length - off, cnt);
      && r == s.result
      && src.pos == old(src.pos) + s.consumed
      && out[..off] == old(out[..off])
      && out[off..off + s.written] == old(src.Rest())[..s.written]
      && out[off + s.written..] == old(out[off + s.written..])
  {
    if out.Length - off < cnt {
      return Ok(Failure(BufferTooSmall));
    }
    ghost var avail := src.Rest();
    var total := 0;
    while true
      invariant src.Valid() && src.pos == old(src.pos) + total
      invariant total <= |avail| && off + total <= out.Length
      invariant cnt > 0 ==> total < cnt
      invariant forall i :: 0 <= i < out.Length ==>
        out[i] == if off <= i < off + total then avail[i - off] else old(out[i])
      decreases |src.bytes| - src.pos
    {
      var b := src.Read();
      match b
      case ReadError =>
        assert total == |avail|;
        return Ok(Failure(FailedToReadNBytes));
      case Zero =>
        assert total == |avail|;
        return Ok(Failure(EosReached));
      case Byte(x) =>
        assert x == avail[total];
        if off + total >= out.Length {
          return Panic;
        }
        out[off + total] := x;
        total := total + 1;
        if total == cnt {
          return Ok(Success(total));
        }
    }
  }

  /** `read_c1_data`: the size byte (a read error gives
      `C1ErrorGeneralFailure`, end of stream `C1ErrorEosReached`) is stored
      at `out[0]`, which panics on an empty slice, and then `read_n_bytes`
      reads that many bytes into `out[1..]`. */
  function ReadC1DataSpec(avail: seq<byte>, end: StreamEnd, room: nat): (r: ReadN)
    ensures r.written <= r.consumed <= |avail| && r.written <= room
    ensures |avail| == 0 ==> r.result == Ok(Failure(if end == Eof then C1ErrorEosReached else C1ErrorGeneralFailure))
    ensures r.result.Ok? && r.result.value.Success? ==>
      && |avail| >= 1
      && r.result.value.value == avail[0] >= 1
      && r.consumed == r.written == 1 + avail[0] as int
  {
    if |avail| == 0 then
      ReadN(Ok(Failure(if end == Eof then C1ErrorEosReached else C1ErrorGeneralFailure)), 0, 0)
    else if room == 0 then ReadN(Panic, 1, 0)
    else
      var n := ReadNBytesSpec(avail[1..], end, room - 1, avail[0]);
      ReadN(n.result, 1 + n.consumed, 1 + n.written)
  }

  /** The rest of `read_c1_data` once the size byte `sz` was read: it is
      stored at `out[off]` and `read_n_bytes` reads `sz` bytes after it. */
  method StoreSizeAndRead(out: array<byte>, off: nat, sz: byte, src: ByteSource, ghost avail: seq<byte>)
    returns (r: Outcome<Result<nat, SessionError>>)
    requires off < out.Length && src.Valid()
    requires |avail| >= 1 && avail[0] == sz && src.Rest() == avail[1..]
    modifies out, src
    ensures src.Valid()
    ensures var n := ReadNBytesSpec(avail[1..], src.end, out.Length - off - 1, sz);
      && r == n.result
      && src.pos == old(src.pos) + n.consumed
      && out[..off] == old(out[..off])
      && out[off..off + 1 + n.written] == avail[..1 + n.written]
      && out[off + 1 + n.written..] == old(out[off + 1 + n.written..])
  {
    out[off] := sz;
    r := ReadNBytes(out, off + 1, sz, src);
    ghost var n := ReadNBytesSpec(avail[1..], src.end, out.Length - off - 1, sz);
    assert out[off..off + 1 + n.written] == [sz] + out[off + 1..off + 1 + n.written];
    assert avail[..1 + n.written] == [sz] + avail[1..][..n.written];
  }

  /** `read_c1_data(&mut out[off..], stream)`. */
  method ReadC1Data(out: array<byte>, off: nat, src: ByteSource) returns (r: Outcome<Result<nat, SessionError>>)
    requires off <= out.Length && src.Valid()
    modifies out, src
    ensures src.Valid()
    ensures var s := ReadC1DataSpec(old(src.Rest()), src.end, out.Length - off);
      && r == s.result
      && src.pos == old(src.pos) + s.consumed
      && out[..off] == old(out[..off])
      && out[off..off + s.written] == old(src.Rest())[..s.written]
      && out[off + s.written..] == old(out[off + s.written..])
  {
    ghost var avail := src.Rest();
    var b := src.Read();
    match b
    case ReadError => return Ok(Failure(C1ErrorGeneralFailure));
    case Zero => return Ok(Failure(C1ErrorEosReached));
    case Byte(sz) =>
      if off >= out.Length {
        return Panic;
      }
      r := StoreSizeAndRead(out, off, sz, src, avail);
  }

  /** `parse_packet` into `out`: the header byte goes to `out[0]` and
      `read_c1_data` fills `out[1..]`; the result is `read_c1_data`'s, so a
      successful read returns the size byte's value. */
  function ParsePacketSpec(header: byte, avail: seq<byte>, end: StreamEnd, len: nat): (r: ReadN)
    ensures r.consumed <= |avail|
    ensures len >= 1 ==> r.written == 1 + ReadC1DataSpec(avail, end, len - 1).written
    ensures r.result.Ok? && r.result.value.Success? ==>
      && |avail| >= 1
      && r.result.value.value == avail[0] >= 1
      && r.consumed == 1 + avail[0] as int
      && r.written == 2 + avail[0] as int
  {
    if len == 0 then ReadN(Panic, 0, 0)
    else
      var c := ReadC1DataSpec(avail, end, len - 1);
      ReadN(c.result, c.consumed, 1 + c.written)
  }

  /** `parse_packet(header, out, stream)`. Its diagnostic slice
      `out[0..out[1]]` stays within `out`, since a successful read stored
      `out[1]` more bytes after `out[1]`. */
  method ParsePacket(header: byte, out: array<byte>, src: ByteSource) returns (r: Outcome<Result<nat, SessionError>>)
    requires src.Valid()
    modifies out, src
    ensures src.Valid()
    ensures var s := ParsePacketSpec(header, old(src.Rest()), src.end, out.Length);
      && r == s.result
      && src.pos == old(src.pos) + s.consumed
      && (out.Length >= 1 ==>
            && out[0] == header
            && out[1..s.written] == old(src.Rest())[..s.written - 1]
            && out[s.written..] == old(out[s.written..]))
  {
    if out.Length == 0 {
      return Panic;
    }
    out[0] := header;
    r := ReadC1Data(out, 1, src);
    assert out[..1] == [header];
  }

  /** A well-formed C1 frame body on the stream: `read_c1_data` consumes the
      size byte and exactly `sz` further bytes, stores them all, and returns
      `sz`, whatever follows them. */
  lemma {:induction false} C1FrameRead(sz: byte, data: seq<byte>, tail: seq<byte>, end: StreamEnd, room: nat)
    requires sz >= 1 && |data| == sz && room >= 1 + sz
    ensures ReadC1DataSpec([sz] + data + tail, end, room) == ReadN(Ok(Success(sz)), 1 + sz, 1 + sz)
  {
    var avail := [sz] + data + tail;
    assert avail[0] == sz;
    assert avail[1..] == data + tail;
    assert ReadNBytesSpec(avail[1..], end, room - 1, sz) == ReadN(Ok(Success(sz)), sz, sz);
  }

  /** A size byte of 0 makes `read_c1_data` store everything the stream has
      left: it ends with the stream's end error if that fits the slice and
      panics if it does not. */
  lemma {:induction false} C1ZeroSize(tail: seq<byte>, end: StreamEnd, room: nat)
    requires room >= 1
    ensures |tail| <= room - 1 ==>
      ReadC1DataSpec([0] + tail, end, room) == ReadN(Ok(Failure(EndError(end))), 1 + |tail|, 1 + |tail|)
    ensures |tail| > room - 1 ==> ReadC1DataSpec([0] + tail, end, room).result == Panic
  {
    var avail := [0] + tail;
    assert avail[1..] == tail;
  }
}
