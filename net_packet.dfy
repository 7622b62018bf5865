/** The two-field packet of src/network/packet.rs: a size byte, a code byte
    and the bytes after them. */
module NetPacket {
  import opened Base

  datatype Packet = Packet(sz: byte, code: byte, data: seq<byte>)

  /** `Packet::new`: `sz` and `code` are the first two bytes and `data` is
      everything after them; slicing `buffer[2..]` panics below 2 bytes. */
  function New(buffer: seq<byte>): (r: Outcome<Packet>)
    ensures r.Ok? <==> |buffer| >= 2
    ensures r.Ok? ==> [r.value.sz, r.value.code] + r.value.data == buffer
  {
    if |buffer| < 2 then Panic
    else Ok(Packet(buffer[0], buffer[1], buffer[2..]))
  }

  /** `sub_code`: the first data byte; indexing empty data panics. */
  function SubCode(p: Packet): (r: Outcome<byte>)
    ensures r.Ok? <==> |p.data| >= 1
    ensures r.Ok? ==> [r.value] == p.data[..1]
  {
    if |p.data| == 0 then Panic else Ok(p.data[0])
  }

  /** What the accessors `code`, `data` and `sub_code` return for a packet
      built from `buffer`: byte 1, the bytes from offset 2, and byte 2 when
      there is one. */
  lemma {:induction false} NewAccessors(buffer: seq<byte>)
    requires |buffer| >= 2
    ensures New(buffer).value.code == buffer[1]
    ensures New(buffer).value.data == buffer[2..]
    ensures SubCode(New(buffer).value) == if |buffer| > 2 then Ok(buffer[2]) else Panic
  {
    var p := New(buffer).value;
    assert buffer == [p.sz, p.code] + p.data;
    assert buffer[2..] == p.data;
    if |buffer| > 2 {
      assert buffer[2] == p.data[0];
    }
  }
}
