/** The big-endian helpers of src/network/protocol.rs (src/protocol.rs holds a
    verbatim copy). */
module ByteOrder {
  import opened Base

  /** The two bytes `set_u16` writes for `val`, most significant first. */
  function BeU16(val: u16): (r: seq<byte>)
    ensures |r| == 2
  {
    [(val / 0x100) % 0x100, val % 0x100]
  }

  /** The four bytes `set_u32` writes for `val`, most significant first. */
  function BeU32(val: u32): (r: seq<byte>)
    ensures |r| == 4
  {
    [(val / 0x100_0000) % 0x100, (val / 0x1_0000) % 0x100, (val / 0x100) % 0x100, val % 0x100]
  }

  /** `get_u16`: reads `buf[0..2]` as a big-endian number; it is the inverse
      of `BeU16` on those two bytes. */
  function GetU16(buf: seq<byte>): (v: u16)
    requires |buf| >= 2
    ensures BeU16(v) == buf[..2]
  {
    (buf[0] as int) * 0x100 + buf[1]
  }

  /** `get_u32`: reads `buf[0..4]` as a big-endian number; it is the inverse
      of `BeU32` on those four bytes. */
  function GetU32(buf: seq<byte>): (v: u32)
    requires |buf| >= 4
    ensures BeU32(v) == buf[..4]
  {
    var v := (buf[0] as int) * 0x100_0000 + (buf[1] as int) * 0x1_0000 + (buf[2] as int) * 0x100 + buf[3];
    Be32Digits(buf[0], buf[1], buf[2], buf[3]);
    v
  }

  lemma Be32Digits(b0: byte, b1: byte, b2: byte, b3: byte)
    ensures var v := (b0 as int) * 0x100_0000 + (b1 as int) * 0x1_0000 + (b2 as int) * 0x100 + b3;
      0 <= v < 0x1_0000_0000 &&
      (v / 0x100_0000) % 0x100 == b0 && (v / 0x1_0000) % 0x100 == b1 &&
      (v / 0x100) % 0x100 == b2 && v % 0x100 == b3
  {
    var v := (b0 as int) * 0x100_0000 + (b1 as int) * 0x1_0000 + (b2 as int) * 0x100 + b3;
    var lo16 := (b2 as int) * 0x100 + b3;
    var hi16 := (b0 as int) * 0x100 + b1;
    assert v == hi16 * 0x1_0000 + lo16;
    assert v / 0x1_0000 == hi16;
    assert v % 0x1_0000 == lo16;
    assert v / 0x100 == hi16 * 0x100 + b2;
    assert v / 0x100_0000 == b0;
  }

  /** Reading back what `set_u16` wrote gives the value. */
  lemma GetBeU16(val: u16)
    ensures GetU16(BeU16(val)) == val
  {
  }

  /** Reading back what `set_u32` wrote gives the value. */
  lemma {:induction false} GetBeU32(val: u32)
    ensures GetU32(BeU32(val)) == val
  {
    var b := BeU32(val);
    var hi16 := val / 0x1_0000;
    var lo16 := val % 0x1_0000;
    Be32Halves(val);
    assert hi16 == (b[0] as int) * 0x100 + b[1] by { GetBeU16(hi16); }
    assert lo16 == (b[2] as int) * 0x100 + b[3] by { GetBeU16(lo16); }
    assert val == hi16 * 0x1_0000 + lo16;
  }

  /** The four bytes of a `u32` are the two bytes of its high half followed
      by the two of its low half. */
  lemma Be32Halves(val: u32)
    ensures BeU32(val) == BeU16(val / 0x1_0000) + BeU16(val % 0x1_0000)
  {
    var hi16 := val / 0x1_0000;
    var lo16 := val % 0x1_0000;
    assert val == hi16 * 0x1_0000 + lo16;
    assert val / 0x100_0000 == hi16 / 0x100 by {
      assert val == (hi16 / 0x100) * 0x100_0000 + ((hi16 % 0x100) * 0x1_0000 + lo16);
    }
    assert val / 0x100 == hi16 * 0x100 + lo16 / 0x100 by {
      assert val == (hi16 * 0x100 + lo16 / 0x100) * 0x100 + lo16 % 0x100;
    }
    assert (hi16 * 0x100 + lo16 / 0x100) % 0x100 == lo16 / 0x100;
    assert val % 0x100 == lo16 % 0x100;
  }

  /** `set_u16(&mut buf[lo..hi], val)`: writes the big-endian bytes of `val`
      at `buf[lo]` and `buf[lo + 1]`. A slice shorter than two bytes panics
      on the first index past its end, after the earlier writes. */
  method SetU16(buf: array<byte>, lo: nat, hi: nat, val: u16) returns (ok: bool)
    requires lo <= hi <= buf.Length
    modifies buf
    ensures ok <==> hi - lo >= 2
    ensures ok ==> buf[..] == old(buf[..lo]) + BeU16(val) + old(buf[lo + 2..])
    ensures !ok ==> buf[..] == old(buf[..lo]) + BeU16(val)[..hi - lo] + old(buf[hi..])
  {
    var bytes := BeU16(val);
    if hi - lo < 1 {
      Spliced(old(buf[..]), buf[..], lo, bytes[..0]);
      return false;
    }
    buf[lo] := bytes[0];
    if hi - lo < 2 {
      Spliced(old(buf[..]), buf[..], lo, bytes[..1]);
      return false;
    }
    buf[lo + 1] := bytes[1];
    Spliced(old(buf[..]), buf[..], lo, bytes);
    return true;
  }

  /** `set_u32(&mut buf[lo..hi], val)`: writes the big-endian bytes of `val`
      at `buf[lo..lo + 4]`. A slice shorter than four bytes panics on the
      first index past its end, after the earlier writes. */
  method SetU32(buf: array<byte>, lo: nat, hi: nat, val: u32) returns (ok: bool)
    requires lo <= hi <= buf.Length
    modifies buf
    ensures ok <==> hi - lo >= 4
    ensures ok ==> buf[..] == old(buf[..lo]) + BeU32(val) + old(buf[lo + 4..])
    ensures !ok ==> buf[..] == old(buf[..lo]) + BeU32(val)[..hi - lo] + old(buf[hi..])
  {
    var bytes := BeU32(val);
    if hi - lo < 1 {
      Spliced(old(buf[..]), buf[..], lo, bytes[..0]);
      return false;
    }
    buf[lo] := bytes[0];
    if hi - lo < 2 {
      Spliced(old(buf[..]), buf[..], lo, bytes[..1]);
      return false;
    }
    buf[lo + 1] := bytes[1];
    if hi - lo < 3 {
      Spliced(old(buf[..]), buf[..], lo, bytes[..2]);
      return false;
    }
    buf[lo + 2] := bytes[2];
    if hi - lo < 4 {
      Spliced(old(buf[..]), buf[..], lo, bytes[..3]);
      return false;
    }
    buf[lo + 3] := bytes[3];
    Spliced(old(buf[..]), buf[..], lo, bytes);
    return true;
  }
}
