/** The message catalog of lib/mu-proto/src/protocol.rs: the (kind, code,
    sub-code) triple of each message and the payload layout of each. The
    same ServerInfo, JoinServerStat and ConnectResult layouts are repeated in
    src/protocol.rs and src/cs/protocol.rs. */
module MuProtocol {
  import opened Base
  import opened ByteOrder

  /** `SUB_CODE_PKTS`: the codes whose header carries a sub-code byte. */
  const SubCodePkts: seq<byte> := [0xF4]

  /** `ProtoMsg`: the names of the catalogued messages. */
  datatype ProtoMsg = ServerInfoMsg | JoinServerStatMsg | ConnectResultMsg | ServerListMsg

  /** `ProtoMsg::parse`: the (frame kind, code, sub-code) triple of a message.
      Every triple uses a known frame kind, and it has a non-zero sub-code
      exactly when its code is one of `SubCodePkts`. */
  function Triple(msg: ProtoMsg): (r: (byte, byte, byte))
    ensures r.0 == 0xC1 || r.0 == 0xC2
    ensures (r.2 > 0) <==> r.1 in SubCodePkts
    ensures r.1 in SubCodePkts <==> msg == ServerListMsg
  {
    match msg
    case ServerInfoMsg => (0xC1, 0x01, 0x00)
    case JoinServerStatMsg => (0xC1, 0x02, 0x00)
    case ConnectResultMsg => (0xC1, 0x00, 0x00)
    case ServerListMsg => (0xC2, 0xF4, 0x06)
  }

  datatype ServerInfo = ServerInfo(svrCode: u16, perc: byte, usrCnt: u16, accCnt: u16,
                                   pcbngCnt: u16, mxUsrCnt: u16)

  datatype JoinServerStat = JoinServerStat(queueCnt: u32)

  datatype ConnectResult = ConnectResult(res: byte)

  /** A server list: the count it announces and its (server code, load)
      entries, in the order they were added. */
  datatype ServerList = ServerList(cnt: u16, entries: seq<(u16, byte)>)

  /** The values that implement the `Protocol` trait. */
  datatype Message =
    | Info(info: ServerInfo)
    | Join(join: JoinServerStat)
    | Connect(connect: ConnectResult)
    | List(list: ServerList)

  /** The 11-byte ServerInfo layout: `svr_code`, `perc`, `usr_cnt`,
      `acc_cnt`, `pcbng_cnt`, `mx_usr_cnt` at offsets 0, 2, 3, 5, 7, 9. */
  function ServerInfoBytes(s: ServerInfo): (r: seq<byte>)
    ensures |r| == 11
  {
    BeU16(s.svrCode) + [s.perc] + BeU16(s.usrCnt) + BeU16(s.accCnt) + BeU16(s.pcbngCnt) + BeU16(s.mxUsrCnt)
  }

  /** One server-list entry on the wire: big-endian server code, load, 0xFF. */
  function EntryBytes(e: (u16, byte)): (r: seq<byte>)
    ensures |r| == 4
  {
    BeU16(e.0) + [e.1, 0xFF]
  }

  function EntriesBytes(es: seq<(u16, byte)>): (r: seq<byte>)
    ensures |r| == 4 * |es|
  {
    if es == [] then [] else EntriesBytes(es[..|es| - 1]) + EntryBytes(es[|es| - 1])
  }

  /** The ServerList layout: `cnt` big-endian, then every entry in order. */
  function ServerListBytes(l: ServerList): (r: seq<byte>)
    ensures |r| == 2 + 4 * |l.entries|
  {
    BeU16(l.cnt) + EntriesBytes(l.entries)
  }

  /** The payload layout of every message (what its `serialize` is meant to
      write and its `parse` reads). */
  function PayloadBytes(m: Message): seq<byte>
  {
    match m
    case Info(s) => ServerInfoBytes(s)
    case Join(j) => BeU32(j.queueCnt)
    case Connect(c) => [c.res]
    case List(l) => ServerListBytes(l)
  }

  /** `size`: the length of the buffer that `from_protocol` allocates. For a
      server list, `(len * 4) as u16` keeps only the low 16 bits. */
  function Size(m: Message): (r: u16)
    ensures m.List? && 4 * |m.list.entries| < 0x1_0000 ==> r == |PayloadBytes(m)|
    ensures !m.List? ==> r == |PayloadBytes(m)|
  {
    match m
    case Info(_) => 11
    case Join(_) => 4
    case Connect(_) => 1
    case List(l) => 2 + AsU16(|l.entries| * 4)
  }

  /** `ServerInfo::parse`: panics unless `buf` holds the 11 bytes; otherwise
      reads the fields back from their offsets. */
  function ParseServerInfo(buf: seq<byte>): (r: Outcome<ServerInfo>)
    ensures r.Ok? <==> |buf| >= 11
    ensures r.Ok? ==> ServerInfoBytes(r.value) == buf[..11]
  {
    if |buf| < 11 then Panic
    else
      var s := ServerInfo(GetU16(buf[0..2]), buf[2], GetU16(buf[3..5]), GetU16(buf[5..7]),
                          GetU16(buf[7..9]), GetU16(buf[9..11]));
      assert buf[..11] == buf[0..2] + [buf[2]] + buf[3..5] + buf[5..7] + buf[7..9] + buf[9..11];
      Ok(s)
  }

  /** `ServerInfo` round trip: parsing what the layout holds gives back every
      field, whatever follows it. */
  lemma {:induction false} ServerInfoRoundTrip(s: ServerInfo, rest: seq<byte>)
    ensures ParseServerInfo(ServerInfoBytes(s) + rest) == Ok(s)
  {
    var buf := ServerInfoBytes(s) + rest;
    var p := ParseServerInfo(buf);
    assert buf[..11] == ServerInfoBytes(s);
    var q := p.value;
    assert ServerInfoBytes(q) == ServerInfoBytes(s);
    assert ServerInfoBytes(q)[0..2] == BeU16(q.svrCode);
    assert ServerInfoBytes(q)[3..5] == BeU16(q.usrCnt);
    assert ServerInfoBytes(q)[5..7] == BeU16(q.accCnt);
    assert ServerInfoBytes(q)[7..9] == BeU16(q.pcbngCnt);
    assert ServerInfoBytes(q)[9..11] == BeU16(q.mxUsrCnt);
    assert ServerInfoBytes(s)[0..2] == BeU16(s.svrCode);
    assert ServerInfoBytes(s)[3..5] == BeU16(s.usrCnt);
    assert ServerInfoBytes(s)[5..7] == BeU16(s.accCnt);
    assert ServerInfoBytes(s)[7..9] == BeU16(s.pcbngCnt);
    assert ServerInfoBytes(s)[9..11] == BeU16(s.mxUsrCnt);
    GetBeU16(s.svrCode); GetBeU16(q.svrCode);
  }

  /** `JoinServerStat::parse`: a big-endian `u32` from `buf[0..4]`. */
  function ParseJoinServerStat(buf: seq<byte>): (r: Outcome<JoinServerStat>)
    ensures r.Ok? <==> |buf| >= 4
    ensures r.Ok? ==> BeU32(r.value.queueCnt) == buf[..4]
  {
    if |buf| < 4 then Panic else Ok(JoinServerStat(GetU32(buf[0..4])))
  }

  /** `ConnectResult::parse`: the result byte is `buf[0]`. */
  function ParseConnectResult(buf: seq<byte>): (r: Outcome<ConnectResult>)
    ensures r.Ok? <==> |buf| >= 1
    ensures r.Ok? ==> PayloadBytes(Connect(r.value)) == buf[..1]
  {
    if |buf| < 1 then Panic else Ok(ConnectResult(buf[0]))
  }

  /** A payload parser inverts the layout of every message it can parse. */
  lemma {:induction false} PayloadRoundTrip(m: Message, rest: seq<byte>)
    requires !m.List?
    ensures m.Info? ==> ParseServerInfo(PayloadBytes(m) + rest) == Ok(m.info)
    ensures m.Join? ==> ParseJoinServerStat(PayloadBytes(m) + rest) == Ok(m.join)
    ensures m.Connect? ==> ParseConnectResult(PayloadBytes(m) + rest) == Ok(m.connect)
  {
    match m
    case Info(s) => ServerInfoRoundTrip(s, rest);
    case Join(j) =>
      var buf := BeU32(j.queueCnt) + rest;
      assert buf[..4] == BeU32(j.queueCnt);
      GetBeU32(j.queueCnt);
    case Connect(c) =>
  }

  /** `ServerList::new(cnt)`. */
  function NewServerList(cnt: u16): (r: ServerList)
    ensures r.cnt == cnt && r.entries == []
  {
    ServerList(cnt, [])
  }

  /** `ServerList::add`: pushes one entry at the end. */
  function Add(l: ServerList, idx: u16, load: byte): (r: ServerList)
    ensures r.cnt == l.cnt && |r.entries| == |l.entries| + 1
    ensures r.entries[..|l.entries|] == l.entries && r.entries[|l.entries|..] == [(idx, load)]
    ensures ServerListBytes(r) == ServerListBytes(l) + EntryBytes((idx, load))
  {
    var r := ServerList(l.cnt, l.entries + [(idx, load)]);
    assert r.entries[..|r.entries| - 1] == l.entries;
    r
  }

  /** Entry `i` of a server list sits at offset `2 + 4 * i`. */
  lemma {:induction false} ServerListLayout(l: ServerList, i: nat)
    requires i < |l.entries|
    ensures ServerListBytes(l)[..2] == BeU16(l.cnt)
    ensures ServerListBytes(l)[2 + 4 * i..2 + 4 * i + 4] == EntryBytes(l.entries[i])
  {
    EntriesBytesAt(l.entries, i);
  }

  lemma {:induction false} EntriesBytesAt(es: seq<(u16, byte)>, i: nat)
    requires i < |es|
    ensures EntriesBytes(es)[4 * i..4 * i + 4] == EntryBytes(es[i])
  {
    var n := |es| - 1;
    if i < n {
      EntriesBytesAt(es[..n], i);
      assert es[..n][i] == es[i];
      assert EntriesBytes(es)[..4 * n] == EntriesBytes(es[..n]);
    }
  }

  /** Writing `w` right after an already written prefix `p` of a buffer that
      was `t` extends the prefix by `w`. */
  lemma Extend(p: seq<byte>, t: seq<byte>, w: seq<byte>)
    requires |p| + |w| <= |t|
    ensures var pre := p + t[|p|..]; pre[..|p|] + w + pre[|p| + |w|..] == (p + w) + t[|p| + |w|..]
  {
    var pre := p + t[|p|..];
    assert pre[..|p|] == p;
    assert pre[|p| + |w|..] == t[|p| + |w|..];
  }

  /** `b`, once `t`, has `p` written over its front. */
  ghost predicate Written(b: seq<byte>, p: seq<byte>, t: seq<byte>)
  {
    |p| <= |t| && b == p + t[|p|..]
  }

  /** A `set_u16` into `buf[i..i + 2]` right after the prefix `p` already
      written over what was `t`. */
  method SetU16After(buf: array<byte>, i: nat, v: u16, ghost p: seq<byte>, ghost t: seq<byte>)
    requires i == |p| && i + 2 <= buf.Length == |t| && Written(buf[..], p, t)
    modifies buf
    ensures Written(buf[..], p + BeU16(v), t)
  {
    var ok := SetU16(buf, i, i + 2, v);
    Extend(p, t, BeU16(v));
  }

  /** `buf[i] = b` right after the prefix `p` already written over what was
      `t`. */
  method SetByteAfter(buf: array<byte>, i: nat, b: byte, ghost p: seq<byte>, ghost t: seq<byte>)
    requires i == |p| && i + 1 <= buf.Length == |t| && Written(buf[..], p, t)
    modifies buf
    ensures Written(buf[..], p + [b], t)
  {
    buf[i] := b;
    Extend(p, t, [b]);
  }

  /** `ServerInfo::serialize`: writes the 11-byte layout at the front of
      `buf`; panics when `buf` is shorter. */
  method SerializeServerInfo(s: ServerInfo, buf: array<byte>) returns (ok: bool)
    modifies buf
    ensures ok <==> buf.Length >= 11
    ensures ok ==> buf[..] == ServerInfoBytes(s) + old(buf[11..])
  {
    if buf.Length < 11 {
      return false;
    }
    ghost var t := buf[..];
    SetU16After(buf, 0, s.svrCode, [], t);
    assert [] + BeU16(s.svrCode) == BeU16(s.svrCode);
    ghost var p := BeU16(s.svrCode);
    SetByteAfter(buf, 2, s.perc, p, t);
    p := p + [s.perc];
    SetU16After(buf, 3, s.usrCnt, p, t);
    p := p + BeU16(s.usrCnt);
    SetU16After(buf, 5, s.accCnt, p, t);
    p := p + BeU16(s.accCnt);
    SetU16After(buf, 7, s.pcbngCnt, p, t);
    p := p + BeU16(s.pcbngCnt);
    SetU16After(buf, 9, s.mxUsrCnt, p, t);
    p := p + BeU16(s.mxUsrCnt);
    assert buf[..] == ServerInfoBytes(s) + t[11..];
    return true;
  }

  /** `JoinServerStat::serialize` as written: it hands the two-byte slice
      `buf[0..2]` to `set_u32`, which writes the two most significant bytes
      and then panics on `buf[2]`. It never completes. */
  method SerializeJoinServerStat(j: JoinServerStat, buf: array<byte>) returns (ok: bool)
    modifies buf
    ensures !ok
    ensures buf.Length >= 2 ==> buf[..] == BeU32(j.queueCnt)[..2] + old(buf[2..])
    ensures buf.Length < 2 ==> buf[..] == old(buf[..])
  {
    if buf.Length < 2 {
      return false;
    }
    ok := SetU32(buf, 0, 2, j.queueCnt);
  }

  /** `ConnectResult::serialize`: `buf[0] = res`; panics on an empty buffer. */
  method SerializeConnectResult(c: ConnectResult, buf: array<byte>) returns (ok: bool)
    modifies buf
    ensures ok <==> buf.Length >= 1
    ensures ok ==> buf[..] == [c.res] + old(buf[1..])
  {
    if buf.Length < 1 {
      return false;
    }
    buf[0] := c.res;
    return true;
  }

  /** One loop step of `ServerList::serialize`: the entry at `buf[i..i + 4]`. */
  method WriteEntry(buf: array<byte>, i: nat, e: (u16, byte))
    requires i + 4 <= buf.Length
    modifies buf
    ensures buf[..] == old(buf[..i]) + EntryBytes(e) + old(buf[i + 4..])
  {
    var ok := SetU16(buf, i, i + 2, e.0);
    buf[i + 2] := e.1;
    buf[i + 3] := 0xFF;
  }

  lemma EntriesBytesSnoc(es: seq<(u16, byte)>, j: nat)
    requires j < |es|
    ensures EntriesBytes(es[..j + 1]) == EntriesBytes(es[..j]) + EntryBytes(es[j])
  {
    assert es[..j + 1][..j] == es[..j];
  }

  /** Entry `j` of a list whose first `j` entries are already in `buf`. */
  method WriteListEntry(l: ServerList, buf: array<byte>, j: nat, ghost rest: seq<byte>)
    requires j < |l.entries| && 2 + 4 * (j + 1) <= buf.Length
    requires ListWritten(buf[..], l, j, rest)
    modifies buf
    ensures ListWritten(buf[..], l, j + 1, rest)
  {
    var i := 2 + 4 * j;
    ghost var done := BeU16(l.cnt) + EntriesBytes(l.entries[..j]);
    assert |done| == i;
    assert buf[..i] == done;
    assert buf[i + 4..] == rest[i + 4..];
    WriteEntry(buf, i, l.entries[j]);
    EntriesBytesSnoc(l.entries, j);
    assert buf[..] == done + EntryBytes(l.entries[j]) + rest[i + 4..];
  }

  /** The loop of `ServerList::serialize` has written `cnt` and the first
      `j` entries over `rest`, the buffer as it was. */
  ghost predicate ListWritten(b: seq<byte>, l: ServerList, j: nat, rest: seq<byte>)
  {
    && j <= |l.entries| && |b| == |rest| && 2 + 4 * j <= |b|
    && b == BeU16(l.cnt) + EntriesBytes(l.entries[..j]) + rest[2 + 4 * j..]
  }

  lemma ListDone(b: seq<byte>, l: ServerList, rest: seq<byte>)
    requires ListWritten(b, l, |l.entries|, rest)
    ensures b == ServerListBytes(l) + rest[2 + 4 * |l.entries|..]
  {
    assert l.entries[..|l.entries|] == l.entries;
  }

  /** `ServerList::serialize`: `cnt` at 0..2, then entry `i` at `2 + 4 * i`
      as (big-endian server code, load, 0xFF); panics on the first write past
      the end of `buf`. */
  method SerializeServerList(l: ServerList, buf: array<byte>) returns (ok: bool)
    modifies buf
    ensures ok <==> buf.Length >= 2 + 4 * |l.entries|
    ensures ok ==> buf[..] == ServerListBytes(l) + old(buf[2 + 4 * |l.entries|..])
  {
    if buf.Length < 2 {
      return false;
    }
    ghost var rest := buf[..];
    ok := SetU16(buf, 0, 2, l.cnt);
    assert ListWritten(buf[..], l, 0, rest) by {
      assert l.entries[..0] == [];
    }
    var i := 2;
    var j := 0;
    while j < |l.entries|
      invariant i == 2 + 4 * j
      invariant ListWritten(buf[..], l, j, rest)
    {
      if i + 4 > buf.Length {
        return false;
      }
      WriteListEntry(l, buf, j, rest);
      i := i + 4;
      j := j + 1;
    }
    ListDone(buf[..], l, rest);
    return true;
  }

  /** The panic-free outcome of a message's `serialize` into a buffer of
      `len` bytes. */
  predicate Serializes(m: Message, len: nat)
  {
    match m
    case Info(_) => len >= 11
    case Join(_) => false
    case Connect(_) => len >= 1
    case List(l) => len >= 2 + 4 * |l.entries|
  }

  /** A message that serializes into a buffer of its own `size` fills it
      exactly: the `u16` size did not wrap. */
  lemma SerializesAtSize(m: Message)
    requires Serializes(m, Size(m))
    ensures |PayloadBytes(m)| == Size(m)
  {
    if m.List? {
      var n := |m.list.entries|;
      assert 2 + (n * 4) % 0x1_0000 >= 2 + 4 * n;
      assert n * 4 < 0x1_0000;
    }
  }

  /** `Protocol::serialize` for each message. */
  method Serialize(m: Message, buf: array<byte>) returns (ok: bool)
    modifies buf
    ensures ok <==> Serializes(m, buf.Length)
    ensures ok ==> buf[..] == PayloadBytes(m) + old(buf[|PayloadBytes(m)|..])
  {
    match m
    case Info(s) => ok := SerializeServerInfo(s, buf);
    case Join(j) => ok := SerializeJoinServerStat(j, buf);
    case Connect(c) => ok := SerializeConnectResult(c, buf);
    case List(l) => ok := SerializeServerList(l, buf);
  }
}
