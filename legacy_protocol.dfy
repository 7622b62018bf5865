/** The payload types of src/protocol.rs and src/cs/protocol.rs. They declare
    the same fields and byte layouts as lib/mu-proto's `ServerInfo`,
    `JoinServerStat` and `ConnectResult`, so their parse and serialize are
    the `MuProtocol` members; what is particular to them is the argument
    triple each `to_packet` passes to `Packet::from_protocol`. */
module LegacyProtocol {
  import opened Base
  import opened MuProtocol

  /** The legacy payloads: every catalogued message but the server list. */
  type LegacyMessage = m: Message | !m.List? witness Connect(ConnectResult(0))

  /** The message name whose triple lib/mu-proto uses for a payload. */
  function NameOf(m: LegacyMessage): (r: ProtoMsg)
    ensures r != ServerListMsg
  {
    match m
    case Info(_) => ServerInfoMsg
    case Join(_) => JoinServerStatMsg
    case Connect(_) => ConnectResultMsg
  }

  /** `to_packet`: the (kind, size, code) a legacy payload passes to
      `Packet::from_protocol`. */
  function ToPacketArgs(m: LegacyMessage): (r: (byte, u16, byte))
  {
    match m
    case Info(_) => (0xC1, 11, 0x01)
    case Join(_) => (0xC1, 4, 0x02)
    case Connect(_) => (0xC1, 1, 0x00)
  }

  /** The arguments agree with the lib/mu-proto catalog: the size is the
      payload's layout length and its `size()`, and the kind and code are
      those of the message's triple, whose sub-code is 0. */
  lemma {:induction false} ToPacketArgsAgree(m: LegacyMessage)
    ensures ToPacketArgs(m).1 == |PayloadBytes(m)| == Size(m)
    ensures ToPacketArgs(m).0 == Triple(NameOf(m)).0
    ensures ToPacketArgs(m).2 == Triple(NameOf(m)).1
    ensures Triple(NameOf(m)).2 == 0
  {
    match m
    case Info(s) => assert |ServerInfoBytes(s)| == 11;
    case Join(j) => assert |PayloadBytes(m)| == 4;
    case Connect(c) => assert |PayloadBytes(m)| == 1;
  }
}
