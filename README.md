# lcemu: a Dafny model of the MU protocol core and the Connect Server

lcemu is an emulator of the MU Online server side, written in Rust. This
project models its byte-level protocol and the bookkeeping of its Connect
Server (CS), and it proves properties of that model:

- **MU packet framing** (`lib/mu-proto`). A frame is one of two kinds:
  - `0xC1` has a 1-byte size;
  - `0xC2` has a big-endian 2-byte size.

  A code byte follows the size. For the codes in `SUB_CODE_PKTS` (`0xF4`), a
  sub-code byte follows the code. The model covers `MuPacket::new`, `len`,
  `header_len`, `serialize` and `from_protocol`, and `MuCodec`'s `decode` and
  `encode`.
- **The payload catalog.** It holds:
  - the (kind, code, sub-code) triple of each message;
  - the layouts of `ServerInfo` (11 bytes), `JoinServerStat` (4 bytes),
    `ConnectResult` (1 byte) and `ServerList` (2 bytes plus 4 per entry);
  - the big-endian helpers `get_u16`, `set_u16`, `get_u32` and `set_u32`.

  The older copies in `src/protocol.rs` and `src/cs/protocol.rs` have the
  same text, and the same members model them. They differ only in their
  `to_packet` arguments, which `LegacyProtocol` models.
- **The Connect Server handlers.** There are two of them:
  - `bin/cs/src/logic.rs`, which keys game servers by server code;
  - `bin/cs/src/logic/`, which keys game servers by session id and routes
    every event by the session's connection kind.

  Both keep a game-server map and a client map. Both onboard clients,
  upsert server reports, build a server list and broadcast it.
- **The legacy network layer** (`src/network`). It covers:
  - the session registry `handle_event`;
  - the listener's id counter;
  - the byte-at-a-time stream readers;
  - the session receive loops;
  - the `SessionEvent` constructors;
  - the 2-field `Packet`.

How the model is built:

- **Integers.** `byte`, `u16` and `u32` are subset types of `int`. Rust's
  `as` casts and the wrapping counters are written out with `%`.
- **Panics.** An index out of range, a `panic!` or an `unwrap` on an error is
  an explicit `Panic` outcome, never a precondition.
- **Imperative code.** The code that works in place on a buffer (`serialize`,
  the `set_*` helpers, the stream readers) or on the handler's fields uses
  methods over `array`s and classes. Each such method is proved against a
  pure function of the old state.
- **Iteration order.** A `HashMap` loop visits its keys in a ghost order,
  which every specification quantifies over.
- **Foreign calls.** `SessionRef::send` and `close` are foreign. The `Sessions`
  class records each call in a log, and whether a send succeeds is not up to
  the handler.
- **Channels.** A channel is the sequence of messages sent on it.

Behaviour of the code that the model keeps as written:

- `load()` is the ratio `usr_cnt / mx_usr_cnt` cast to `u8`. It is not a
  percentage: a half-full server reports 0, and a full one reports 1.
- `serialize` writes the stored `sz`. It does not recompute it.
- The sub-code byte is written when `sub_code > 0`, but `new` and
  `header_len` decide by the code.
- There is no liveness window and no timestamp. Every known game server is
  listed.
- A server list is built and sent even when no game server is known.
  With `to_packet` read as `MuPacket::from_protocol` (see "Left out"), it
  panics once the list reaches 16384 entries, because `2 + 4 * n` is
  truncated to `u16`.
- `decode` panics on an unknown frame kind. It does not report an error.
- Session ids come from a `u32` counter. Past 2^32 sessions the counter
  wraps and ids are reused.
- The handler of `bin/cs/src/logic/` files game servers by session id. So
  two sessions that report the same server code give two list entries
  (`CsSessionHandler.SameCodeTwoEntries`).
- `TcpSession::main_loop` consumes a whole frame of `sz + 2` bytes but sends
  only `packet_buf[0..sz]`. The older `Session::main_loop` sends the whole
  65536-byte buffer. Both are modelled as written.
- `JoinServerStat::serialize` hands a 2-byte slice to `set_u32`. With the
  `set_u32` of src/network/protocol.rs (see "Left out"), it always panics
  after writing the first two bytes.

## Model

| member | source | states |
|---|---|---|
| `ByteOrder.GetU16` | src/network/protocol.rs:14-16 | the value read is the one whose big-endian bytes are `buf[0..2]`; it depends on nothing else (the same function is in src/protocol.rs:14-16) |
| `ByteOrder.GetU32` | src/network/protocol.rs:3-5 | the value read is the one whose big-endian bytes are `buf[0..4]`; it depends on nothing else |
| `ByteOrder.GetBeU16` | src/network/protocol.rs:14-21 | `get_u16` reads back every `u16` that `set_u16` wrote |
| `ByteOrder.GetBeU32` | src/network/protocol.rs:3-12 | `get_u32` reads back every `u32` that `set_u32` wrote |
| `ByteOrder.SetU16` | src/network/protocol.rs:18-21 | on a slice of at least 2 bytes: the two bytes are written most significant first and nothing else changes; on a shorter slice: the bytes that fit are written, then it panics |
| `ByteOrder.SetU32` | src/network/protocol.rs:7-12 | on a slice of at least 4 bytes: the four bytes are written most significant first and nothing else changes; on a shorter slice: the bytes that fit are written, then it panics |
| `MuProtocol.Triple` | lib/mu-proto/src/protocol.rs:17-29 | every triple has kind C1 or C2; a sub-code is non-zero exactly for a code in `SUB_CODE_PKTS`, and only the server list has such a code |
| `MuProtocol.Size` | lib/mu-proto/src/protocol.rs:68-70 | `size` is the payload layout's length (11, 4 and 1); for a server list it is that length while `4 * n` fits a `u16` |
| `MuProtocol.ParseServerInfo` | lib/mu-proto/src/protocol.rs:48-57 | panics below 11 bytes; otherwise the result's layout is `buf[0..11]` (the same code is in src/protocol.rs:40-49 and src/cs/protocol.rs:15-24) |
| `MuProtocol.ServerInfoRoundTrip` | lib/mu-proto/src/protocol.rs:48-66 | parsing the 11-byte layout of a `ServerInfo`, followed by anything, gives back all six fields |
| `MuProtocol.ParseJoinServerStat` | lib/mu-proto/src/protocol.rs:78-82 | panics below 4 bytes; otherwise `queue_cnt` is the big-endian `u32` of `buf[0..4]` |
| `MuProtocol.ParseConnectResult` | lib/mu-proto/src/protocol.rs:98-100 | panics on an empty buffer; otherwise `res` is `buf[0]` |
| `MuProtocol.PayloadRoundTrip` | lib/mu-proto/src/protocol.rs:48-108 | for every message except the server list, that message's `parse` inverts its layout |
| `MuProtocol.NewServerList` | lib/mu-proto/src/protocol.rs:117-122 | `cnt` is the given count and there are no entries |
| `MuProtocol.Add` | lib/mu-proto/src/protocol.rs:124-126 | the count is unchanged, the old entries are kept, one entry is appended at the end, and the layout grows by that entry's 4 bytes |
| `MuProtocol.ServerListLayout` | lib/mu-proto/src/protocol.rs:134-145 | `cnt` is big-endian at offset 0, and entry `i` is at offset `2 + 4i` as (big-endian code, load, 0xFF) |
| `MuProtocol.SerializeServerInfo` | lib/mu-proto/src/protocol.rs:59-66 | succeeds exactly on a buffer of at least 11 bytes, writes the layout at its front and nothing past it (src/protocol.rs:51-58, src/cs/protocol.rs:26-33) |
| `MuProtocol.SerializeJoinServerStat` | lib/mu-proto/src/protocol.rs:84-86 | never succeeds; on a buffer of at least 2 bytes it leaves the first two bytes of the big-endian `u32` behind (src/protocol.rs:76-78, src/cs/protocol.rs:51-53) |
| `MuProtocol.SerializeConnectResult` | lib/mu-proto/src/protocol.rs:102-104 | succeeds exactly on a non-empty buffer, writing `res` at `buf[0]` and nothing else |
| `MuProtocol.SerializeServerList` | lib/mu-proto/src/protocol.rs:134-146 | succeeds exactly when the buffer holds `2 + 4n` bytes, and then writes the server-list layout and nothing past it |
| `MuProtocol.SerializesAtSize` | lib/mu-proto/src/protocol.rs:68-149 | a message that serializes into a buffer of its own `size` fills that buffer exactly |
| `MuProtocol.Serialize` | lib/mu-proto/src/protocol.rs:59-146 | `Protocol::serialize` succeeds exactly when the message's layout fits the buffer (never for `JoinServerStat`), and then writes the layout at the front, touching nothing else |
| `MuPackets.HeaderLen` | lib/mu-proto/src/packet.rs:73-85 | panics for a kind other than C1/C2; otherwise it is 2 (C1) or 3 (C2), plus 2 for a code with a sub-code and 1 otherwise |
| `MuPackets.Len` | lib/mu-proto/src/packet.rs:87-89 | at least 3, and exactly the number of bytes `serialize` writes when the sub-code test and the code agree |
| `MuPackets.New` | lib/mu-proto/src/packet.rs:25-57 | `None` for an unknown kind; a panic exactly when the buffer is empty or the header of a C1/C2 frame does not fit; otherwise the kind and size field (1 byte or big-endian 2), the code, the sub-code (`buffer[n]` for 0xF4, else 0) and every byte after the header as data, whatever `sz` says |
| `MuPackets.NewWire` | lib/mu-proto/src/packet.rs:25-125 | `new` applied to what `serialize` writes gives back kind, code, sub-code and data, with `sz` truncated to a byte for C1, whenever the sub-code test and the code agree |
| `MuPackets.Serialize` | lib/mu-proto/src/packet.rs:91-125 | `BufferTooSmall`, writing nothing, when `buf.len() < len()`; otherwise it returns `Ok(len())` exactly when the sub-code test and the code agree, and panics when they do not; on success it writes the header and the data in `buf[0..len()]` and nothing past it |
| `MuPackets.WriteHeader` | lib/mu-proto/src/packet.rs:96-120 | writes kind, the stored `sz` and the code, then the sub-code when it is `> 0`, and nothing past the header; it panics only when that byte falls past the buffer |
| `MuPackets.WriteData` | lib/mu-proto/src/packet.rs:122-124 | `clone_from_slice` of the data into `buf[idx..len()]` succeeds exactly when the header written and `len()` agree, and panics otherwise |
| `MuPackets.CopyData` | lib/mu-proto/src/packet.rs:122 | the data occupies `buf[idx..idx + len]` and every other byte is unchanged |
| `MuPackets.PacketOf` | lib/mu-proto/src/packet.rs:59-71 | `from_protocol` succeeds exactly when the payload serializes into its `size` bytes; the packet is then consistent, carries the message's triple, carries exactly the payload layout, and announces `sz = size + header_len` in wrapping `u16` arithmetic |
| `MuPackets.FromProtocol` | lib/mu-proto/src/packet.rs:59-71 | allocating `size` zero bytes, serializing into them and framing the result gives `PacketOf` |
| `MuPackets.SerializeSized` | lib/mu-proto/src/packet.rs:62-63 | serializing into `size` zero bytes succeeds exactly when the message fits them, and the bytes are then the payload layout |
| `MuPackets.PacketOfFramesItself` | lib/mu-proto/src/packet.rs:59-71 | for a `ServerInfo`, a `ConnectResult` or a server list of fewer than 16383 entries, built under its own name, `from_protocol` succeeds, the packet announces its own `len()` as `sz`, and that length fits a byte for C1 |
| `MuCodec.DeclaredSize` | lib/mu-proto/src/codec.rs:23-28 | the announced size is `buf[1]` for C1 and the big-endian `buf[1..3]` for C2 |
| `MuCodec.DecodeSpec` | lib/mu-proto/src/codec.rs:17-38 | below 3 bytes: `Ok(None)` with the buffer untouched; an unknown kind panics; a frame not yet complete gives `Ok(None)` and consumes nothing; otherwise the result is `new(&buf[0..sz])` and exactly `sz` bytes are removed from the front, leaving the rest in order |
| `MuCodec.Decode` | lib/mu-proto/src/codec.rs:17-38 | `decode` on a `BytesMut` returns and leaves what `DecodeSpec` describes |
| `MuCodec.WireDeclaresLen` | lib/mu-proto/src/codec.rs:23-28 | the bytes `serialize` writes for a self-framed packet announce its `len()` |
| `MuCodec.DecodePartialFrame` | lib/mu-proto/src/codec.rs:30-32 | every proper prefix of a self-framed packet's bytes gives "need more data" and stays in the buffer |
| `MuCodec.DecodeRoundTrip` | lib/mu-proto/src/codec.rs:17-38 | decoding a serialized packet with `sz == len()`, followed by anything, gives the packet back and leaves exactly what followed |
| `MuCodec.Encode` | lib/mu-proto/src/codec.rs:45-51 | `encode` as written: it serializes over the buffer's current readable bytes, so it panics when they are fewer than `len()` |
| `MuCodec.EncodeIntoEmptyPanics` | lib/mu-proto/src/codec.rs:45-51 | encoding into an empty buffer always panics |
| `MuCodec.EncodeAppend` | lib/mu-proto/src/codec.rs:45-51 | the intended `encode` appends exactly the packet's bytes, and succeeds exactly for a consistent packet |
| `MuCodec.EncodeAppendThenDecode` | lib/mu-proto/src/codec.rs:17-51 | with the intended `encode`, decoding what was encoded gives the packet back and leaves nothing |
| `LegacyProtocol.NameOf` | src/protocol.rs:60-100 | the older payloads are `ServerInfo`, `JoinServerStat` and `ConnectResult`, none of which is the server list |
| `LegacyProtocol.ToPacketArgs` | src/protocol.rs:60-62 | the (kind, size, code) each legacy `to_packet` passes to `Packet::from_protocol`: `(0xC1, 11, 0x01)` for `ServerInfo`, `(0xC1, 4, 0x02)` for `JoinServerStat` (src/protocol.rs:80-82) and `(0xC1, 1, 0x00)` for `ConnectResult` (src/protocol.rs:98-100); src/cs/protocol.rs:35-37, 55-57 and 73-75 pass the same |
| `LegacyProtocol.ToPacketArgsAgree` | src/protocol.rs:60-100 | `to_packet` passes `(0xC1, 11, 0x01)`, `(0xC1, 4, 0x02)` and `(0xC1, 1, 0x00)`: the kind and code of the lib/mu-proto triple, no sub-code, and the size of the payload layout (src/cs/protocol.rs:35-75 passes the same) |
| `NetPacket.New` | src/network/packet.rs:8-14 | panics below 2 bytes; otherwise `sz` and `code` are the first two bytes and `data` is all the rest |
| `NetPacket.SubCode` | src/network/packet.rs:20-22 | `data[0]`, and a panic for empty data |
| `NetPacket.NewAccessors` | src/network/packet.rs:8-26 | after `new`, `code()` is `buffer[1]`, `data()` is `buffer[2..]`, and `sub_code()` is `buffer[2]` or a panic |
| `NetServer.ParsePacket` | src/network/server/mod.rs:248-255 | `None` exactly below 2 bytes, else `Some(Packet::new(buf))` (src/network/server.rs:165-172 is the same) |
| `NetServer.Step` | src/network/server/mod.rs:257-290 | a connect inserts the session under its id and reports `ClientConnected`; a disconnect removes the id (present or not) and reports `ClientDisconnected`; packet data leaves the sessions alone and reports `ClientPacket` exactly when it parses; a post writes only to a known id; `RequestDisconnect` does nothing |
| `NetServer.RunSessions` | src/network/server/mod.rs:257-290 | after any run of events, an id is registered exactly when its last connect/disconnect event was a connect, and every session stays filed under its own id |
| `NetServer.LegacyStep` | src/network/server.rs:174-204 | the older `handle_event`: a connect files and reports the session, a disconnect drops and reports the id, packet data reports at most one packet and leaves the sessions alone, and a post to an unknown id changes nothing |
| `NetServer.SessionTable.HandleEvent` | src/network/server/mod.rs:257-290 | the registry's map, its event channel and its session writes after `handle_event` are `Step` of the old state |
| `NetServer.AcceptLoop` | src/network/server/mod.rs:226-242 | the listener panics exactly on a stream error; it sends one `Connected` per created session; the j-th has id j + 1 modulo 2^32, because the counter starts at 1 and advances only when the session is created (src/network/server.rs:144-160 is the same) |
| `NetServer.UdpClients.Add` | src/network/server/mod.rs:127-130 | the client is filed under its id, replacing any earlier one, and every client stays filed under its own id |
| `NetServer.UdpClients.Get` | src/network/server/mod.rs:132-137 | `UdpClientNotFound` for an id never added; `UdpClientCloneFail` when the clone fails; otherwise the stored client with that id |
| `StreamReader.ByteSource.Read` | src/network/server/session.rs:41-46 | a one-byte read yields the next byte, else 0 bytes at end of stream or an error, and consumes exactly the byte it yields |
| `StreamReader.ReadNBytesSpec` | src/network/server/session.rs:29-58 | `BufferTooSmall`, consuming nothing, exactly when `out.len() < cnt`; for `cnt >= 1`, success consumes and stores exactly `cnt` bytes and returns `cnt`; for `cnt == 0` it panics exactly when the stream outlasts the slice |
| `StreamReader.ReadNBytes` | src/network/server/session.rs:29-58 | the loop returns what `ReadNBytesSpec` says, stores the bytes read in stream order from `out[off]` and changes no other byte |
| `StreamReader.ReadC1DataSpec` | src/network/server/session.rs:60-74 | an empty stream gives `C1ErrorEosReached` or `C1ErrorGeneralFailure`; success consumes the size byte and exactly that many more, stores them all, and returns the size |
| `StreamReader.StoreSizeAndRead` | src/network/server/session.rs:69-70 | the size byte goes to `out[off]` and `read_n_bytes` fills what follows it |
| `StreamReader.ReadC1Data` | src/network/server/session.rs:60-74 | `read_c1_data` returns what `ReadC1DataSpec` says, stores the bytes read in stream order and changes no other byte |
| `StreamReader.ParsePacketSpec` | src/network/server/session.rs:83-102 | a successful `parse_packet` returns the size byte's value and has consumed the size byte and that many more bytes |
| `StreamReader.ParsePacket` | src/network/server/session.rs:83-102 | puts the header at `out[0]` and what `read_c1_data` read after it, and changes nothing further |
| `StreamReader.C1FrameRead` | src/network/server/session.rs:60-74 | for a well-formed C1 body, `read_c1_data` consumes and stores exactly the size byte and `sz` bytes and returns `sz`, whatever follows |
| `StreamReader.C1ZeroSize` | src/network/server/session.rs:34-57 | a size byte of 0 makes the reader store the rest of the stream: it ends with the stream's end error if that fits and panics if not |
| `TcpSessions.NextFrameSpec` | src/network/server/session.rs:112-127 | a turn that reads a frame consumes its header, its size byte and `sz` more bytes, and yields the first `sz` bytes of the packet buffer |
| `TcpSessions.NextFrame` | src/network/server/session.rs:112-127 | one turn of `main_loop` yields and consumes what `NextFrameSpec` says, and leaves the consumed bytes at the front of `packet_buf` |
| `TcpSessions.MainLoop` | src/network/server/session.rs:104-140 | the events `main_loop` sends are `RxEvents` of the stream |
| `TcpSessions.RxFrame` | src/network/server/session.rs:121-127 | a well-formed frame is consumed whole but only its first `sz` bytes go out as `PacketData`, and the loop goes on with what follows |
| `TcpSessions.RxZeroSize` | src/network/server/session.rs:29-74 | a size byte of 0 ends the session with only `Disconnected`, or panics when more than 65534 bytes follow |
| `TcpSessions.RxEndsWithDisconnect` | src/network/server/session.rs:111-139 | a run that does not panic sends `PacketData` events followed by exactly one `Disconnected(id)`, as its last event |
| `TcpSessions.Send` | src/network/server/session.rs:173-181 | a write error becomes `StreamWriteFailure`, and any completed write is `Ok` |
| `LegacySessions.ConnectedEvent` | src/network/session.rs:20-30 | kind `Connected`, and 4 bytes of data that `get_u32` reads back as the id |
| `LegacySessions.DisconnectEvent` | src/network/session.rs:32-42 | kind `Disconnected`, and the same 4-byte big-endian encoding of the id |
| `LegacySessions.DataEvent` | src/network/session.rs:44-49 | kind `Data`, and data equal to the given bytes |
| `LegacySessions.IdEventsShareEncoding` | src/network/session.rs:20-42 | connect and disconnect events of one id carry the same data, and two ids give the same data exactly when they are equal |
| `LegacySessions.ZeroBuf` | src/network/session.rs:149 | the packet buffer starts as 65536 zero bytes |
| `LegacySessions.NewPacketBuf` | src/network/session.rs:149 | a fresh buffer of 65536 zero bytes |
| `LegacySessions.RxStep` | src/network/session.rs:164-178 | a turn that reads a frame sends the whole updated buffer, the consumed bytes laid over the old buffer, and the loop goes on with the rest of the stream |
| `LegacySessions.Turn` | src/network/session.rs:155-179 | one turn of `Session::main_loop`: what is left to send before the turn is what the turn sent followed by what is left after it |
| `LegacySessions.MainLoop` | src/network/session.rs:147-184 | the events `Session::main_loop` sends are `RxEvents` of the stream, starting from a zero buffer |
| `LegacySessions.RxSendsWholeBuffer` | src/network/session.rs:164-178 | every `Data` event of a run carries the whole 65536-byte buffer, never just the frame |
| `LegacySessions.RxFirstFrame` | src/network/session.rs:164-178 | the first frame's event holds its header, size byte and data, padded with zeros to 65536 bytes |
| `CsCommon.Load` | bin/cs/src/logic.rs:17-22 | 0 without a user limit; otherwise the truncated quotient modulo 256, which is exact below 256 (bin/cs/src/logic/gs.rs:19-24 is the same) |
| `CsCommon.LoadExamples` | bin/cs/src/logic.rs:17-22 | 50 of 100 users gives load 0, 100 of 100 gives 1, and 300 of 1 wraps to 44 |
| `CsCommon.BuildServerList` | bin/cs/src/logic.rs:124-132 | the list announces `gs_map.len()` as `u16` and holds exactly `gs_map.len()` entries: the (code, load) of every game server and nothing else, one per key in the loop's visiting order |
| `CsCommon.ServerListPacket` | lib/mu-proto/src/protocol.rs:134-149 | `to_packet` of a list of `n` entries succeeds exactly when `n < 16384`, and the payload is then the server-list layout |
| `CsCommon.ConnectResultPacket` | bin/cs/src/logic.rs:61-63 | the packet of `ConnectResult { res: 1 }` is the one `from_protocol` builds, so sending it never panics |
| `CsCommon.BroadcastOpsSpec` | bin/cs/src/logic.rs:52-58 | a broadcast sends the packet to every client, sends nothing else, and closes exactly the clients whose send failed |
| `CsCommon.Broadcast` | bin/cs/src/logic/mod.rs:61-67 | the session log grows by exactly one broadcast over the clients in a visiting order of the map; the map is not changed |
| `CsCommon.BroadcastSendsAll` | bin/cs/src/logic.rs:52-58 | the broadcast log holds a send of the packet to every client, with that send's outcome |
| `CsCommon.BroadcastSendsOnly` | bin/cs/src/logic.rs:52-58 | every send in the broadcast log is of the packet, to one of the clients |
| `CsCommon.BroadcastClosesFailed` | bin/cs/src/logic.rs:54-56 | a session is closed during the broadcast exactly when it is a client whose send failed |
| `CsCommon.EntriesOf` | bin/cs/src/logic.rs:127-131 | one entry per visited key, in visiting order, each the (code, load) of that key's game server |
| `CsCommon.SendOrClose` | bin/cs/src/logic.rs:54-56 | a send, then a close exactly when the send failed |
| `CsHandler.Upsert` | bin/cs/src/logic.rs:89-116 | an unseen server code is added with every reported field; a known one has only `perc`, `usr_cnt` and `acc_cnt` refreshed, keeping ip, port and user limit; the key set gains only the code, and the map stays keyed by code |
| `CsHandler.UpsertIdempotent` | bin/cs/src/logic.rs:89-116 | repeating a report changes nothing |
| `CsHandler.UpsertKeepsFirstIdentity` | bin/cs/src/logic.rs:107-111 | after two reports from one server, the map holds the second report's counters and the first report's ip, port and user limit |
| `CsHandler.Handler.constructor` | bin/cs/src/logic.rs:35-41 | both maps start empty |
| `CsHandler.Handler.NewServerListPkt` | bin/cs/src/logic.rs:123-135 | one (code, load) entry per game server in a visiting order of the map; a panic exactly when the list reaches 16384 entries |
| `CsHandler.Handler.SendServerList` | bin/cs/src/logic.rs:137-143 | exactly one send of the server list, or a panic with nothing sent |
| `CsHandler.Handler.AdmitClient` | bin/cs/src/logic.rs:68-73 | after the server-list send, the client is filed when it succeeded and closed when it failed |
| `CsHandler.Handler.OnClientConnected` | bin/cs/src/logic.rs:60-74 | `ConnectResult{1}` first; if that fails, a close and nothing else; then the server list; the client is filed exactly when both sends succeed and closed as soon as one fails; `gs_map` is unchanged |
| `CsHandler.Handler.OnClientDisconnected` | bin/cs/src/logic.rs:76-79 | exactly that id leaves `clients` |
| `CsHandler.Handler.BroadcastServerList` | bin/cs/src/logic.rs:118-120 | the current server list goes to every client, or it panics with nothing sent |
| `CsHandler.Handler.OnServerInfo` | bin/cs/src/logic.rs:89-121 | `gs_map` becomes `Upsert` of the report and `clients` is unchanged; then the new list is broadcast to every client |
| `CsHandler.Handler.OnPacketReceived` | bin/cs/src/logic.rs:81-87 | only code 0x01 is acted on: the parsed `ServerInfo` is upserted and the new list broadcast; a parse panic, 0x02 and every other code change nothing |
| `CsHandler.Handler.HandleNetEvent` | bin/cs/src/logic.rs:43-50 | a connect sends `ConnectResult{1}` and then the server list, filing the client exactly when both sends succeed and closing it as soon as one fails; a disconnect removes exactly that client; a packet leaves `clients` alone and has `OnPacketReceived`'s effect: code 0x01 with a parsed report upserts it and broadcasts the new list to every client, panicking with nothing sent exactly when the list is full; a parse panic or any other code sends nothing; an unknown event changes nothing |
| `CsHandler.Handler.Poll` | bin/cs/src/logic.rs:145-165 | events are drained until the stream finishes (`Ready`), is not ready (`NotReady`) or fails, which is passed on; `process` ignores each event |
| `CsSessionHandler.Upsert` | bin/cs/src/logic/gs.rs:31-58 | a report is filed under the session's id: a new id gets the session and every reported field; a known one has only `perc`, `usr_cnt` and `acc_cnt` refreshed; the map stays keyed by session id |
| `CsSessionHandler.SameCodeTwoEntries` | bin/cs/src/logic/gs.rs:31-58 | two sessions reporting one server code are two distinct entries with that code |
| `CsSessionHandler.Handler.constructor` | bin/cs/src/logic/mod.rs:22-28 | both maps start empty |
| `CsSessionHandler.Handler.NewServerListPkt` | bin/cs/src/logic/gs.rs:69-81 | one (code, load) entry per map entry in a visiting order of the map; a panic exactly when the list reaches 16384 entries |
| `CsSessionHandler.Handler.SendServerList` | bin/cs/src/logic/gs.rs:83-89 | exactly one send of the server list, or a panic with nothing sent |
| `CsSessionHandler.Handler.BroadcastServerListUpd` | bin/cs/src/logic/gs.rs:63-67 | the current server list goes to every client, or it panics with nothing sent |
| `CsSessionHandler.Handler.OnServerInfo` | bin/cs/src/logic/gs.rs:31-61 | `gs_map` becomes `Upsert` of the report under the session's id; then the new list is broadcast to every client |
| `CsSessionHandler.Handler.OnServerDisconnected` | bin/cs/src/logic/gs.rs:91-94 | exactly that id leaves `gs_map`, and then the new list is broadcast |
| `CsSessionHandler.Handler.OnServerConnected` | bin/cs/src/logic/gs.rs:96-98 | nothing changes |
| `CsSessionHandler.Handler.OnReceived` | bin/cs/src/logic/gs.rs:100-106 | only code 0x01 is acted on, as a `ServerInfo` filed under the session's id; other codes change nothing (bin/cs/src/logic/client.rs:32-38 is the same) |
| `CsSessionHandler.Handler.AdmitClient` | bin/cs/src/logic/client.rs:19-24 | after the server-list send, the client is filed when it succeeded and closed when it failed |
| `CsSessionHandler.Handler.OnClientConnected` | bin/cs/src/logic/client.rs:11-25 | `ConnectResult{1}` first; the client is filed exactly when both sends succeed and closed as soon as one fails; a failed first send means no server list is sent |
| `CsSessionHandler.Handler.OnClientDisconnected` | bin/cs/src/logic/client.rs:27-30 | exactly that id leaves `clients` |
| `CsSessionHandler.Handler.OnConnected` | bin/cs/src/logic/mod.rs:47-52 | a session of kind `GS_CONN` changes nothing; any other session gets `ConnectResult{1}` and then the server list, and is filed exactly when both sends succeed and closed as soon as one fails; the log grows by the returned segment, which is an `Onboarded` one for such a client and empty for `GS_CONN` |
| `CsSessionHandler.Handler.OnDisconnected` | bin/cs/src/logic/mod.rs:54-59 | kind `GS_CONN` removes the game server and broadcasts; any other kind removes the client and logs nothing; the log grows by the returned segment |
| `CsSessionHandler.Handler.OnPacketReceived` | bin/cs/src/logic/mod.rs:40-45 | whatever the session kind, code 0x01 files the parsed `ServerInfo` under the session's id and broadcasts the new list; a parse panic or any other code changes nothing and logs nothing; the log grows by the returned segment |
| `CsSessionHandler.Handler.HandleNetEvent` | bin/cs/src/logic/mod.rs:30-38 | every event is answered with `Ready` unless its handling panics; a connect of kind `GS_CONN` changes nothing, and any other connect onboards the client, filed exactly when both sends succeed; a disconnect of kind `GS_CONN` removes the game server and broadcasts the new list to every client, panicking with nothing sent exactly when the list is full; any other disconnect removes the client and sends nothing; a packet upserts a parsed `ServerInfo` under the session's id and broadcasts in the same way, and a parse panic or any other code sends nothing; when no panic occurs the maps become `GsStep` and `ClientsStep` of the event, and the log grows by a segment that `EventLogged` describes |
| `CsSessionHandler.Handler.Poll` | bin/cs/src/logic/mod.rs:77-85 | events are handled until the stream finishes (`Ready`), is not ready (`NotReady`) or fails; then `gs_map` and `clients` are `GsRun` and `ClientsRun` of the events handled, the log grows by one segment per event, in order; a connecting client's segment is its onboarding (`ConnectResult{1}` first, a close as soon as a send fails), and `admitted` records for each event whether both of that client's sends were delivered; a game server's connect, a client's disconnect and a packet of another code log nothing; a panic stops the loop at the event that caused it |
| `CsSessionHandler.Handler.RunKeepsKeyed` | bin/cs/src/logic/mod.rs:30-38 | however a run of events goes, `gs_map` stays filed by session id and `clients` by client id |
| `EventStreams.EventStream.Next` | bin/cs/src/logic/mod.rs:79 | `io.poll()` gives the next answer of the stream, and `Ready(None)` once the answers run out |
| `CsSessionHandler.Handler.Turn` | bin/cs/src/logic/mod.rs:78-83 | one pass of the loop: the stream moves one answer on unless it has finished; an event is handled as `handle_net_event` does, with its step on both maps and its logged segment; any other answer gives the loop's result and changes nothing |
| `CsSessionHandler.Handler.Step` | bin/cs/src/logic/mod.rs:78-84 | a pass of the loop extends the run: after an event, the stream is one answer further, still before the answer that ends the poll, and the maps and log are the run of one more event; after any other answer, the poll's result and end position are reached, with the run of every event handled |
| `EventStreams.PollEnd` | bin/cs/src/logic/mod.rs:77-85 | the poll loop leaves the stream at most at its end, just past the answer it stopped at |
| `EventStreams.StopAt` | bin/cs/src/logic/mod.rs:78-84 | the poll loop stops at the first answer that is not an event |
| `EventStreams.PollResultCases` | bin/cs/src/logic/mod.rs:77-85 | `PollResult`, the poll loop's answer once its stream stops giving events: `Ready` when it has finished, `NotReady` when it is pending, the stream's error when it fails (bin/cs/src/logic.rs:157-165 is the same) |
| `EventStreams.PollStops` | bin/cs/src/logic/mod.rs:78-84 | once only events lie between the start and an answer that is not one, the loop ends at that answer, with its result and just past it |
| `EventStreams.EventsIn` | bin/cs/src/logic/mod.rs:78-80 | the events the poll loop hands to `handle_net_event`, in the order the stream gives them |

## Left out

- mu_proto's `Protocol::to_packet`, which the CS handlers call (bin/cs/src/logic.rs:63,134, bin/cs/src/logic/gs.rs:80, bin/cs/src/logic/client.rs:14), is defined in no source file of this model. `CsCommon.ConnectResultPacket`, `CsCommon.ServerListPacket`, `CsHandler.Handler.NewServerListPkt` and `CsSessionHandler.Handler.NewServerListPkt` take it to be `MuPacket::from_protocol` with the message's own `ProtoMsg`. The panic at 16384 list entries rests on that reading.
- The `util` crate whose get/set helpers lib/mu-proto/src/protocol.rs imports is not part of this model. `MuProtocol` uses the helpers of src/network/protocol.rs (`ByteOrder`) in their place. `MuProtocol.SerializeJoinServerStat`, `MuProtocol.ParseServerInfo`, `MuProtocol.ParseJoinServerStat`, `MuProtocol.SerializeServerInfo`, `MuProtocol.SerializeServerList` and `MuProtocol.Serialize` rest on that, including the always-panicking `JoinServerStat::serialize`.
- Threads, `mpsc` channels, `TcpListener`/`UdpSocket` binding, and `UdpClient::new`/`send`: these are I/O and concurrency. A channel is the sequence of messages sent on it, and a send on it never fails. So the exits on a failed channel send are not modelled: the `break` in both `main_loop`s and in `start_tcp`, and the panic in `close_client`.
- `Session::new`/`TcpSession::new` (stream cloning and thread spawning), and the fixed welcome writes of src/network/session.rs: these are socket I/O. `AcceptLoop` takes whether each session was created as its input.
- `Server::post_packet`, `disconnect`, `send_event`, `start_udp` and the event iterator `next` of src/network/server/mod.rs and src/network/server.rs: these are channel and socket plumbing around the modelled `handle_event`.
- `Display` impls, and the `println!`/`print!` hex dumps, including `parse_packet`'s diagnostic slice: these are output only. `StreamReader.ParsePacket` notes that its slice stays in bounds.
- `ServerInfo::parse` as the CS handlers call it: their `ServerInfo` has `ip` and `port` fields. It comes from a mu_proto prelude that is not part of this model, so the parser is a parameter of each handler.
- The value of `consts::GS_CONN`: it is not part of this model, so it is a parameter.
- `NetworkEvent`: its definition is not part of this model. Each handler's event type holds the variants that handler matches on.
- `Packet::from_protocol`, `serialize` and `len` behind the `to_packet` of src/protocol.rs and src/cs/protocol.rs: they are not part of this model, so only the arguments passed to them are modelled.
- `SessionRef` internals: `send` and `close` are foreign calls, recorded in a log. Whether a send succeeds is free, and `close`'s result is ignored, as the handlers ignore it.
- Debug-build overflow panics: the model uses release-build wrapping for `client_index += 1`, for `len + header_len` in `from_protocol` and for the `as u16` casts.
- `MuPackets.FromProtocol`: `proto.len()` is read as `Protocol::size()`, the only length the trait has.
- `MuCodec.Decode`: `Ok(Some(pkt))` with `pkt: Option<MuPacket>` is read as returning the packet that `new` built. `new` cannot return `None` there, since the kind was already checked.
- `EventStreams.EventStream.Next`: the stream is the finite list of answers its `poll` gives. Once the list runs out it reports that it has finished.
- `CsSessionHandler.Handler.Poll`: for the broadcasting events of a run (a game server's disconnect and a 0x01 packet) the run-level contract says only that their segments are logged in order. Which clients each broadcast reaches, and what list it carries, is stated per event by `HandleNetEvent`, because the run-level statement would need each event's map context.
- `CsHandler.Handler.Poll`: `process` answers `Ready` without looking at the event, so polling changes only the stream's position, as written.
- `CsCommon.BuildServerList`: a `HashMap`'s iteration order is unspecified, so the entries are tied to some visiting order of the keys, not to a particular one.
- `ByteOrder.GetU16` and `ByteOrder.GetU32` require at least 2 or 4 bytes: every caller passes a slice cut to exactly that length, so the shorter-slice panic cannot happen.

## Findings

| source | as written | input that shows it | evidently intended | confidence | as-written member | corrected member |
|---|---|---|---|---|---|---|
| lib/mu-proto/src/codec.rs:45-51 | `buf.reserve(msg.len())` grows the capacity of the `BytesMut` but not its length. `msg.serialize(buf)` then writes into the buffer's current bytes, so `serialize` returns `BufferTooSmall` and `unwrap` panics whenever fewer bytes are buffered than the packet needs. | Any packet encoded into an empty `BytesMut`: every frame the codec sends. | Append the packet's `len()` bytes to the buffer and serialize into them, so that `decode` gets the packet back. | not executed | `MuCodec.Encode`, `MuCodec.EncodeIntoEmptyPanics` | `MuCodec.EncodeAppend`, `MuCodec.EncodeAppendThenDecode` |
