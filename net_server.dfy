/** The session registry and listener of src/network/server/mod.rs. The
    earlier src/network/server.rs has the same `handle_event` (its `NetEvent`
    lacks `RequestDisconnect`), the same `parse_packet` and the same id
    counter in `start_tcp`; these members model both. Channels are the
    sequences of messages sent on them. */
module NetServer {
  import opened Base
  import opened NetPacket
  import opened TcpSessions

  /** `Event`: what the registry reports to the server's user. */
  datatype Event = ClientConnected(id: u32) | ClientDisconnected(id: u32) | ClientPacket(pkt: Packet)

  /** `Error`. */
  datatype Error =
    | EventTxFailure
    | EventTxNone
    | SendPacketSerializeFailed
    | UdpClientNotFound
    | UdpSendError
    | UdpClientCloneFail

  /** `Server::parse_packet`: no packet below 2 bytes, else `Packet::new`,
      which cannot panic then. */
  function ParsePacket(buf: seq<byte>): (r: Option<Packet>)
    ensures r.None? <==> |buf| < 2
    ensures r.Some? ==> New(buf) == Ok(r.value)
  {
    if |buf| < 2 then None else Some(New(buf).value)
  }

  /** The registry's state: the live sessions by id, the events sent to the
      user, and each `send` made on a session, as (id, bytes). */
  datatype Registry = Registry(sessions: map<u32, TcpSession>, events: seq<Event>, writes: seq<(u32, seq<byte>)>)

  /** `Server::handle_event` on a registry state. It changes the session
      map only by inserting a connected session or removing a disconnected
      id (absent or not); it reports at most one event, `ClientPacket`
      exactly when the data parses; it writes only to a live session. */
  function Step(s: Registry, evt: SessionEvent): (r: Registry)
    ensures evt.Connected? ==> r.sessions == s.sessions[evt.session.id := evt.session]
    ensures evt.Connected? ==> r.events == s.events + [ClientConnected(evt.session.id)]
    ensures evt.Disconnected? ==> r.sessions == s.sessions - {evt.id}
    ensures evt.Disconnected? ==> r.events == s.events + [ClientDisconnected(evt.id)]
    ensures !evt.Connected? && !evt.Disconnected? ==> r.sessions == s.sessions
    ensures evt.PacketData? ==>
      r.events == s.events + (if |evt.data| < 2 then [] else [ClientPacket(New(evt.data).value)])
    ensures evt.PostPacket? || evt.RequestDisconnect? ==> r.events == s.events
    ensures evt.PostPacket? && evt.to in s.sessions ==> r.writes == s.writes + [(evt.to, evt.data)]
    ensures !(evt.PostPacket? && evt.to in s.sessions) ==> r.writes == s.writes
  {
    match evt
    case Disconnected(id) =>
      Registry(s.sessions - {id}, s.events + [ClientDisconnected(id)], s.writes)
    case Connected(session) =>
      Registry(s.sessions[session.id := session], s.events + [ClientConnected(session.id)], s.writes)
    case PacketData(buf) =>
      var p := ParsePacket(buf);
      if p.None? then s else s.(events := s.events + [ClientPacket(p.value)])
    case PostPacket(id, buf) =>
      if id !in s.sessions then s else s.(writes := s.writes + [(id, buf)])
    case RequestDisconnect(_) => s
  }

  /** The registry after a run of events. */
  function Run(s: Registry, evts: seq<SessionEvent>): Registry
    decreases |evts|
  {
    if evts == [] then s else Step(Run(s, evts[..|evts| - 1]), evts[|evts| - 1])
  }

  /** Whether id `k` is live after `evts`: decided by the last `Connected`
      session with that id or `Disconnected(k)`, else by where it started. */
  function Live(k: u32, evts: seq<SessionEvent>, init: bool): bool
    decreases |evts|
  {
    if evts == [] then init
    else
      var e := evts[|evts| - 1];
      if e.Connected? && e.session.id == k then true
      else if e.Disconnected? && e.id == k then false
      else Live(k, evts[..|evts| - 1], init)
  }

  /** A session id is registered after a run exactly when its last
      connect/disconnect event was a connect; `PacketData`, `PostPacket` and
      `RequestDisconnect` never change the map. */
  lemma {:induction false} RunSessions(s: Registry, evts: seq<SessionEvent>, k: u32)
    ensures k in Run(s, evts).sessions <==> Live(k, evts, k in s.sessions)
    ensures (forall j :: j in s.sessions ==> s.sessions[j].id == j) && k in Run(s, evts).sessions ==>
      Run(s, evts).sessions[k].id == k
    decreases |evts|
  {
    if evts != [] {
      RunSessions(s, evts[..|evts| - 1], k);
    }
  }

  /** `NetEvent` of src/network/server.rs: the newer `SessionEvent` without
      `RequestDisconnect`. Its `Session` is seen, as the registry sees it,
      by its id. */
  datatype NetEvent =
    | NetConnected(session: TcpSession)
    | NetDisconnected(id: u32)
    | NetPacketData(data: seq<byte>)
    | NetPostPacket(to: u32, data: seq<byte>)

  /** The newer event a `NetEvent` corresponds to. */
  function AsSessionEvent(e: NetEvent): SessionEvent
  {
    match e
    case NetConnected(session) => Connected(session)
    case NetDisconnected(id) => Disconnected(id)
    case NetPacketData(data) => PacketData(data)
    case NetPostPacket(to, data) => PostPacket(to, data)
  }

  /** `Server::handle_event` of src/network/server.rs, whose arms are those
      of the newer one: a connect files the session under its id and reports
      it, a disconnect drops the id and reports it, packet data reports one
      packet exactly when it parses and leaves the sessions alone, and a post
      to an unknown id changes nothing at all. */
  function LegacyStep(s: Registry, e: NetEvent): (r: Registry)
    ensures e.NetConnected? ==>
      && r.sessions == s.sessions[e.session.id := e.session]
      && r.events == s.events + [ClientConnected(e.session.id)] && r.writes == s.writes
    ensures e.NetDisconnected? ==>
      && r.sessions == s.sessions - {e.id}
      && r.events == s.events + [ClientDisconnected(e.id)] && r.writes == s.writes
    ensures e.NetPacketData? ==>
      && r.sessions == s.sessions && r.writes == s.writes
      && s.events <= r.events && |r.events| <= |s.events| + 1
      && (r.events == s.events <==> |e.data| < 2)
    ensures e.NetPostPacket? && e.to !in s.sessions ==> r == s
    ensures e.NetPostPacket? && e.to in s.sessions ==> r == s.(writes := s.writes + [(e.to, e.data)])
  {
    Step(s, AsSessionEvent(e))
  }

  /** The `sessions` map, the event channel and the session writes of the
      registry thread. */
  class SessionTable {
    var sessions: map<u32, TcpSession>
    var events: seq<Event>
    var writes: seq<(u32, seq<byte>)>

    function State(): Registry
      reads this
    {
      Registry(sessions, events, writes)
    }

    constructor ()
      ensures State() == Registry(map[], [], [])
    {
      sessions := map[];
      events := [];
      writes := [];
    }

    /** `Server::handle_event`; the result of each channel send and session
        write is ignored, as `.ok()` does. */
    method HandleEvent(evt: SessionEvent)
      modifies this
      ensures State() == Step(old(State()), evt)
    {
      match evt
      case Disconnected(id) =>
        sessions := sessions - {id};
        events := events + [ClientDisconnected(id)];
      case Connected(session) =>
        var id := session.id;
        sessions := sessions[session.id := session];
        events := events + [ClientConnected(id)];
      case PacketData(buf) =>
        var p := ParsePacket(buf);
        if p.Some? {
          events := events + [ClientPacket(p.value)];
        }
      case PostPacket(id, buf) =>
        if id !in sessions {
          return;
        }
        writes := writes + [(id, buf)];
      case RequestDisconnect(_) =>
    }
  }

  /** One connection the listener accepts: `incoming` can yield an error,
      which `stream.unwrap()` turns into a panic, or a stream for which
      `TcpSession::new` succeeds or fails. */
  datatype Incoming = StreamError | Stream(created: bool)

  /** The number of sessions created before the first stream error. */
  function Created(incoming: seq<Incoming>): nat
  {
    if incoming == [] || incoming[0] == StreamError then 0
    else (if incoming[0].created then 1 else 0) + Created(incoming[1..])
  }

  /** The listener loop of `start_tcp`: `client_index` starts at 1 and is
      advanced (wrapping at 2^32) only after `TcpSession::new` succeeds, so
      the j-th session sent as `Connected` has id j + 1. */
  method AcceptLoop(incoming: seq<Incoming>) returns (r: Outcome<()>, sent: seq<SessionEvent>)
    ensures r.Panic? <==> StreamError in incoming
    ensures |sent| == Created(incoming)
    ensures forall j :: 0 <= j < |sent| ==> sent[j] == Connected(TcpSession((j + 1) % 0x1_0000_0000))
  {
    var clientIndex: u32 := 1;
    sent := [];
    var i := 0;
    while i < |incoming|
      invariant 0 <= i <= |incoming|
      invariant StreamError !in incoming[..i]
      invariant |sent| + Created(incoming[i..]) == Created(incoming)
      invariant clientIndex == (|sent| + 1) % 0x1_0000_0000
      invariant forall j :: 0 <= j < |sent| ==> sent[j] == Connected(TcpSession((j + 1) % 0x1_0000_0000))
    {
      match incoming[i]
      case StreamError =>
        assert StreamError in incoming;
        return Panic, sent;
      case Stream(created) =>
        CreatedStep(incoming, i);
        if created {
          var session := TcpSession(clientIndex);
          IndexStep(|sent|);
          clientIndex := IncU32(clientIndex);
          sent := sent + [Connected(session)];
        }
      assert incoming[..i + 1] == incoming[..i] + [incoming[i]];
      i := i + 1;
    }
    assert incoming[..i] == incoming;
    return Ok(()), sent;
  }

  lemma CreatedStep(incoming: seq<Incoming>, i: nat)
    requires i < |incoming| && incoming[i].Stream?
    ensures Created(incoming[i..]) == (if incoming[i].created then 1 else 0) + Created(incoming[i + 1..])
  {
    assert incoming[i..][1..] == incoming[i + 1..];
  }

  /** Advancing the id of the (n+1)-th session gives the id of the next. */
  lemma IndexStep(n: nat)
    ensures IncU32((n + 1) % 0x1_0000_0000) == (n + 2) % 0x1_0000_0000
  {
    if (n + 1) % 0x1_0000_0000 == 0xFFFF_FFFF {
      assert (n + 2) % 0x1_0000_0000 == 0;
    } else {
      assert (n + 2) % 0x1_0000_0000 == (n + 1) % 0x1_0000_0000 + 1;
    }
  }

  /** A UDP client as the map stores it: its id and destination. */
  datatype UdpClient = UdpClient(id: u32, address: string, port: u16)

  /** The `udp_clients` map of `Server`. */
  class UdpClients {
    var clients: map<u32, UdpClient>

    /** Every client is stored under its own id. */
    predicate Valid()
      reads this
    {
      forall k :: k in clients ==> clients[k].id == k
    }

    constructor ()
      ensures clients == map[] && Valid()
    {
      clients := map[];
    }

    /** `add_udp_client`: insert under `client.id`, replacing any earlier
        client with that id. */
    method Add(id: u32, address: string, port: u16)
      requires Valid()
      modifies this
      ensures Valid()
      ensures clients == old(clients)[id := UdpClient(id, address, port)]
    {
      var client := UdpClient(id, address, port);
      clients := clients[client.id := client];
    }

    /** `get_udp_client`: `UdpClientNotFound` for an id not in the map,
        otherwise the client's `try_clone`, which fails with
        `UdpClientCloneFail` when the socket does not clone. */
    method Get(id: u32, cloneOk: bool) returns (r: Result<UdpClient, Error>)
      requires Valid()
      ensures id !in clients ==> r == Failure(UdpClientNotFound)
      ensures id in clients && !cloneOk ==> r == Failure(UdpClientCloneFail)
      ensures r.Success? ==> id in clients && r.value == clients[id] && r.value.id == id
      ensures id in clients && cloneOk ==> r == Success(clients[id])
    {
      if id !in clients {
        return Failure(UdpClientNotFound);
      }
      var client := clients[id];
      if !cloneOk {
        return Failure(UdpClientCloneFail);
      }
      return Success(UdpClient(client.id, client.address, client.port));
    }
  }
}
