/** The Connect Server handler of bin/cs/src/logic.rs: game servers are
    filed by the server code they report, clients by session id. */
module CsHandler {
  import opened Base
  import opened MuProtocol
  import opened MuPackets
  import opened CsCommon
  import opened EventStreams

  /** `GSInstance`: what the Connect Server keeps about one game server. */
  datatype GsInstance = GsInstance(svrCode: u16, ip: Ip, port: u16, perc: byte,
                                   usrCnt: u16, accCnt: u16, mxUsrCnt: u16)

  /** The server-list entry for one game server: its code and its load. */
  function Entry(gs: GsInstance): (u16, byte)
  {
    (gs.svrCode, Load(gs.usrCnt, gs.mxUsrCnt))
  }

  /** The events this handler receives from the network. */
  datatype NetworkEvent =
    | ClientConnected(session: SessionRef)
    | ClientDisconnected(id: u32)
    | ClientPacket(session: SessionRef, pkt: MuPacket)
    | OtherEvent

  /** Every game server is filed under the code it reported. */
  ghost predicate KeyedByCode(gsMap: map<u16, GsInstance>)
  {
    forall k :: k in gsMap ==> gsMap[k].svrCode == k
  }

  /** What `on_server_info` does to the map: a server not seen before is
      added with every reported field; a known one has only its `perc`,
      `usr_cnt` and `acc_cnt` refreshed, keeping its ip, port and user
      limit, and the set of servers stays the same. */
  function Upsert(gsMap: map<u16, GsInstance>, msg: ServerReport): (r: map<u16, GsInstance>)
    ensures r.Keys == gsMap.Keys + {msg.svrCode}
    ensures forall k :: k in gsMap && k != msg.svrCode ==> r[k] == gsMap[k]
    ensures msg.svrCode !in gsMap ==>
      r[msg.svrCode] == GsInstance(msg.svrCode, msg.ip, msg.port, msg.perc, msg.usrCnt, msg.accCnt, msg.mxUsrCnt)
    ensures msg.svrCode in gsMap ==>
      var old_ := gsMap[msg.svrCode];
      var new_ := r[msg.svrCode];
      && new_.perc == msg.perc && new_.usrCnt == msg.usrCnt && new_.accCnt == msg.accCnt
      && new_.svrCode == old_.svrCode && new_.ip == old_.ip && new_.port == old_.port
      && new_.mxUsrCnt == old_.mxUsrCnt
    ensures KeyedByCode(gsMap) ==> KeyedByCode(r)
  {
    var code := msg.svrCode;
    if code in gsMap then
      gsMap[code := gsMap[code].(perc := msg.perc, usrCnt := msg.usrCnt, accCnt := msg.accCnt)]
    else
      gsMap[code := GsInstance(code, msg.ip, msg.port, msg.perc, msg.usrCnt, msg.accCnt, msg.mxUsrCnt)]
  }

  /** A game server that repeats its report changes nothing the second
      time. */
  lemma UpsertIdempotent(gsMap: map<u16, GsInstance>, msg: ServerReport)
    ensures Upsert(Upsert(gsMap, msg), msg) == Upsert(gsMap, msg)
  {
    var once := Upsert(gsMap, msg);
    var twice := Upsert(once, msg);
    assert twice.Keys == once.Keys;
    forall k | k in once
      ensures twice[k] == once[k]
    {
    }
  }

  /** After two reports from the same server the map holds the second
      report's counters, but the ip, port and user limit of whichever report
      came first. */
  lemma UpsertKeepsFirstIdentity(gsMap: map<u16, GsInstance>, first: ServerReport, second: ServerReport)
    requires first.svrCode == second.svrCode && first.svrCode !in gsMap
    ensures var g := Upsert(Upsert(gsMap, first), second)[first.svrCode];
      g == GsInstance(first.svrCode, first.ip, first.port, second.perc, second.usrCnt, second.accCnt, first.mxUsrCnt)
  {
  }

  class Handler {
    var gsMap: map<u16, GsInstance>
    var clients: map<u32, SessionRef>
    const net: Sessions
    const io: EventStream<NetworkEvent>
    /** `ServerInfo::parse`, which is not part of this model. */
    const parse: seq<byte> -> Outcome<ServerReport>

    ghost predicate Valid()
      reads this
    {
      KeyedByCode(gsMap) && KeyedById(clients)
    }

    /** `Handler::new`: both maps empty. */
    constructor (net: Sessions, io: EventStream<NetworkEvent>, parse: seq<byte> -> Outcome<ServerReport>)
      ensures gsMap == map[] && clients == map[]
      ensures this.net == net && this.io == io && this.parse == parse
      ensures Valid()
    {
      gsMap := map[];
      clients := map[];
      this.net := net;
      this.io := io;
      this.parse := parse;
    }

    /** `new_server_list_pkt`: one (code, load) entry per game server, in
        the map's iteration order, counted as `u16`; `to_packet` panics when
        the list outgrows a packet. */
    method NewServerListPkt() returns (r: Outcome<MuPacket>, ghost order: seq<u16>)
      ensures IsOrdering(order, gsMap.Keys)
      ensures r == ServerListPacket(EntriesOf(gsMap, order, Entry))
      ensures r.Ok? <==> |gsMap| < 0x4000
    {
      var list;
      list, order := BuildServerList(gsMap, Entry);
      assert |gsMap| == |gsMap.Keys|;
      r := FromProtocol(ServerListMsg, List(list));
    }

    /** `send_server_list`: `Ok(delivered)` after the send, or a panic while
        building the packet. */
    method SendServerList(session: SessionRef) returns (r: Outcome<bool>, ghost order: seq<u16>)
      modifies net
      ensures IsOrdering(order, gsMap.Keys)
      ensures var l := ServerListPacket(EntriesOf(gsMap, order, Entry));
        && (r.Panic? <==> l.Panic?)
        && (l.Panic? ==> net.log == old(net.log))
        && (l.Ok? ==> net.log == old(net.log) + [Sent(session.id, l.value, r.value)])
    {
      var pkt;
      pkt, order := NewServerListPkt();
      if pkt.Panic? {
        return Panic, order;
      }
      var ok := net.Send(session, pkt.value);
      r := Ok(ok);
    }

    /** The part of `on_client_connected` after `ConnectResult` was sent:
        the server list is sent, and the client is filed when that succeeds
        and closed when it fails. */
    method AdmitClient(session: SessionRef) returns (r: Outcome<()>, ghost secondOk: bool, ghost order: seq<u16>)
      requires Valid()
      modifies this, net
      ensures Valid() && gsMap == old(gsMap)
      ensures IsOrdering(order, gsMap.Keys)
      ensures var l := ServerListPacket(EntriesOf(gsMap, order, Entry));
        && r == (if l.Panic? then Panic else Ok(()))
        && net.log == old(net.log) + AdmitOps(session.id, l, secondOk)
      ensures r.Ok? ==> clients == if secondOk then old(clients)[session.id := session] else old(clients)
    {
      secondOk := false;
      var sent;
      sent, order := SendServerList(session);
      if sent.Panic? {
        return Panic, secondOk, order;
      }
      secondOk := sent.value;
      if !sent.value {
        net.Close(session);
        return Ok(()), secondOk, order;
      }
      clients := clients[session.id := session];
      r := Ok(());
    }

    /** `on_client_connected`: the client is sent `ConnectResult { res: 1 }`
        and then the server list; it is filed in `clients` exactly when both
        sends succeed, and closed as soon as one fails. */
    method OnClientConnected(session: SessionRef)
      returns (r: Outcome<()>, ghost firstOk: bool, ghost secondOk: bool, ghost order: seq<u16>)
      requires Valid()
      modifies this, net
      ensures Valid() && gsMap == old(gsMap)
      ensures if firstOk then IsOrdering(order, gsMap.Keys) else order == []
      ensures var l := ServerListPacket(EntriesOf(gsMap, order, Entry));
        && r == (if firstOk && l.Panic? then Panic else Ok(()))
        && net.log == old(net.log) + [Sent(session.id, ConnectResultPacket(), firstOk)]
                      + (if firstOk then AdmitOps(session.id, l, secondOk) else [Closed(session.id)])
      ensures r.Ok? ==> clients == if firstOk && secondOk then old(clients)[session.id := session] else old(clients)
    {
      order := [];
      secondOk := false;
      var sentResult := net.Send(session, ConnectResultPacket());
      firstOk := sentResult;
      if !sentResult {
        net.Close(session);
        return Ok(()), firstOk, secondOk, order;
      }
      r, secondOk, order := AdmitClient(session);
    }

    /** `on_client_disconnected`: exactly that id leaves `clients`. */
    method OnClientDisconnected(id: u32)
      requires Valid()
      modifies this
      ensures Valid()
      ensures clients == old(clients) - {id} && gsMap == old(gsMap)
    {
      clients := clients - {id};
    }

    /** The tail of `on_server_info`: the current server list goes to every
        client. */
    method BroadcastServerList()
      returns (r: Outcome<()>, ghost order: seq<u16>, ghost clientOrder: seq<u32>, ghost delivered: seq<bool>)
      modifies net
      ensures IsOrdering(order, gsMap.Keys)
      ensures r.Ok? <==> |gsMap| < 0x4000
      ensures r.Panic? ==> net.log == old(net.log)
      ensures r.Ok? ==> ListBroadcast(old(net.log), net.log, gsMap, order, Entry, clients, clientOrder, delivered)
    {
      clientOrder, delivered := [], [];
      var pkt;
      pkt, order := NewServerListPkt();
      if pkt.Panic? {
        return Panic, order, clientOrder, delivered;
      }
      clientOrder, delivered := Broadcast(net, clients, pkt.value);
      r := Ok(());
    }

    /** `on_server_info`: the report is filed by server code and the new
        server list is broadcast to every client. */
    method OnServerInfo(msg: ServerReport)
      returns (r: Outcome<()>, ghost order: seq<u16>, ghost clientOrder: seq<u32>, ghost delivered: seq<bool>)
      requires Valid()
      modifies this, net
      ensures Valid()
      ensures gsMap == Upsert(old(gsMap), msg) && clients == old(clients)
      ensures IsOrdering(order, gsMap.Keys)
      ensures r.Ok? <==> |gsMap| < 0x4000
      ensures r.Panic? ==> net.log == old(net.log)
      ensures r.Ok? ==> ListBroadcast(old(net.log), net.log, gsMap, order, Entry, clients, clientOrder, delivered)
    {
      gsMap := Upsert(gsMap, msg);
      r, order, clientOrder, delivered := BroadcastServerList();
    }

    /** `on_packet_received`: only a `ServerInfo` (code 0x01) changes
        anything; a `JoinServerStat` (0x02) and every other code are
        ignored. */
    method OnPacketReceived(session: SessionRef, pkt: MuPacket)
      returns (r: Outcome<()>, ghost order: seq<u16>, ghost clientOrder: seq<u32>, ghost delivered: seq<bool>)
      requires Valid()
      modifies this, net
      ensures Valid() && clients == old(clients)
      ensures pkt.code != 0x01 || parse(pkt.data).Panic? ==>
        gsMap == old(gsMap) && net.log == old(net.log) && (r.Panic? <==> pkt.code == 0x01)
      ensures pkt.code == 0x01 && parse(pkt.data).Ok? ==>
        && gsMap == Upsert(old(gsMap), parse(pkt.data).value)
        && IsOrdering(order, gsMap.Keys)
        && (r.Ok? <==> |gsMap| < 0x4000)
        && (r.Panic? ==> net.log == old(net.log))
        && (r.Ok? ==> ListBroadcast(old(net.log), net.log, gsMap, order, Entry, clients, clientOrder, delivered))
    {
      order, clientOrder, delivered := [], [], [];
      if pkt.code == 0x01 {
        var msg := parse(pkt.data);
        if msg.Panic? {
          return Panic, order, clientOrder, delivered;
        }
        r, order, clientOrder, delivered := OnServerInfo(msg.value);
      } else {
        r := Ok(());
      }
    }

    /** `handle_net_event`: each event goes to its handler; any other event
        is only reported. */
    method HandleNetEvent(evt: NetworkEvent)
      returns (r: Outcome<()>, ghost firstOk: bool, ghost secondOk: bool, ghost order: seq<u16>,
               ghost clientOrder: seq<u32>, ghost delivered: seq<bool>)
      requires Valid()
      modifies this, net
      ensures Valid()
      ensures evt.OtherEvent? ==> r == Ok(()) && gsMap == old(gsMap) && clients == old(clients) && net.log == old(net.log)
      ensures evt.ClientDisconnected? ==>
        r == Ok(()) && gsMap == old(gsMap) && clients == old(clients) - {evt.id} && net.log == old(net.log)
      ensures evt.ClientConnected? ==>
        && gsMap == old(gsMap)
        && (if firstOk then IsOrdering(order, gsMap.Keys) else order == [])
        && (var l := ServerListPacket(EntriesOf(gsMap, order, Entry));
            && r == (if firstOk && l.Panic? then Panic else Ok(()))
            && net.log == old(net.log) + [Sent(evt.session.id, ConnectResultPacket(), firstOk)]
                          + (if firstOk then AdmitOps(evt.session.id, l, secondOk) else [Closed(evt.session.id)]))
        && (r.Ok? ==> clients == if firstOk && secondOk then old(clients)[evt.session.id := evt.session] else old(clients))
      ensures evt.ClientPacket? ==> clients == old(clients)
      ensures evt.ClientPacket? && (evt.pkt.code != 0x01 || parse(evt.pkt.data).Panic?) ==>
        gsMap == old(gsMap) && net.log == old(net.log) && (r.Panic? <==> evt.pkt.code == 0x01)
      ensures evt.ClientPacket? && evt.pkt.code == 0x01 && parse(evt.pkt.data).Ok? ==>
        && gsMap == Upsert(old(gsMap), parse(evt.pkt.data).value)
        && IsOrdering(order, gsMap.Keys)
        && (r.Ok? <==> |gsMap| < 0x4000)
        && (r.Panic? ==> net.log == old(net.log))
        && (r.Ok? ==> ListBroadcast(old(net.log), net.log, gsMap, order, Entry, clients, clientOrder, delivered))
    {
      firstOk, secondOk, order, clientOrder, delivered := false, false, [], [], [];
      match evt
      case ClientConnected(session) =>
        r, firstOk, secondOk, order := OnClientConnected(session);
      case ClientDisconnected(id) =>
        OnClientDisconnected(id);
        r := Ok(());
      case ClientPacket(session, pkt) =>
        r, order, clientOrder, delivered := OnPacketReceived(session, pkt);
      case OtherEvent =>
        r := Ok(());
    }

    /** `poll`: events are drained from the stream until it finishes, is
        not ready or fails. `process` answers every event with `Ready`
        without looking at it, so polling changes nothing but the stream. */
    method Poll() returns (r: Result<Async, PollError>)
      requires io.Valid()
      modifies io
      ensures io.Valid()
      ensures io.pos == PollEnd(io.items, old(io.pos))
      ensures r == PollResult(io.items, old(io.pos))
    {
      ghost var from := io.pos;
      r := Success(Ready);
      var done := false;
      while !done
        invariant io.Valid() && from <= io.pos
        invariant !done ==> StopAt(io.items, from) == StopAt(io.items, io.pos)
        invariant done ==> io.pos == PollEnd(io.items, from) && r == PollResult(io.items, from)
        decreases |io.items| - io.pos, if done then 0 else 1
      {
        var a := io.Next();
        match a
        case Item(_) =>
        case Finished =>
          r, done := Success(Ready), true;
        case Pending =>
          r, done := Success(NotReady), true;
        case Failed =>
          r, done := Failure(StreamFailed), true;
      }
    }
  }
}
