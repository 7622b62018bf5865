/** The Connect Server handler of bin/cs/src/logic/: game servers and clients
    are both filed by session id, and every event is routed by the session's
    connection kind. mod.rs routes, gs.rs handles game servers and client.rs
    handles clients. */
module CsSessionHandler {
  import opened Base
  import opened MuProtocol
  import opened MuPackets
  import opened CsCommon
  import opened EventStreams

  /** `GSInstance` of gs.rs: a game server together with its session. */
  datatype GsInstance = GsInstance(sRef: SessionRef, svrCode: u16, ip: Ip, port: u16, perc: byte,
                                   usrCnt: u16, accCnt: u16, mxUsrCnt: u16)

  /** The server-list entry for one game server: its code and its load. */
  function Entry(gs: GsInstance): (u16, byte)
  {
    (gs.svrCode, Load(gs.usrCnt, gs.mxUsrCnt))
  }

  /** The events this handler receives; a disconnect carries the session's
      id and kind. */
  datatype NetworkEvent =
    | ClientConnected(session: SessionRef)
    | ClientDisconnected(id: u32, kind: byte)
    | ClientPacket(session: SessionRef, pkt: MuPacket)

  /** The session operations `seg` of onboarding client `id`:
      `ConnectResult{1}`, then the server list if that was delivered, with a
      close as soon as one send fails; `admitted` exactly when both sends
      were delivered. */
  ghost predicate Onboarded(id: u32, seg: seq<SessionOp>, admitted: bool)
  {
    && |seg| >= 2
    && seg[0].Sent? && seg[0].to == id && seg[0].pkt == ConnectResultPacket()
    && if !seg[0].delivered then seg == [seg[0], Closed(id)] && !admitted
       else
         && seg[1].Sent? && seg[1].to == id
         && (admitted <==> seg[1].delivered)
         && seg == [seg[0], seg[1]] + (if seg[1].delivered then [] else [Closed(id)])
  }

  /** The session operations `on_client_connected` performs for client `id`
      when the first send is delivered exactly when `firstOk`, the server
      list built is `l` and its send is delivered exactly when `secondOk`. */
  function OnboardingOps(id: u32, firstOk: bool, secondOk: bool, l: Outcome<MuPacket>): seq<SessionOp>
  {
    [Sent(id, ConnectResultPacket(), firstOk)] + (if firstOk then AdmitOps(id, l, secondOk) else [Closed(id)])
  }

  /** `on_client_connected`'s log, grouped as one segment. */
  lemma OnboardingAppended(log0: seq<SessionOp>, id: u32, firstOk: bool, secondOk: bool, l: Outcome<MuPacket>)
    ensures log0 + [Sent(id, ConnectResultPacket(), firstOk)] + (if firstOk then AdmitOps(id, l, secondOk) else [Closed(id)])
            == log0 + OnboardingOps(id, firstOk, secondOk, l)
  {
  }

  /** `on_client_connected`'s log is an onboarding. */
  lemma OnboardingLogged(id: u32, firstOk: bool, secondOk: bool, l: Outcome<MuPacket>)
    requires firstOk ==> l.Ok?
    ensures Onboarded(id, OnboardingOps(id, firstOk, secondOk, l), firstOk && secondOk)
  {
  }

  /** Every game server is filed under the id of the session it reported
      on. */
  ghost predicate KeyedBySession(gsMap: map<u32, GsInstance>)
  {
    forall k :: k in gsMap ==> gsMap[k].sRef.id == k
  }

  /** What gs.rs's `on_server_info` does to the map: the report is filed
      under the session's id. A session not seen before gets a new entry
      holding the session and every reported field; a known one has only
      `perc`, `usr_cnt` and `acc_cnt` refreshed, keeping its session, code,
      ip, port and user limit. */
  function Upsert(gsMap: map<u32, GsInstance>, session: SessionRef, msg: ServerReport): (r: map<u32, GsInstance>)
    ensures r.Keys == gsMap.Keys + {session.id}
    ensures forall k :: k in gsMap && k != session.id ==> r[k] == gsMap[k]
    ensures session.id !in gsMap ==>
      r[session.id] == GsInstance(session, msg.svrCode, msg.ip, msg.port, msg.perc, msg.usrCnt, msg.accCnt, msg.mxUsrCnt)
    ensures session.id in gsMap ==>
      var old_ := gsMap[session.id];
      var new_ := r[session.id];
      && new_.perc == msg.perc && new_.usrCnt == msg.usrCnt && new_.accCnt == msg.accCnt
      && new_.sRef == old_.sRef && new_.svrCode == old_.svrCode && new_.ip == old_.ip
      && new_.port == old_.port && new_.mxUsrCnt == old_.mxUsrCnt
    ensures KeyedBySession(gsMap) ==> KeyedBySession(r)
  {
    var id := session.id;
    if id in gsMap then
      gsMap[id := gsMap[id].(perc := msg.perc, usrCnt := msg.usrCnt, accCnt := msg.accCnt)]
    else
      gsMap[id := GsInstance(session, msg.svrCode, msg.ip, msg.port, msg.perc, msg.usrCnt, msg.accCnt, msg.mxUsrCnt)]
  }

  /** Filing by session id means two sessions reporting the same server code
      are two entries, so the server list then names that code twice. */
  lemma {:induction false} SameCodeTwoEntries(a: SessionRef, b: SessionRef, msg: ServerReport)
    requires a.id != b.id
    ensures var m := Upsert(Upsert(map[], a, msg), b, msg);
      && m.Keys == {a.id, b.id}
      && m[a.id].svrCode == msg.svrCode && m[b.id].svrCode == msg.svrCode
      && m[a.id] != m[b.id]
  {
    var m1 := Upsert(map[], a, msg);
    assert m1[a.id].sRef == a;
    var m := Upsert(m1, b, msg);
    assert m[a.id] == m1[a.id];
    assert m[b.id].sRef == b;
  }

  class Handler {
    var gsMap: map<u32, GsInstance>
    var clients: map<u32, SessionRef>
    const net: Sessions
    const io: EventStream<NetworkEvent>
    /** `consts::GS_CONN`, the connection kind of a game server's session;
        its value is not part of this model. */
    const gsConn: byte
    /** `ServerInfo::parse`, which is not part of this model. */
    const parse: seq<byte> -> Outcome<ServerReport>

    ghost predicate Valid()
      reads this
    {
      KeyedBySession(gsMap) && KeyedById(clients)
    }

    /** `Handler::new`: both maps empty. */
    constructor (net: Sessions, io: EventStream<NetworkEvent>, gsConn: byte,
                 parse: seq<byte> -> Outcome<ServerReport>)
      ensures gsMap == map[] && clients == map[]
      ensures this.net == net && this.io == io && this.gsConn == gsConn && this.parse == parse
      ensures Valid()
    {
      gsMap := map[];
      clients := map[];
      this.net := net;
      this.io := io;
      this.gsConn := gsConn;
      this.parse := parse;
    }

    /** `new_server_list_pkt`: one (code, load) entry per game server, in
        the map's iteration order, counted as `u16`; `to_packet` panics when
        the list outgrows a packet. */
    method NewServerListPkt() returns (r: Outcome<MuPacket>, ghost order: seq<u32>)
      ensures IsOrdering(order, gsMap.Keys)
      ensures r == ServerListPacket(EntriesOf(gsMap, order, Entry))
      ensures r.Ok? <==> |gsMap| < 0x4000
    {
      var list;
      list, order := BuildServerList(gsMap, Entry);
      assert |gsMap| == |gsMap.Keys|;
      r := FromProtocol(ServerListMsg, List(list));
    }

    /** `send_server_list`: `Ok(delivered)` after the send, or a panic while
        building the packet. */
    method SendServerList(session: SessionRef) returns (r: Outcome<bool>, ghost order: seq<u32>)
      modifies net
      ensures IsOrdering(order, gsMap.Keys)
      ensures var l := ServerListPacket(EntriesOf(gsMap, order, Entry));
        && (r.Panic? <==> l.Panic?)
        && (l.Panic? ==> net.log == old(net.log))
        && (l.Ok? ==> net.log == old(net.log) + [Sent(session.id, l.value, r.value)])
    {
      var pkt;
      pkt, order := NewServerListPkt();
      if pkt.Panic? {
        return Panic, order;
      }
      var ok := net.Send(session, pkt.value);
      r := Ok(ok);
    }

    /** `broadcast_server_list_upd`: the current server list goes to every
        client. */
    method BroadcastServerListUpd()
      returns (r: Outcome<()>, ghost order: seq<u32>, ghost clientOrder: seq<u32>, ghost delivered: seq<bool>)
      modifies net
      ensures IsOrdering(order, gsMap.Keys)
      ensures r.Ok? <==> |gsMap| < 0x4000
      ensures r.Panic? ==> net.log == old(net.log)
      ensures r.Ok? ==> ListBroadcast(old(net.log), net.log, gsMap, order, Entry, clients, clientOrder, delivered)
    {
      clientOrder, delivered := [], [];
      var pkt;
      pkt, order := NewServerListPkt();
      if pkt.Panic? {
        return Panic, order, clientOrder, delivered;
      }
      clientOrder, delivered := Broadcast(net, clients, pkt.value);
      r := Ok(());
    }

    /** gs.rs's `on_server_info`: the report is filed under the session's id
        and the new list is broadcast. */
    method OnServerInfo(msg: ServerReport, session: SessionRef)
      returns (r: Outcome<()>, ghost order: seq<u32>, ghost clientOrder: seq<u32>, ghost delivered: seq<bool>)
      requires Valid()
      modifies this, net
      ensures Valid()
      ensures gsMap == Upsert(old(gsMap), session, msg) && clients == old(clients)
      ensures IsOrdering(order, gsMap.Keys)
      ensures r.Ok? <==> |gsMap| < 0x4000
      ensures r.Panic? ==> net.log == old(net.log)
      ensures r.Ok? ==> ListBroadcast(old(net.log), net.log, gsMap, order, Entry, clients, clientOrder, delivered)
    {
      gsMap := Upsert(gsMap, session, msg);
      r, order, clientOrder, delivered := BroadcastServerListUpd();
    }

    /** `on_server_disconnected`: that game server leaves the map and the
        new list is broadcast. */
    method OnServerDisconnected(id: u32)
      returns (r: Outcome<()>, ghost order: seq<u32>, ghost clientOrder: seq<u32>, ghost delivered: seq<bool>)
      requires Valid()
      modifies this, net
      ensures Valid()
      ensures gsMap == old(gsMap) - {id} && clients == old(clients)
      ensures IsOrdering(order, gsMap.Keys)
      ensures r.Ok? <==> |gsMap| < 0x4000
      ensures r.Panic? ==> net.log == old(net.log)
      ensures r.Ok? ==> ListBroadcast(old(net.log), net.log, gsMap, order, Entry, clients, clientOrder, delivered)
    {
      gsMap := gsMap - {id};
      r, order, clientOrder, delivered := BroadcastServerListUpd();
    }

    /** `on_server_connected` does nothing. */
    method OnServerConnected(session: SessionRef)
      ensures gsMap == old(gsMap) && clients == old(clients) && net.log == old(net.log)
    {
    }

    /** `on_server_received` and `on_client_received`, which are the same:
        only a `ServerInfo` (code 0x01) changes anything, and it is filed
        under the id of the session it came on, a client's included; a
        `JoinServerStat` (0x02) and every other code are ignored. */
    method OnReceived(session: SessionRef, pkt: MuPacket)
      returns (r: Outcome<()>, ghost order: seq<u32>, ghost clientOrder: seq<u32>, ghost delivered: seq<bool>)
      requires Valid()
      modifies this, net
      ensures Valid() && clients == old(clients)
      ensures pkt.code != 0x01 || parse(pkt.data).Panic? ==>
        gsMap == old(gsMap) && net.log == old(net.log) && (r.Panic? <==> pkt.code == 0x01)
      ensures pkt.code == 0x01 && parse(pkt.data).Ok? ==>
        && gsMap == Upsert(old(gsMap), session, parse(pkt.data).value)
        && IsOrdering(order, gsMap.Keys)
        && (r.Ok? <==> |gsMap| < 0x4000)
        && (r.Panic? ==> net.log == old(net.log))
        && (r.Ok? ==> ListBroadcast(old(net.log), net.log, gsMap, order, Entry, clients, clientOrder, delivered))
    {
      order, clientOrder, delivered := [], [], [];
      if pkt.code == 0x01 {
        var msg := parse(pkt.data);
        if msg.Panic? {
          return Panic, order, clientOrder, delivered;
        }
        r, order, clientOrder, delivered := OnServerInfo(msg.value, session);
      } else {
        r := Ok(());
      }
    }

    /** The part of client.rs's `on_client_connected` after `ConnectResult`
        was sent: the server list is sent, and the client is filed when that
        succeeds and closed when it fails. */
    method AdmitClient(session: SessionRef) returns (r: Outcome<()>, ghost secondOk: bool, ghost order: seq<u32>)
      requires Valid()
      modifies this, net
      ensures Valid() && gsMap == old(gsMap)
      ensures IsOrdering(order, gsMap.Keys)
      ensures var l := ServerListPacket(EntriesOf(gsMap, order, Entry));
        && r == (if l.Panic? then Panic else Ok(()))
        && net.log == old(net.log) + AdmitOps(session.id, l, secondOk)
      ensures r.Ok? ==> clients == if secondOk then old(clients)[session.id := session] else old(clients)
    {
      secondOk := false;
      var sent;
      sent, order := SendServerList(session);
      if sent.Panic? {
        return Panic, secondOk, order;
      }
      secondOk := sent.value;
      if !sent.value {
        net.Close(session);
        return Ok(()), secondOk, order;
      }
      clients := clients[session.id := session];
      r := Ok(());
    }

    /** client.rs's `on_client_connected`: the client is sent
        `ConnectResult { res: 1 }` and then the server list; it is filed in
        `clients` exactly when both sends succeed, and closed as soon as one
        fails. */
    method OnClientConnected(session: SessionRef)
      returns (r: Outcome<()>, ghost firstOk: bool, ghost secondOk: bool, ghost order: seq<u32>)
      requires Valid()
      modifies this, net
      ensures Valid() && gsMap == old(gsMap)
      ensures if firstOk then IsOrdering(order, gsMap.Keys) else order == []
      ensures var l := ServerListPacket(EntriesOf(gsMap, order, Entry));
        && r == (if firstOk && l.Panic? then Panic else Ok(()))
        && net.log == old(net.log) + [Sent(session.id, ConnectResultPacket(), firstOk)]
                      + (if firstOk then AdmitOps(session.id, l, secondOk) else [Closed(session.id)])
      ensures r.Ok? ==> clients == if firstOk && secondOk then old(clients)[session.id := session] else old(clients)
    {
      order := [];
      secondOk := false;
      var sentResult := net.Send(session, ConnectResultPacket());
      firstOk := sentResult;
      if !sentResult {
        net.Close(session);
        return Ok(()), firstOk, secondOk, order;
      }
      r, secondOk, order := AdmitClient(session);
    }

    /** client.rs's `on_client_disconnected`: exactly that id leaves
        `clients`. */
    method OnClientDisconnected(id: u32)
      requires Valid()
      modifies this
      ensures Valid()
      ensures clients == old(clients) - {id} && gsMap == old(gsMap)
    {
      clients := clients - {id};
    }

    /** `on_connected`: a game server's session is handed to
        `on_server_connected`, which ignores it; any other to
        `on_client_connected`. */
    method OnConnected(session: SessionRef)
      returns (r: Outcome<()>, ghost firstOk: bool, ghost secondOk: bool, ghost order: seq<u32>, ghost seg: seq<SessionOp>)
      requires Valid()
      modifies this, net
      ensures Valid() && gsMap == old(gsMap)
      ensures net.log == old(net.log) + seg
      ensures session.kind != gsConn && r.Ok? ==> Onboarded(session.id, seg, firstOk && secondOk)
      ensures session.kind == gsConn ==> r == Ok(()) && clients == old(clients) && seg == []
      ensures session.kind != gsConn ==>
        && (if firstOk then IsOrdering(order, gsMap.Keys) else order == [])
        && (var l := ServerListPacket(EntriesOf(gsMap, order, Entry));
            && r == (if firstOk && l.Panic? then Panic else Ok(()))
            && seg == OnboardingOps(session.id, firstOk, secondOk, l))
        && (r.Ok? ==> clients == if firstOk && secondOk then old(clients)[session.id := session] else old(clients))
    {
      firstOk, secondOk, order, seg := false, false, [], [];
      if session.kind == gsConn {
        OnServerConnected(session);
        r := Ok(());
      } else {
        r, firstOk, secondOk, order := OnClientConnected(session);
        ghost var l := ServerListPacket(EntriesOf(gsMap, order, Entry));
        seg := OnboardingOps(session.id, firstOk, secondOk, l);
        OnboardingAppended(old(net.log), session.id, firstOk, secondOk, l);
        if r.Ok? {
          OnboardingLogged(session.id, firstOk, secondOk, l);
        }
      }
    }

    /** `on_disconnected`: routed by the kind the event carries. */
    method OnDisconnected(id: u32, kind: byte)
      returns (r: Outcome<()>, ghost order: seq<u32>, ghost clientOrder: seq<u32>, ghost delivered: seq<bool>,
               ghost seg: seq<SessionOp>)
      requires Valid()
      modifies this, net
      ensures Valid() && net.log == old(net.log) + seg
      ensures kind == gsConn ==>
        && gsMap == old(gsMap) - {id} && clients == old(clients)
        && IsOrdering(order, gsMap.Keys)
        && (r.Ok? <==> |gsMap| < 0x4000)
        && (r.Panic? ==> net.log == old(net.log))
        && (r.Ok? ==> ListBroadcast(old(net.log), net.log, gsMap, order, Entry, clients, clientOrder, delivered))
      ensures kind != gsConn ==>
        r == Ok(()) && clients == old(clients) - {id} && gsMap == old(gsMap) && seg == []
    {
      order, clientOrder, delivered, seg := [], [], [], [];
      if kind == gsConn {
        r, order, clientOrder, delivered := OnServerDisconnected(id);
        if r.Ok? {
          seg := BroadcastOps(SessionsOf(clients, clientOrder), ServerListPacket(EntriesOf(gsMap, order, Entry)).value, delivered);
        }
      } else {
        OnClientDisconnected(id);
        r := Ok(());
      }
    }

    /** `on_packet_received`: routed by the session's kind, to
        `on_server_received` or `on_client_received`, which behave alike. */
    method OnPacketReceived(session: SessionRef, pkt: MuPacket)
      returns (r: Outcome<()>, ghost order: seq<u32>, ghost clientOrder: seq<u32>, ghost delivered: seq<bool>,
               ghost seg: seq<SessionOp>)
      requires Valid()
      modifies this, net
      ensures Valid() && clients == old(clients) && net.log == old(net.log) + seg
      ensures pkt.code != 0x01 || parse(pkt.data).Panic? ==>
        gsMap == old(gsMap) && seg == [] && (r.Panic? <==> pkt.code == 0x01)
      ensures pkt.code == 0x01 && parse(pkt.data).Ok? ==>
        && gsMap == Upsert(old(gsMap), session, parse(pkt.data).value)
        && IsOrdering(order, gsMap.Keys)
        && (r.Ok? <==> |gsMap| < 0x4000)
        && (r.Panic? ==> net.log == old(net.log))
        && (r.Ok? ==> ListBroadcast(old(net.log), net.log, gsMap, order, Entry, clients, clientOrder, delivered))
    {
      if session.kind == gsConn {
        r, order, clientOrder, delivered := OnReceived(session, pkt);
      } else {
        r, order, clientOrder, delivered := OnReceived(session, pkt);
      }
      seg := [];
      if pkt.code == 0x01 && parse(pkt.data).Ok? && r.Ok? {
        seg := BroadcastOps(SessionsOf(clients, clientOrder), ServerListPacket(EntriesOf(gsMap, order, Entry)).value, delivered);
      }
    }

    /** The session operations `seg` that handling `evt` logs: a connecting
        client's onboarding, and nothing for a game server's connect, a
        client's disconnect or a packet of another code than 0x01. */
    ghost predicate EventLogged(evt: NetworkEvent, seg: seq<SessionOp>, admitted: bool)
    {
      match evt
      case ClientConnected(s) => if s.kind == gsConn then seg == [] else Onboarded(s.id, seg, admitted)
      case ClientDisconnected(_, kind) => kind != gsConn ==> seg == []
      case ClientPacket(_, pkt) => pkt.code != 0x01 ==> seg == []
    }

    /** For each event of a run, `segs` holds the session operations its
        handling logged and `admitted` whether a connecting client was filed. */
    ghost predicate RunLogged(evts: seq<NetworkEvent>, segs: seq<seq<SessionOp>>, admitted: seq<bool>)
    {
      && |segs| == |evts| && |admitted| == |evts|
      && forall i :: 0 <= i < |evts| ==> EventLogged(evts[i], segs[i], admitted[i])
    }

    lemma RunLoggedStep(evts: seq<NetworkEvent>, segs: seq<seq<SessionOp>>, admitted: seq<bool>,
                        evt: NetworkEvent, seg: seq<SessionOp>, adm: bool)
      requires RunLogged(evts, segs, admitted) && EventLogged(evt, seg, adm)
      ensures RunLogged(evts + [evt], segs + [seg], admitted + [adm])
    {
    }

    /** What one handled event does to `gs_map`, whatever the sends do. */
    function GsStep(gs: map<u32, GsInstance>, evt: NetworkEvent): map<u32, GsInstance>
    {
      match evt
      case ClientConnected(_) => gs
      case ClientDisconnected(id, kind) => if kind == gsConn then gs - {id} else gs
      case ClientPacket(session, pkt) =>
        if pkt.code == 0x01 && parse(pkt.data).Ok? then Upsert(gs, session, parse(pkt.data).value) else gs
    }

    /** What one handled event does to `clients`; `admitted` says whether a
        connecting client's two sends both succeeded. */
    function ClientsStep(cl: map<u32, SessionRef>, evt: NetworkEvent, admitted: bool): map<u32, SessionRef>
    {
      match evt
      case ClientConnected(s) => if s.kind != gsConn && admitted then cl[s.id := s] else cl
      case ClientDisconnected(id, kind) => if kind == gsConn then cl else cl - {id}
      case ClientPacket(_, _) => cl
    }

    /** `gs_map` after a run of handled events. */
    function GsRun(gs: map<u32, GsInstance>, evts: seq<NetworkEvent>): map<u32, GsInstance>
      decreases |evts|
    {
      if evts == [] then gs else GsStep(GsRun(gs, evts[..|evts| - 1]), evts[|evts| - 1])
    }

    /** `clients` after a run of handled events. */
    function ClientsRun(cl: map<u32, SessionRef>, evts: seq<NetworkEvent>, admitted: seq<bool>): map<u32, SessionRef>
      requires |admitted| == |evts|
      decreases |evts|
    {
      if evts == [] then cl
      else ClientsStep(ClientsRun(cl, evts[..|evts| - 1], admitted[..|evts| - 1]), evts[|evts| - 1], admitted[|evts| - 1])
    }

    /** However a run of events goes, both maps stay filed by session id. */
    lemma {:induction false} RunKeepsKeyed(gs: map<u32, GsInstance>, cl: map<u32, SessionRef>,
                                           evts: seq<NetworkEvent>, admitted: seq<bool>)
      requires |admitted| == |evts| && KeyedBySession(gs) && KeyedById(cl)
      ensures KeyedBySession(GsRun(gs, evts)) && KeyedById(ClientsRun(cl, evts, admitted))
      decreases |evts|
    {
      if evts != [] {
        var n := |evts| - 1;
        RunKeepsKeyed(gs, cl, evts[..n], admitted[..n]);
      }
    }

    /** The maps and the log after the run `evts`, started from `gs0`, `cl0`
        and `log0`, with `admitted` and `segs` recorded for its events. */
    ghost predicate RunState(gs: map<u32, GsInstance>, cl: map<u32, SessionRef>, log: seq<SessionOp>,
                             gs0: map<u32, GsInstance>, cl0: map<u32, SessionRef>, log0: seq<SessionOp>,
                             evts: seq<NetworkEvent>, admitted: seq<bool>, segs: seq<seq<SessionOp>>)
    {
      && RunLogged(evts, segs, admitted)
      && gs == GsRun(gs0, evts)
      && cl == ClientsRun(cl0, evts, admitted)
      && log == log0 + Concat(segs)
    }

    /** One more handled event extends the run by its step and the log by
        its segment. */
    lemma RunStateStep(gs: map<u32, GsInstance>, cl: map<u32, SessionRef>, log: seq<SessionOp>,
                       gs0: map<u32, GsInstance>, cl0: map<u32, SessionRef>, log0: seq<SessionOp>,
                       evts: seq<NetworkEvent>, admitted: seq<bool>, segs: seq<seq<SessionOp>>,
                       evt: NetworkEvent, seg: seq<SessionOp>, adm: bool)
      requires RunState(gs, cl, log, gs0, cl0, log0, evts, admitted, segs)
      requires EventLogged(evt, seg, adm)
      ensures RunState(GsStep(gs, evt), ClientsStep(cl, evt, adm), log + seg,
                       gs0, cl0, log0, evts + [evt], admitted + [adm], segs + [seg])
    {
      var e1 := evts + [evt];
      assert e1[..|e1| - 1] == evts;
      assert (admitted + [adm])[..|e1| - 1] == admitted;
      RunLoggedStep(evts, segs, admitted, evt, seg, adm);
      ConcatSnoc(log0, segs, seg);
    }

    /** A poll that has handled the events `from` up to `handled` and now
        handles the event at `handled` has run one event further, and has
        not yet reached the answer that ends it. The premises are compared
        with `true` for the reason given at `Step`. */
    lemma PollStep(items: seq<StreamPoll<NetworkEvent>>, from: nat, handled: nat,
                   gs: map<u32, GsInstance>, cl: map<u32, SessionRef>, log: seq<SessionOp>,
                   gs0: map<u32, GsInstance>, cl0: map<u32, SessionRef>, log0: seq<SessionOp>,
                   admitted: seq<bool>, segs: seq<seq<SessionOp>>, seg: seq<SessionOp>, adm: bool)
      requires from <= handled < |items| && items[handled].Item?
      requires StopAt(items, from) == StopAt(items, handled)
      requires RunState(gs, cl, log, gs0, cl0, log0, EventsIn(items, from, handled), admitted, segs) == true
      requires EventLogged(items[handled].evt, seg, adm) == true
      ensures StopAt(items, from) == StopAt(items, handled + 1)
      ensures RunState(GsStep(gs, items[handled].evt), ClientsStep(cl, items[handled].evt, adm), log + seg,
                       gs0, cl0, log0, EventsIn(items, from, handled + 1), admitted + [adm], segs + [seg])
    {
      RunStateStep(gs, cl, log, gs0, cl0, log0, EventsIn(items, from, handled), admitted, segs,
                   items[handled].evt, seg, adm);
      EventsInSnoc(items, from, handled);
      StopAtItem(items, handled);
    }

    /** `handle_net_event`: every event is routed and answered with
        `Ready`, unless its handling panics. */
    method HandleNetEvent(evt: NetworkEvent)
      returns (r: Outcome<Result<Async, PollError>>, ghost firstOk: bool, ghost secondOk: bool, ghost order: seq<u32>,
               ghost clientOrder: seq<u32>, ghost delivered: seq<bool>, ghost seg: seq<SessionOp>)
      requires Valid()
      modifies this, net
      ensures Valid()
      ensures r.Ok? ==> r.value == Success(Ready)
      ensures r.Ok? ==> gsMap == GsStep(old(gsMap), evt) && clients == ClientsStep(old(clients), evt, firstOk && secondOk)
      ensures net.log == old(net.log) + seg
      ensures r.Ok? ==> EventLogged(evt, seg, firstOk && secondOk)
      ensures evt.ClientConnected? ==> gsMap == old(gsMap)
      ensures evt.ClientConnected? && evt.session.kind == gsConn ==>
        r.Ok? && clients == old(clients) && seg == []
      ensures evt.ClientConnected? && evt.session.kind != gsConn ==>
        && (if firstOk then IsOrdering(order, gsMap.Keys) else order == [])
        && (var l := ServerListPacket(EntriesOf(gsMap, order, Entry));
            && (r.Panic? <==> firstOk && l.Panic?)
            && seg == OnboardingOps(evt.session.id, firstOk, secondOk, l))
        && (r.Ok? ==> clients == if firstOk && secondOk then old(clients)[evt.session.id := evt.session] else old(clients))
      ensures evt.ClientDisconnected? && evt.kind == gsConn ==>
        && gsMap == old(gsMap) - {evt.id} && clients == old(clients)
        && IsOrdering(order, gsMap.Keys)
        && (r.Ok? <==> |gsMap| < 0x4000)
        && (r.Panic? ==> net.log == old(net.log))
        && (r.Ok? ==> ListBroadcast(old(net.log), net.log, gsMap, order, Entry, clients, clientOrder, delivered))
      ensures evt.ClientDisconnected? && evt.kind != gsConn ==>
        r.Ok? && clients == old(clients) - {evt.id} && gsMap == old(gsMap) && net.log == old(net.log)
      ensures evt.ClientPacket? ==> clients == old(clients)
      ensures evt.ClientPacket? && (evt.pkt.code != 0x01 || parse(evt.pkt.data).Panic?) ==>
        gsMap == old(gsMap) && net.log == old(net.log) && (r.Panic? <==> evt.pkt.code == 0x01)
      ensures evt.ClientPacket? && evt.pkt.code == 0x01 && parse(evt.pkt.data).Ok? ==>
        && gsMap == Upsert(old(gsMap), evt.session, parse(evt.pkt.data).value)
        && IsOrdering(order, gsMap.Keys)
        && (r.Ok? <==> |gsMap| < 0x4000)
        && (r.Panic? ==> net.log == old(net.log))
        && (r.Ok? ==> ListBroadcast(old(net.log), net.log, gsMap, order, Entry, clients, clientOrder, delivered))
    {
      var res;
      firstOk, secondOk, order, clientOrder, delivered, seg := false, false, [], [], [], [];
      match evt {
        case ClientConnected(session) =>
          res, firstOk, secondOk, order, seg := OnConnected(session);
        case ClientDisconnected(id, kind) =>
          res, order, clientOrder, delivered, seg := OnDisconnected(id, kind);
        case ClientPacket(session, pkt) =>
          res, order, clientOrder, delivered, seg := OnPacketReceived(session, pkt);
      }
      r := if res.Panic? then Panic else Ok(Success(Ready));
    }

    /** One turn of `poll`'s loop: the next answer of the stream, and the
        handling of the event it carries. Once the stream answers anything
        else the loop's result is `Some` of that answer's `PollResult`, and
        nothing changes. `EventLogged` is compared with `true` for the reason
        given at `Step`. */
    method Turn() returns (r: Outcome<Option<Result<Async, PollError>>>, ghost adm: bool, ghost seg: seq<SessionOp>)
      requires Valid() && io.Valid()
      modifies this, net, io
      ensures Valid() && io.Valid()
      ensures io.pos == if old(io.pos) < |io.items| then old(io.pos) + 1 else old(io.pos)
      ensures old(io.pos) < |io.items| && io.items[old(io.pos)].Item? ==>
        var evt := io.items[old(io.pos)].evt;
        r.Ok? ==>
          && r.value.None?
          && gsMap == GsStep(old(gsMap), evt) && clients == ClientsStep(old(clients), evt, adm)
          && net.log == old(net.log) + seg && (EventLogged(evt, seg, adm) == true)
      ensures !(old(io.pos) < |io.items| && io.items[old(io.pos)].Item?) ==>
        && r == Ok(Some(PollResult(io.items, old(io.pos))))
        && gsMap == old(gsMap) && clients == old(clients) && net.log == old(net.log)
    {
      adm, seg := false, [];
      var a := io.Next();
      match a
      case Item(evt) =>
        var h, firstOk, secondOk, _, _, _, s := HandleNetEvent(evt);
        adm, seg := firstOk && secondOk, s;
        r := if h.Panic? then Panic else Ok(None);
      case Finished =>
        r := Ok(Some(Success(Ready)));
      case Pending =>
        r := Ok(Some(Success(NotReady)));
      case Failed =>
        r := Ok(Some(Failure(StreamFailed)));
    }

    /** One pass of `poll`'s loop, with its bookkeeping: a poll started at
        `from` that has so far handled the events up to the stream's
        position, as the run `admitted`/`segs` records, either handles one
        more event and records it, or stops, with the poll's result, just
        past the answer that stopped it. The run states are compared with
        `true` so that each is checked as one fact rather than conjunct by
        conjunct, which keeps this proof small. */
    method Step(ghost from: nat, ghost gs0: map<u32, GsInstance>, ghost cl0: map<u32, SessionRef>,
                ghost log0: seq<SessionOp>, ghost admitted: seq<bool>, ghost segs: seq<seq<SessionOp>>)
      returns (r: Outcome<Option<Result<Async, PollError>>>, ghost admitted': seq<bool>, ghost segs': seq<seq<SessionOp>>)
      requires Valid() && io.Valid() && from <= io.pos
      requires StopAt(io.items, from) == StopAt(io.items, io.pos)
      requires RunState(gsMap, clients, net.log, gs0, cl0, log0, EventsIn(io.items, from, io.pos), admitted, segs)
      modifies this, net, io
      ensures Valid() && io.Valid()
      ensures r == Ok(None) ==>
        && io.pos == old(io.pos) + 1 && StopAt(io.items, from) == StopAt(io.items, io.pos)
        && (RunState(gsMap, clients, net.log, gs0, cl0, log0, EventsIn(io.items, from, io.pos), admitted', segs') == true)
      ensures r.Ok? && r.value.Some? ==>
        && io.pos == PollEnd(io.items, from) && r.value.value == PollResult(io.items, from)
        && (RunState(gsMap, clients, net.log, gs0, cl0, log0, EventsIn(io.items, from, StopAt(io.items, from)), admitted', segs') == true)
      ensures r.Panic? ==> old(io.pos) < io.pos && io.items[io.pos - 1].Item?
    {
      ghost var handled := io.pos;
      ghost var gs, cl, log := gsMap, clients, net.log;
      admitted', segs' := admitted, segs;
      ghost var adm, seg;
      r, adm, seg := Turn();
      match r
      case Panic =>
      case Ok(Some(res)) =>
        PollStops(io.items, from, handled);
      case Ok(None) =>
        ghost var evt := io.items[handled].evt;
        PollStep(io.items, from, handled, gs, cl, log, gs0, cl0, log0, admitted, segs, seg, adm);
        assert io.pos == handled + 1;
        assert gsMap == GsStep(gs, evt) && clients == ClientsStep(cl, evt, adm) && net.log == log + seg;
        admitted', segs' := admitted + [adm], segs + [seg];
    }

    /** `poll`: events are handled one by one until the stream finishes,
        is not ready or fails; the map invariants hold throughout. When no
        event panics, both maps are what the events handled make of them,
        `admitted` saying for each whether a connecting client's two sends
        both succeeded, and the log has grown by `segs`, the operations each
        event's handling logged, in order. */
    method Poll() returns (r: Outcome<Result<Async, PollError>>, ghost admitted: seq<bool>, ghost segs: seq<seq<SessionOp>>)
      requires Valid() && io.Valid()
      modifies this, net, io
      ensures Valid() && io.Valid()
      ensures r.Ok? ==> io.pos == PollEnd(io.items, old(io.pos)) && r.value == PollResult(io.items, old(io.pos))
      ensures r.Ok? ==>
        RunState(gsMap, clients, net.log, old(gsMap), old(clients), old(net.log),
                 EventsIn(io.items, old(io.pos), StopAt(io.items, old(io.pos))), admitted, segs)
      ensures r.Panic? ==> old(io.pos) < io.pos && io.items[io.pos - 1].Item?
    {
      ghost var from := io.pos;
      ghost var gs0, cl0, log0 := gsMap, clients, net.log;
      admitted, segs := [], [];
      while true
        invariant Valid() && io.Valid() && from <= io.pos
        invariant StopAt(io.items, from) == StopAt(io.items, io.pos)
        // compared with `true` for the reason given at `Step`
        invariant RunState(gsMap, clients, net.log, gs0, cl0, log0, EventsIn(io.items, from, io.pos), admitted, segs) == true
        decreases |io.items| - io.pos
      {
        var t;
        t, admitted, segs := Step(from, gs0, cl0, log0, admitted, segs);
        match t
        case Panic =>
          return Panic, admitted, segs;
        case Ok(Some(res)) =>
          return Ok(res), admitted, segs;
        case Ok(None) =>
      }
    }
  }
}
