/** What the two Connect Server handlers (bin/cs/src/logic.rs and
    bin/cs/src/logic/) share: the sessions they talk to, server load, the
    server-list packet built from the game-server map, and the broadcast to
    every client. */
module CsCommon {
  import opened Base
  import opened MuProtocol
  import opened MuPackets

  /** `SessionRef` as the handler uses it: an id and a connection kind. */
  datatype SessionRef = SessionRef(id: u32, kind: byte)

  /** An operation on a session: a `send` and whether it succeeded, or a
      `close`. */
  datatype SessionOp = Sent(to: u32, pkt: MuPacket, delivered: bool) | Closed(id: u32)

  /** The far side of every `SessionRef`: `send` and `close` are foreign
      calls, so each is recorded in `log`, and whether a send succeeds is not
      under the handler's control. */
  class Sessions {
    var log: seq<SessionOp>

    constructor ()
      ensures log == []
    {
      log := [];
    }

    /** `SessionRef::send`: succeeds or fails. */
    method Send(s: SessionRef, pkt: MuPacket) returns (ok: bool)
      modifies this
      ensures log == old(log) + [Sent(s.id, pkt, ok)]
    {
      ok := *;
      log := log + [Sent(s.id, pkt, ok)];
    }

    /** `SessionRef::close`, whose result the handlers ignore. */
    method Close(s: SessionRef)
      modifies this
      ensures log == old(log) + [Closed(s.id)]
    {
      log := log + [Closed(s.id)];
    }
  }

  /** Every client is filed under its own session id. */
  ghost predicate KeyedById(clients: map<u32, SessionRef>)
  {
    forall k :: k in clients ==> clients[k].id == k
  }

  /** A game server's ip as the server reports it. */
  type Ip = s: seq<byte> | |s| == 16 witness [0, 0, 0, 0, 0, 0, 0, 0, 0, 0, 0, 0, 0, 0, 0, 0]

  /** The `ServerInfo` a game server reports to the Connect Server: the
      fields the handlers read. */
  datatype ServerReport = ServerReport(svrCode: u16, ip: Ip, port: u16, perc: byte,
                                       usrCnt: u16, accCnt: u16, mxUsrCnt: u16)

  /** `GSInstance::load`: 0 without a user limit, else users divided by the
      limit, truncated, and cast to `u8`. This is a ratio, not a
      percentage. */
  function Load(usrCnt: u16, mxUsrCnt: u16): (r: byte)
    ensures mxUsrCnt == 0 ==> r == 0
    ensures mxUsrCnt > 0 && usrCnt < 0x100 * mxUsrCnt ==> r * mxUsrCnt <= usrCnt < (r + 1) * mxUsrCnt
    ensures mxUsrCnt > 0 ==> (usrCnt / mxUsrCnt - r) % 0x100 == 0
  {
    if mxUsrCnt == 0 then 0
    else
      DivFacts(usrCnt, mxUsrCnt);
      AsU8(usrCnt / mxUsrCnt)
  }

  lemma DivFacts(a: nat, b: nat)
    requires b > 0
    ensures (a / b) * b <= a < (a / b + 1) * b
    ensures a < 0x100 * b ==> a / b == (a / b) % 0x100
    ensures (a / b - (a / b) % 0x100) % 0x100 == 0
  {
    var q := a / b;
    DivBounds(a, b, q);
    if a < 0x100 * b && q >= 0x100 {
      MulMono(0x100, q, b);
    }
    ModDiff(q);
  }

  lemma DivBounds(a: nat, b: nat, q: nat)
    requires b > 0 && q == a / b
    ensures q * b <= a < (q + 1) * b
  {
    assert a == q * b + a % b;
    assert (q + 1) * b == q * b + b;
  }

  lemma MulMono(x: nat, y: nat, b: nat)
    requires x <= y
    ensures x * b <= y * b
  {
    assert y * b == x * b + (y - x) * b;
  }

  lemma ModDiff(q: nat)
    ensures (q - q % 0x100) % 0x100 == 0
  {
    var d := q / 0x100;
    assert q - q % 0x100 == d * 0x100;
  }

  /** A half-full server reports load 0, a full one 1, and a server whose
      ratio reaches 256 wraps around. */
  lemma {:induction false} LoadExamples()
    ensures Load(50, 100) == 0
    ensures Load(100, 100) == 1
    ensures Load(300, 1) == 44
  {
    assert 300 / 1 == 300;
    assert 300 % 0x100 == 44;
  }

  /** `order` lists every key of `keys` exactly once: the order a `HashMap`
      iteration visits them in. */
  predicate IsOrdering<K>(order: seq<K>, keys: set<K>)
  {
    && |order| == |keys|
    && (forall i :: 0 <= i < |order| ==> order[i] in keys)
    && (forall i, j :: 0 <= i < j < |order| ==> order[i] != order[j])
    && (forall k :: k in keys ==> k in order)
  }

  /** A loop over `keys` has visited `order` and has `remaining` still to
      visit. */
  predicate Visiting<K>(order: seq<K>, remaining: set<K>, keys: set<K>)
  {
    && remaining <= keys
    && (forall i :: 0 <= i < |order| ==> order[i] in keys && order[i] !in remaining)
    && (forall k :: k in keys ==> k in remaining || k in order)
    && (forall i, j :: 0 <= i < j < |order| ==> order[i] != order[j])
    && |order| + |remaining| == |keys|
  }

  lemma VisitStep<K>(order: seq<K>, remaining: set<K>, keys: set<K>, k: K)
    requires Visiting(order, remaining, keys) && k in remaining
    ensures Visiting(order + [k], remaining - {k}, keys)
  {
    var o := order + [k];
    assert forall i :: 0 <= i < |order| ==> o[i] == order[i];
    assert |remaining - {k}| == |remaining| - 1;
  }

  lemma VisitDone<K>(order: seq<K>, keys: set<K>)
    requires Visiting(order, {}, keys)
    ensures IsOrdering(order, keys)
  {
  }

  /** A `u16` counter bumped by one stays the visit count modulo 2^16. */
  lemma CountStep(n: nat)
    ensures AsU16(AsU16(n) + 1) == AsU16(n + 1)
  {
    if n % 0x1_0000 == 0xFFFF {
      assert (n + 1) % 0x1_0000 == 0;
    } else {
      assert (n + 1) % 0x1_0000 == n % 0x1_0000 + 1;
    }
  }

  /** The server-list entries of the map values visited in `order`. */
  function EntriesOf<K, V>(gs: map<K, V>, order: seq<K>, entryOf: V -> (u16, byte)): (r: seq<(u16, byte)>)
    requires forall i :: 0 <= i < |order| ==> order[i] in gs
    ensures |r| == |order|
    ensures forall i :: 0 <= i < |order| ==> r[i] == entryOf(gs[order[i]])
  {
    if order == [] then []
    else EntriesOf(gs, order[..|order| - 1], entryOf) + [entryOf(gs[order[|order| - 1]])]
  }

  /** `new_server_list_pkt` up to `to_packet`: `ServerList::new` with the
      map's length as `u16`, one `add` per map entry in iteration order, and
      then `list.cnt` set to the entries counted, a `u16` wrapping like the
      length. `entryOf` gives a value's (server code, load). */
  method BuildServerList<K, V>(gs: map<K, V>, entryOf: V -> (u16, byte)) returns (list: ServerList, ghost order: seq<K>)
    ensures IsOrdering(order, gs.Keys)
    ensures list == ServerList(AsU16(|gs|), EntriesOf(gs, order, entryOf))
    ensures list.cnt == AsU16(|gs|) && |list.entries| == |gs|
    ensures forall k :: k in gs ==> entryOf(gs[k]) in list.entries
    ensures forall i :: 0 <= i < |list.entries| ==> exists k :: k in gs && list.entries[i] == entryOf(gs[k])
  {
    list := NewServerList(AsU16(|gs|));
    var cnt: u16 := 0;
    var remaining := gs.Keys;
    order := [];
    while remaining != {}
      invariant Building(gs, entryOf, list, cnt, order, remaining)
      decreases |remaining|
    {
      var k :| k in remaining;
      var e := entryOf(gs[k]);
      BuildStep(gs, entryOf, list, cnt, order, remaining, k);
      list := Add(list, e.0, e.1);
      cnt := AsU16(cnt + 1);
      order := order + [k];
      remaining := remaining - {k};
    }
    VisitDone(order, gs.Keys);
    list := list.(cnt := cnt);
  }

  /** The loop of `BuildServerList` has added the entries of the keys in
      `order`, counted them in `cnt`, and has `remaining` still to visit. */
  ghost predicate Building<K, V>(gs: map<K, V>, entryOf: V -> (u16, byte), list: ServerList, cnt: u16,
                                 order: seq<K>, remaining: set<K>)
  {
    && Visiting(order, remaining, gs.Keys)
    && cnt == AsU16(|order|)
    && list == ServerList(AsU16(|gs|), EntriesOf(gs, order, entryOf))
  }

  lemma BuildStep<K, V>(gs: map<K, V>, entryOf: V -> (u16, byte), list: ServerList, cnt: u16,
                        order: seq<K>, remaining: set<K>, k: K)
    requires Building(gs, entryOf, list, cnt, order, remaining) && k in remaining
    ensures Building(gs, entryOf, Add(list, entryOf(gs[k]).0, entryOf(gs[k]).1), AsU16(cnt + 1),
                     order + [k], remaining - {k})
  {
    VisitStep(order, remaining, gs.Keys, k);
    assert AsU16(cnt + 1) == AsU16(|order + [k]|) by { CountStep(|order|); }
    assert forall i :: 0 <= i < |order| ==> order[i] in gs;
    assert Add(list, entryOf(gs[k]).0, entryOf(gs[k]).1) == ServerList(AsU16(|gs|), EntriesOf(gs, order + [k], entryOf)) by {
      ListStep(list, gs, order, k, entryOf);
    }
  }

  /** One `add` in the loop of `BuildServerList` extends the list by the
      entry of the key visited next. */
  lemma ListStep<K, V>(list: ServerList, gs: map<K, V>, order: seq<K>, k: K, entryOf: V -> (u16, byte))
    requires forall i :: 0 <= i < |order| ==> order[i] in gs
    requires k in gs
    requires list == ServerList(AsU16(|gs|), EntriesOf(gs, order, entryOf))
    ensures Add(list, entryOf(gs[k]).0, entryOf(gs[k]).1) == ServerList(AsU16(|gs|), EntriesOf(gs, order + [k], entryOf))
  {
    var o := order + [k];
    assert o[..|o| - 1] == order;
    var r := Add(list, entryOf(gs[k]).0, entryOf(gs[k]).1);
    assert r.entries == r.entries[..|list.entries|] + r.entries[|list.entries|..];
  }

  /** The packet `ConnectResult { res: 1 }.to_packet()` sends. */
  function ConnectResultPacket(): (r: MuPacket)
    ensures PacketOf(ConnectResultMsg, Connect(ConnectResult(1))) == Ok(r)
  {
    PacketOf(ConnectResultMsg, Connect(ConnectResult(1))).value
  }

  /** `list.to_packet()` for a list of `entries` counted as `u16`: it panics
      once the list's payload no longer fits its `u16` size. */
  function ServerListPacket(entries: seq<(u16, byte)>): (r: Outcome<MuPacket>)
    ensures r.Ok? <==> |entries| < 0x4000
    ensures r.Ok? ==> r.value.data == ServerListBytes(ServerList(AsU16(|entries|), entries))
  {
    PacketOf(ServerListMsg, List(ServerList(AsU16(|entries|), entries)))
  }

  /** The sessions a loop over `clients` in `order` visits. */
  function SessionsOf(clients: map<u32, SessionRef>, order: seq<u32>): (r: seq<SessionRef>)
    requires forall i :: 0 <= i < |order| ==> order[i] in clients
    ensures |r| == |order|
    ensures forall i :: 0 <= i < |order| ==> r[i] == clients[order[i]]
  {
    if order == [] then []
    else SessionsOf(clients, order[..|order| - 1]) + [clients[order[|order| - 1]]]
  }

  /** The session operations of a broadcast: for each session a send, and a
      close right after it when the send failed. */
  function BroadcastOps(ss: seq<SessionRef>, pkt: MuPacket, delivered: seq<bool>): seq<SessionOp>
    requires |delivered| == |ss|
    decreases |ss|
  {
    if ss == [] then []
    else
      var n := |ss| - 1;
      BroadcastOps(ss[..n], pkt, delivered[..n])
        + [Sent(ss[n].id, pkt, delivered[n])] + (if delivered[n] then [] else [Closed(ss[n].id)])
  }

  /** A broadcast sends the packet to every session, sends nothing else, and
      closes exactly the sessions whose send failed. */
  lemma BroadcastOpsSpec(ss: seq<SessionRef>, pkt: MuPacket, delivered: seq<bool>)
    requires |delivered| == |ss|
    ensures forall i :: 0 <= i < |ss| ==> Sent(ss[i].id, pkt, delivered[i]) in BroadcastOps(ss, pkt, delivered)
    ensures forall op :: op in BroadcastOps(ss, pkt, delivered) && op.Sent? ==>
      op.pkt == pkt && exists i :: 0 <= i < |ss| && op.to == ss[i].id && op.delivered == delivered[i]
    ensures forall x :: Closed(x) in BroadcastOps(ss, pkt, delivered) <==>
      exists i :: 0 <= i < |ss| && ss[i].id == x && !delivered[i]
  {
    BroadcastSendsAll(ss, pkt, delivered);
    BroadcastSendsOnly(ss, pkt, delivered);
    BroadcastClosesFailed(ss, pkt, delivered);
  }

  lemma {:induction false} BroadcastSendsAll(ss: seq<SessionRef>, pkt: MuPacket, delivered: seq<bool>)
    requires |delivered| == |ss|
    ensures forall i :: 0 <= i < |ss| ==> Sent(ss[i].id, pkt, delivered[i]) in BroadcastOps(ss, pkt, delivered)
    decreases |ss|
  {
    if ss != [] {
      var n := |ss| - 1;
      BroadcastSendsAll(ss[..n], pkt, delivered[..n]);
      var ops := BroadcastOps(ss, pkt, delivered);
      var pre := BroadcastOps(ss[..n], pkt, delivered[..n]);
      assert ops == pre + [Sent(ss[n].id, pkt, delivered[n])] + (if delivered[n] then [] else [Closed(ss[n].id)]);
      forall i | 0 <= i < |ss|
        ensures Sent(ss[i].id, pkt, delivered[i]) in ops
      {
        if i < n {
          assert ss[..n][i] == ss[i] && delivered[..n][i] == delivered[i];
        }
      }
    }
  }

  lemma {:induction false} BroadcastSendsOnly(ss: seq<SessionRef>, pkt: MuPacket, delivered: seq<bool>)
    requires |delivered| == |ss|
    ensures forall op :: op in BroadcastOps(ss, pkt, delivered) && op.Sent? ==>
      op.pkt == pkt && exists i :: 0 <= i < |ss| && op.to == ss[i].id && op.delivered == delivered[i]
    decreases |ss|
  {
    if ss != [] {
      var n := |ss| - 1;
      BroadcastSendsOnly(ss[..n], pkt, delivered[..n]);
      var ops := BroadcastOps(ss, pkt, delivered);
      var pre := BroadcastOps(ss[..n], pkt, delivered[..n]);
      assert ops == pre + [Sent(ss[n].id, pkt, delivered[n])] + (if delivered[n] then [] else [Closed(ss[n].id)]);
      forall op | op in ops && op.Sent?
        ensures op.pkt == pkt && exists i :: 0 <= i < |ss| && op.to == ss[i].id && op.delivered == delivered[i]
      {
        if op in pre {
          var i :| 0 <= i < n && op.to == ss[..n][i].id && op.delivered == delivered[..n][i];
          assert op.to == ss[i].id && op.delivered == delivered[i];
        } else {
          assert op.to == ss[n].id && op.delivered == delivered[n];
        }
      }
    }
  }

  lemma {:induction false} BroadcastClosesFailed(ss: seq<SessionRef>, pkt: MuPacket, delivered: seq<bool>)
    requires |delivered| == |ss|
    ensures forall x :: Closed(x) in BroadcastOps(ss, pkt, delivered) <==>
      exists i :: 0 <= i < |ss| && ss[i].id == x && !delivered[i]
    decreases |ss|
  {
    if ss != [] {
      var n := |ss| - 1;
      BroadcastClosesFailed(ss[..n], pkt, delivered[..n]);
      var ops := BroadcastOps(ss, pkt, delivered);
      var pre := BroadcastOps(ss[..n], pkt, delivered[..n]);
      assert ops == pre + [Sent(ss[n].id, pkt, delivered[n])] + (if delivered[n] then [] else [Closed(ss[n].id)]);
      forall x
        ensures Closed(x) in ops <==> exists i :: 0 <= i < |ss| && ss[i].id == x && !delivered[i]
      {
        if Closed(x) in ops {
          if Closed(x) in pre {
            var i :| 0 <= i < n && ss[..n][i].id == x && !delivered[..n][i];
            assert ss[i].id == x && !delivered[i];
          } else {
            assert ss[n].id == x && !delivered[n];
          }
        }
        if exists i :: 0 <= i < |ss| && ss[i].id == x && !delivered[i] {
          var i :| 0 <= i < |ss| && ss[i].id == x && !delivered[i];
          if i < n {
            assert ss[..n][i].id == x && !delivered[..n][i];
          }
        }
      }
    }
  }

  lemma BroadcastSnoc(ss: seq<SessionRef>, s: SessionRef, pkt: MuPacket, delivered: seq<bool>, ok: bool)
    requires |delivered| == |ss|
    ensures BroadcastOps(ss + [s], pkt, delivered + [ok])
         == BroadcastOps(ss, pkt, delivered) + ([Sent(s.id, pkt, ok)] + (if ok then [] else [Closed(s.id)]))
  {
    assert (ss + [s])[..|ss|] == ss;
    assert (delivered + [ok])[..|ss|] == delivered;
  }

  lemma SessionsSnoc(clients: map<u32, SessionRef>, order: seq<u32>, k: u32)
    requires forall i :: 0 <= i < |order| ==> order[i] in clients
    requires k in clients
    ensures SessionsOf(clients, order + [k]) == SessionsOf(clients, order) + [clients[k]]
  {
    assert (order + [k])[..|order|] == order;
  }

  /** One turn of `broadcast`: send, and close the session if that fails. */
  method SendOrClose(net: Sessions, session: SessionRef, pkt: MuPacket) returns (ok: bool)
    modifies net
    ensures net.log == old(net.log) + [Sent(session.id, pkt, ok)] + (if ok then [] else [Closed(session.id)])
  {
    ok := net.Send(session, pkt);
    if !ok {
      net.Close(session);
    }
  }

  /** Where `broadcast` stands after visiting `order`: the log holds exactly
      the operations for the sessions visited so far. */
  ghost predicate Broadcasting(clients: map<u32, SessionRef>, pkt: MuPacket, start: seq<SessionOp>,
                               log: seq<SessionOp>, order: seq<u32>, remaining: set<u32>, delivered: seq<bool>)
  {
    && Visiting(order, remaining, clients.Keys)
    && |delivered| == |order|
    && log == start + BroadcastOps(SessionsOf(clients, order), pkt, delivered)
  }

  lemma BroadcastStep(clients: map<u32, SessionRef>, pkt: MuPacket, start: seq<SessionOp>,
                      log: seq<SessionOp>, order: seq<u32>, remaining: set<u32>, delivered: seq<bool>,
                      k: u32, ok: bool)
    requires Broadcasting(clients, pkt, start, log, order, remaining, delivered)
    requires k in remaining
    ensures Broadcasting(clients, pkt, start,
                         log + [Sent(clients[k].id, pkt, ok)] + (if ok then [] else [Closed(clients[k].id)]),
                         order + [k], remaining - {k}, delivered + [ok])
  {
    VisitStep(order, remaining, clients.Keys, k);
    BroadcastLogStep(clients, pkt, start, log, order, delivered, k, ok);
  }

  lemma BroadcastLogStep(clients: map<u32, SessionRef>, pkt: MuPacket, start: seq<SessionOp>,
                         log: seq<SessionOp>, order: seq<u32>, delivered: seq<bool>, k: u32, ok: bool)
    requires forall i :: 0 <= i < |order| ==> order[i] in clients
    requires k in clients && |delivered| == |order|
    requires log == start + BroadcastOps(SessionsOf(clients, order), pkt, delivered)
    ensures log + [Sent(clients[k].id, pkt, ok)] + (if ok then [] else [Closed(clients[k].id)])
         == start + BroadcastOps(SessionsOf(clients, order + [k]), pkt, delivered + [ok])
  {
    var s := clients[k];
    var ss := SessionsOf(clients, order);
    var step := [Sent(s.id, pkt, ok)] + (if ok then [] else [Closed(s.id)]);
    var b := BroadcastOps(ss, pkt, delivered);
    assert SessionsOf(clients, order + [k]) == ss + [s] by {
      SessionsSnoc(clients, order, k);
    }
    assert BroadcastOps(ss + [s], pkt, delivered + [ok]) == b + step by {
      BroadcastSnoc(ss, s, pkt, delivered, ok);
    }
    assert log + [Sent(s.id, pkt, ok)] + (if ok then [] else [Closed(s.id)]) == log + step;
    assert start + b + step == start + (b + step);
  }

  /** `broadcast`: every client in the map is sent `pkt`, and one whose send
      fails is closed; the map itself is left as it is. */
  method Broadcast(net: Sessions, clients: map<u32, SessionRef>, pkt: MuPacket)
    returns (ghost order: seq<u32>, ghost delivered: seq<bool>)
    modifies net
    ensures IsOrdering(order, clients.Keys) && |delivered| == |order|
    ensures net.log == old(net.log) + BroadcastOps(SessionsOf(clients, order), pkt, delivered)
  {
    var remaining := clients.Keys;
    order := [];
    delivered := [];
    ghost var start := net.log;
    while remaining != {}
      invariant Broadcasting(clients, pkt, start, net.log, order, remaining, delivered)
      decreases |remaining|
    {
      var k :| k in remaining;
      ghost var log := net.log;
      var ok := SendOrClose(net, clients[k], pkt);
      BroadcastStep(clients, pkt, start, log, order, remaining, delivered, k, ok);
      order := order + [k];
      delivered := delivered + [ok];
      remaining := remaining - {k};
    }
    VisitDone(order, clients.Keys);
  }

  /** `log` is `log0` followed by one broadcast of the server list built
      from `gs` in `order`, to the clients in `clientOrder`, each send
      delivered or not as `delivered` says. */
  ghost predicate ListBroadcast<K, V>(log0: seq<SessionOp>, log: seq<SessionOp>,
                                      gs: map<K, V>, order: seq<K>, entryOf: V -> (u16, byte),
                                      clients: map<u32, SessionRef>, clientOrder: seq<u32>, delivered: seq<bool>)
  {
    && IsOrdering(order, gs.Keys)
    && ServerListPacket(EntriesOf(gs, order, entryOf)).Ok?
    && IsOrdering(clientOrder, clients.Keys) && |delivered| == |clientOrder|
    && log == log0 + BroadcastOps(SessionsOf(clients, clientOrder),
                                  ServerListPacket(EntriesOf(gs, order, entryOf)).value, delivered)
  }

  /** The session operations of sending the server list `l` to a client:
      nothing if building the packet panicked, else the send, and a close
      when it failed. */
  function AdmitOps(id: u32, l: Outcome<MuPacket>, delivered: bool): seq<SessionOp>
  {
    if l.Panic? then [] else [Sent(id, l.value, delivered)] + (if delivered then [] else [Closed(id)])
  }
}
