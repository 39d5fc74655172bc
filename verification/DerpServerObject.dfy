/** The relay server as an object: each method is one critical section of the program, with its
    loops, and is proved to be the corresponding step of the state machine. */
module DerpServerObject {
  import opened Wrappers
  import opened DerpTypes
  import Dup = DerpDup
  import Clients = DerpClients
  import Mesh = DerpMesh
  import Watch = DerpWatch
  import Routes = DerpRoutes
  import Machine = DerpServer

  /** The part of the invariant about one key. */
  ghost predicate KeyOk(s: Machine.Srv, k: NodeKey) {
    && (k in s.table.clients ==> Clients.Members(s.table.clients[k]) <= s.table.conns.Keys)
    && (k in s.mesh.mesh ==> Mesh.EntryOk(s.mesh.mesh[k]))
  }

  lemma KeyFacts(s: Machine.Srv, k: NodeKey)
    requires Machine.Reachable(s)
    ensures KeyOk(s, k)
  {
    Machine.ReachableInv(s);
    assert k in s.table.clients ==> Clients.SetOk(k, s.table.clients[k], s.table.conns);
  }

  lemma ConnFacts(s: Machine.Srv, c: ConnNum)
    requires Machine.Reachable(s)
    ensures var t := s.table;
      c in t.conns ==> t.conns[c].key in t.clients && c in Clients.Members(t.clients[t.conns[c].key])
    ensures (c in s.accepted || c > s.accepts) ==> c !in s.table.conns
    ensures c > s.accepts ==> c !in s.accepted
  {
    Machine.ReachableInv(s);
  }

  lemma UnregisteredTable(s: Machine.Srv, c: ConnNum)
    requires Machine.Reachable(s) && c in s.table.conns
    ensures var t := Clients.Unregister(s.table, c); Clients.Agree(t.clients, t.conns)
  {
    Machine.ReachableInv(s);
    Clients.UnregisterKeepsAgree(s.table, c);
  }

  /** `requests` go to exactly the connections of the announcement that was added, each once, if one
      was. */
  ghost predicate Requested(before: seq<Machine.Gone>, after: seq<Machine.Gone>, requests: seq<ConnNum>) {
    && (forall i, j :: 0 <= i < j < |requests| ==> requests[i] != requests[j])
    && (if after == before then requests == [] else exists src :: after == before + [Machine.Gone(src, Elems(requests))])
  }

  lemma NothingRequested(gone: seq<Machine.Gone>)
    ensures Requested(gone, gone, [])
  {
  }

  lemma TableFacts(s: Machine.Srv)
    requires Machine.Reachable(s)
    ensures Clients.Agree(s.table.clients, s.table.conns)
  {
    Machine.ReachableInv(s);
  }

  lemma ActiveFacts(s: Machine.Srv)
    requires Machine.Reachable(s)
    ensures ActiveKnown(s.table.clients, s.table.conns)
  {
    Machine.ReachableInv(s);
    forall k | k in s.table.clients && Clients.Active(s.table.conns, s.table.clients[k]).Some?
      ensures Clients.Active(s.table.conns, s.table.clients[k]).value in s.table.conns
    {
      assert Clients.SetOk(k, s.table.clients[k], s.table.conns);
    }
  }

  ghost predicate Once(order: seq<NodeKey>) {
    forall i, j :: 0 <= i < j < |order| ==> order[i] != order[j]
  }

  /** Active connections are registered ones. */
  ghost predicate ActiveKnown(clients: map<NodeKey, Clients.ClientSet>, conns: map<ConnNum, Clients.Conn>) {
    forall k :: k in clients && Clients.Active(conns, clients[k]).Some? ==> Clients.Active(conns, clients[k]).value in conns
  }

  class Server {
    const policy: DupPolicy
    const publicKey: NodeKey
    var accepts: nat
    ghost var accepted: set<ConnNum>
    ghost var noting: set<ConnNum>
    var clients: map<NodeKey, Clients.ClientSet>
    var conns: map<ConnNum, Clients.Conn>
    var curClients: int
    var curHomeClients: int
    var dupClientKeys: int
    var dupClientConns: int
    var dupClientConnTotal: int
    var clientsMesh: map<NodeKey, Mesh.Entry>
    var multiForwarderCreated: int
    var multiForwarderDeleted: int
    var removePktForwardOther: int
    var watchers: set<ConnNum>
    var peerStateChange: map<ConnNum, seq<Watch.PeerEvent>>
    ghost var written: map<ConnNum, seq<Watch.PeerEvent>>
    var sentTo: Routes.Sent
    ghost var log: seq<Routes.RouteEvent>
    ghost var gone: seq<Machine.Gone>

    ghost function Table(): Clients.Table
      reads this
    {
      Clients.Table(clients, conns, curClients, curHomeClients, dupClientKeys, dupClientConns, dupClientConnTotal)
    }

    ghost function Region(): Mesh.MeshTable
      reads this
    {
      Mesh.MeshTable(clientsMesh, multiForwarderCreated, multiForwarderDeleted, removePktForwardOther)
    }

    ghost function Told(): Watch.Watch
      reads this
    {
      Watch.Watch(watchers, peerStateChange, written)
    }

    ghost function S(): Machine.Srv
      reads this
    {
      Machine.Srv(policy, publicKey, accepts, accepted, noting, Table(), Region(), Told(), sentTo, log, gone)
    }

    /** The object is in a state that some run reaches. */
    ghost predicate Valid()
      reads this
    {
      Machine.Reachable(S())
    }

    constructor (policy: DupPolicy, publicKey: NodeKey)
      ensures Valid() && S() == Machine.Start(policy, publicKey)
    {
      this.policy := policy;
      this.publicKey := publicKey;
      accepts, accepted, noting := 0, {}, {};
      clients, conns := map[], map[];
      curClients, curHomeClients, dupClientKeys, dupClientConns, dupClientConnTotal := 0, 0, 0, 0, 0;
      clientsMesh, multiForwarderCreated, multiForwarderDeleted, removePktForwardOther := map[], 0, 0, 0;
      watchers, peerStateChange, written := {}, map[], map[];
      sentTo, log, gone := map[], [], [];
      new;
      Machine.StartReachable(policy, publicKey);
    }

    method Accept() returns (connNum: ConnNum)
      requires Valid()
      modifies this
      ensures Valid() && S() == Machine.Step(old(S()), Machine.Accept)
      ensures connNum in accepted && connNum !in old(accepted) && connNum !in conns
    {
      ConnFacts(S(), accepts + 1);
      Machine.StepReachable(S(), Machine.Accept);
      accepts := accepts + 1;
      connNum := accepts;
      accepted := accepted + {connNum};
    }

    /** Queues an event for every watcher. */
    method BroadcastPeerStateChange(e: Watch.PeerEvent)
      modifies this`peerStateChange
      ensures S() == old(S()).(watch := Watch.Broadcast(old(Told()), e))
    {
      ghost var before := peerStateChange;
      var rest := watchers;
      while rest != {}
        invariant rest <= watchers
        invariant peerStateChange.Keys == before.Keys + (watchers - rest)
        invariant forall c :: c in peerStateChange ==>
          peerStateChange[c] == Watch.Events(before, c) + (if c in watchers && c !in rest then [e] else [])
      {
        var w :| w in rest;
        peerStateChange := peerStateChange[w := Watch.Events(peerStateChange, w) + [e]];
        rest := rest - {w};
      }
    }

    /** Files a connection under its key, in the table alone. */
    method FileClient(c: ConnNum, key: NodeKey, canMesh: bool, addr: AddrPort)
      requires c !in conns && (key in clients ==> Clients.Members(clients[key]) <= conns.Keys)
      modifies this`clients, this`conns, this`curClients, this`dupClientKeys, this`dupClientConns, this`dupClientConnTotal
      ensures Table() == Clients.Register(old(Table()), c, key, canMesh, addr)
    {
      var isDup := false;
      if key !in clients {
        clients := clients[key := Clients.Single(c)];
      } else {
        isDup := true;
        match clients[key] {
          case Single(o) =>
            dupClientKeys := dupClientKeys + 1;
            dupClientConns := dupClientConns + 2;
            dupClientConnTotal := dupClientConnTotal + 1;
            conns := conns[o := conns[o].(isDup := true)];
            clients := clients[key := Clients.Several(Dup.DupSet({o, c}, Some(c), [o]))];
          case Several(ds) =>
            dupClientConns := dupClientConns + 1;
            dupClientConnTotal := dupClientConnTotal + 1;
            clients := clients[key := Clients.Several(Dup.DupSet(ds.members + {c}, Some(c), ds.history + [c]))];
        }
      }
      conns := conns[c := Clients.Conn(key, canMesh, addr, isDup, false, false)];
      curClients := curClients + 1;
    }

    /** Filing changes nothing but the table. */
    method FileOnly(c: ConnNum, key: NodeKey, canMesh: bool, addr: AddrPort)
      requires c !in conns && (key in clients ==> Clients.Members(clients[key]) <= conns.Keys)
      modifies this
      ensures S() == old(S()).(table := Clients.Register(old(Table()), c, key, canMesh, addr))
    {
      FileClient(c, key, canMesh, addr);
    }

    method JoinRegion(key: NodeKey)
      modifies this`clientsMesh
      ensures S() == old(S()).(mesh := Mesh.Join(old(Region()), key))
    {
      if key !in clientsMesh {
        clientsMesh := clientsMesh[key := Mesh.Nil];
      }
    }

    /** Everything that registering does, in a table that knows the members of the key's set. */
    method EnterClient(c: ConnNum, key: NodeKey, canMesh: bool, addr: AddrPort)
      requires c !in conns && (key in clients ==> Clients.Members(clients[key]) <= conns.Keys)
      modifies this
      ensures S() == Machine.StepRegister(old(S()), c, key, canMesh, addr)
    {
      accepted := accepted - {c};
      FileOnly(c, key, canMesh, addr);
      JoinRegion(key);
      BroadcastPeerStateChange(Watch.PeerEvent(key, true, addr));
    }

    method RegisterClient(c: ConnNum, key: NodeKey, canMesh: bool, addr: AddrPort)
      requires Valid() && c in accepted
      modifies this
      ensures Valid() && S() == Machine.Step(old(S()), Machine.Register(c, key, canMesh, addr))
    {
      ConnFacts(S(), c);
      KeyFacts(S(), key);
      Machine.StepReachable(S(), Machine.Register(c, key, canMesh, addr));
      EnterClient(c, key, canMesh, addr);
    }

    /** Finds the connections to tell that `src` is gone: each once. */
    method GoneRequests(src: NodeKey) returns (requests: seq<ConnNum>)
      requires Clients.Agree(clients, conns)
      ensures Elems(requests) == Machine.Targets(Table(), sentTo, src)
      ensures forall i, j :: 0 <= i < j < |requests| ==> requests[i] != requests[j]
    {
      requests := [];
      var peers: map<NodeKey, ConnNum> := if src in sentTo then sentTo[src] else map[];
      var rest := peers.Keys;
      while rest != {}
        invariant rest <= peers.Keys
        invariant forall c :: c in requests <==> c in conns && conns[c].key in peers.Keys - rest && peers[conns[c].key] == c
        invariant forall i, j :: 0 <= i < j < |requests| ==> requests[i] != requests[j]
      {
        var k :| k in rest;
        var connNum := peers[k];
        assert k in clients ==> Clients.SetOk(k, clients[k], conns);
        if k in clients && connNum in Clients.Members(clients[k]) {
          assert connNum !in requests;
          requests := requests + [connNum];
        }
        rest := rest - {k};
      }
    }

    /** Announces that `src` is gone and forgets what it sent. The key must have left the region. */
    method NotePeerGoneFromRegion(src: NodeKey) returns (requests: seq<ConnNum>)
      requires src !in clientsMesh
      requires Clients.Agree(clients, conns)
      modifies this`sentTo, this`log, this`gone
      ensures S() == Machine.LeaveRegion(old(S()), src)
      ensures Elems(requests) == Machine.Targets(Table(), old(sentTo), src)
      ensures Requested(old(gone), gone, requests)
    {
      requests := GoneRequests(src);
      log := log + [Routes.Left(src)];
      gone := gone + [Machine.Gone(src, Elems(requests))];
      sentTo := sentTo - {src};
    }

    /** Takes a connection out of the table; `last` says that its key went with it. */
    method UnfileClient(c: ConnNum) returns (last: bool)
      requires c in conns && conns[c].key in clients && c in Clients.Members(clients[conns[c].key])
      requires Clients.Members(clients[conns[c].key]) <= conns.Keys
      modifies this`clients, this`conns, this`curClients, this`curHomeClients, this`dupClientKeys, this`dupClientConns
      ensures Table() == Clients.Unregister(old(Table()), c)
      ensures last == old(clients[conns[c].key].Single?)
    {
      var conn := conns[c];
      var key := conn.key;
      conns := conns - {c};
      curClients := curClients - 1;
      if conn.preferred {
        curHomeClients := curHomeClients - 1;
      }
      match clients[key] {
        case Single(_) =>
          clients := clients - {key};
          last := true;
        case Several(ds) =>
          last := false;
          var ds', removed := Dup.RemoveClient(ds, c);
          assert removed;
          dupClientConns := dupClientConns - 1;
          if |ds'.members| == 1 {
            dupClientConns := dupClientConns - 1;
            dupClientKeys := dupClientKeys - 1;
            var remain := Clients.Only(ds'.members);
            assert remain in ds.members && remain in conns;
            conns := conns[remain := conns[remain].(isDisabled := false, isDup := false)];
            clients := clients[key := Clients.Single(remain)];
          } else {
            clients := clients[key := Clients.Several(ds')];
          }
      }
    }

    /** Taking it out changes nothing but the table. */
    method UnfileOnly(c: ConnNum) returns (last: bool)
      requires c in conns && conns[c].key in clients && c in Clients.Members(clients[conns[c].key])
      requires Clients.Members(clients[conns[c].key]) <= conns.Keys
      modifies this
      ensures S() == old(S()).(table := Clients.Unregister(old(Table()), c))
      ensures last == old(clients[conns[c].key].Single?)
    {
      last := UnfileClient(c);
    }

    /** The last local connection of `key` left; without forwarders the key leaves the region. */
    method LeaveRegion(key: NodeKey) returns (requests: seq<ConnNum>)
      requires Clients.Agree(clients, conns)
      modifies this`clientsMesh, this`sentTo, this`log, this`gone
      ensures var left := old(S()).(mesh := Mesh.LeaveLocal(old(Region()), key));
        S() == if old(key in clientsMesh && clientsMesh[key].Nil?) then Machine.LeaveRegion(left, key) else left
      ensures Requested(old(gone), gone, requests)
    {
      requests := [];
      NothingRequested(gone);
      if key in clientsMesh && clientsMesh[key] == Mesh.Nil {
        clientsMesh := clientsMesh - {key};
        requests := NotePeerGoneFromRegion(key);
      }
    }

    method StopWatching(c: ConnNum)
      modifies this`watchers, this`peerStateChange, this`written
      ensures S() == old(S()).(watch := Watch.Leave(old(Told()), c))
    {
      watchers := watchers - {c};
      peerStateChange := peerStateChange - {c};
      written := written - {c};
    }

    /** Everything that unregistering does, in tables that agree. */
    method DropClient(c: ConnNum) returns (requests: seq<ConnNum>)
      requires c in conns && conns[c].key in clients && c in Clients.Members(clients[conns[c].key])
      requires Clients.Members(clients[conns[c].key]) <= conns.Keys
      requires var t := Clients.Unregister(Table(), c); Clients.Agree(t.clients, t.conns)
      modifies this
      ensures S() == Machine.StepUnregister(old(S()), c)
      ensures Requested(old(gone), gone, requests)
    {
      NothingRequested(gone);
      requests := [];
      noting := noting - {c};
      var conn := conns[c];
      var last := UnfileOnly(c);
      if last {
        requests := LeaveRegion(conn.key);
        BroadcastPeerStateChange(Watch.PeerEvent(conn.key, false, Machine.NO_ADDR));
      }
      if conn.canMesh {
        StopWatching(c);
      }
    }

    method UnregisterClient(c: ConnNum) returns (requests: seq<ConnNum>)
      requires Valid() && c in conns
      modifies this
      ensures Valid() && S() == Machine.Step(old(S()), Machine.Unregister(c))
      ensures Requested(old(gone), gone, requests)
    {
      ConnFacts(S(), c);
      KeyFacts(S(), conns[c].key);
      UnregisteredTable(S(), c);
      Machine.StepReachable(S(), Machine.Unregister(c));
      requests := DropClient(c);
    }

    /** The reader of `c` got a frame. Its look at the connection's own flags, without the lock, says
        whether to go on. */
    method HearClient(c: ConnNum) returns (goOn: bool)
      requires Valid() && c in conns
      modifies this`noting
      ensures Valid() && S() == Machine.Step(old(S()), Machine.Hear(c))
      ensures goOn <==> conns[c].isDup && !conns[c].isDisabled
      ensures goOn ==> c in noting
    {
      Machine.StepReachable(S(), Machine.Hear(c));
      if !conns[c].isDup {
        return false;
      }
      if conns[c].isDisabled {
        return false;
      }
      noting := noting + {c};
      return true;
    }

    /** Notes, under the lock, that `c` sent something. */
    method NoteClientActivity(c: ConnNum)
      requires Valid() && c in conns && c in noting
      modifies this
      ensures Valid() && S() == Machine.Step(old(S()), Machine.Activity(c))
    {
      ConnFacts(S(), c);
      Machine.StepReachable(S(), Machine.Activity(c));
      noting := noting - {c};
      ghost var s := S();
      NoteInSet(c);
      assert S() == s.(table := Table());
    }

    /** What that does to the set of `c`, if it is still one. */
    method NoteInSet(c: ConnNum)
      requires c in conns && conns[c].key in clients
      modifies this`clients, this`conns
      ensures Table() == Clients.NoteActivity(old(Table()), policy, c)
    {
      var key := conns[c].key;
      if clients[key].Single? {
        return;
      }
      var ds := clients[key].ds;
      var last := ds.last;
      if policy == LastWriterIsActive {
        last := Some(c);
      } else if last.None? {
        last := Some(c);
      }
      if |ds.history| != 0 && ds.history[|ds.history| - 1] == c {
        clients := clients[key := Clients.Several(ds.(last := last))];
        return;
      }
      if policy == DisableFighters {
        for i := 0 to |ds.history|
          invariant c !in ds.history[..i]
          invariant conns == old(conns)
        {
          if ds.history[i] == c {
            conns := Clients.DisableAll(conns, ds.members);
            break;
          }
        }
        assert c !in ds.history ==> conns == old(conns);
      }
      clients := clients[key := Clients.Several(Dup.DupSet(ds.members, last, ds.history + [c]))];
    }

    /** A frame from `c`, undisturbed: heard, and noted if there is reason to. */
    method HandleActivity(c: ConnNum)
      requires Valid() && c in conns && c !in noting
      modifies this
      ensures Valid() && S() == Machine.Heard(old(S()), c)
    {
      ghost var s := S();
      var goOn := HearClient(c);
      if goOn {
        NoteClientActivity(c);
      }
    }

    method SetPreferred(c: ConnNum, v: bool)
      requires Valid() && c in conns
      modifies this
      ensures Valid() && S() == Machine.Step(old(S()), Machine.NotePreferred(c, v))
    {
      Machine.StepReachable(S(), Machine.NotePreferred(c, v));
      if conns[c].preferred == v {
        return;
      }
      conns := conns[c := conns[c].(preferred := v)];
      curHomeClients := if v then curHomeClients + 1 else curHomeClients - 1;
    }

    /** An arrival event for every connected key, in the order the map gave. */
    method Announcements() returns (events: seq<Watch.PeerEvent>, ghost order: seq<NodeKey>)
      requires ActiveKnown(clients, conns)
      ensures Elems(order) == clients.Keys && events == Machine.Arrivals(Table(), order) && Once(order)
    {
      order, events := [], [];
      var rest := clients.Keys;
      while rest != {}
        invariant rest <= clients.Keys
        invariant Elems(order) == clients.Keys - rest
        invariant events == Machine.Arrivals(Table(), order) && Once(order)
      {
        var peer :| peer in rest;
        assert peer !in Elems(order);
        var ac := Clients.Active(conns, clients[peer]);
        if ac.Some? {
          events := events + [Watch.PeerEvent(peer, true, conns[ac.value].addr)];
        }
        ElemsJoin(order, [peer]);
        assert (order + [peer])[..|order|] == order;
        order := order + [peer];
        rest := rest - {peer};
      }
    }

    method Enroll(c: ConnNum, events: seq<Watch.PeerEvent>)
      modifies this`watchers, this`peerStateChange
      ensures S() == old(S()).(watch := Watch.Enroll(old(Told()), c, events))
    {
      peerStateChange := peerStateChange[c := Watch.Events(peerStateChange, c) + events];
      watchers := watchers + {c};
    }

    /** Tells `c` about every connected key and enrolls it; a connection under the server's own
        key is left out. */
    method AddWatcher(c: ConnNum) returns (ghost order: seq<NodeKey>)
      requires Valid() && c in conns && conns[c].canMesh
      modifies this
      ensures Valid()
      ensures S() == Machine.Step(old(S()), Machine.WatchConns(c, order))
      ensures Elems(order) == clients.Keys && Once(order)
    {
      ActiveFacts(S());
      var events;
      events, order := Announcements();
      Machine.StepReachable(S(), Machine.WatchConns(c, order));
      if conns[c].key == publicKey {
        return;
      }
      Enroll(c, events);
    }

    /** Writes as many pending events as the buffer has room for. `available` gives the room the
        buffer reports before each frame, `fails` whether writing a frame fails. */
    method SendMeshUpdates(c: ConnNum, available: nat -> int, fails: nat -> bool) returns (n: nat, failed: bool)
      requires Valid() && c in watchers
      modifies this
      ensures Valid()
      ensures n <= |Watch.Events(old(peerStateChange), c)|
      ensures S() == Machine.Step(old(S()), Machine.SendMesh(c, n, failed))
      ensures forall i :: 0 <= i < n ==> Watch.RoomSeen(available(i)) && !fails(i)
      ensures !failed && n < |Watch.Events(old(peerStateChange), c)| ==> !Watch.RoomSeen(available(n))
      ensures failed ==> n < |Watch.Events(old(peerStateChange), c)| && fails(n)
    {
      var pending := Watch.Events(peerStateChange, c);
      n, failed := WriteEvents(pending, available, fails);
      Machine.StepReachable(S(), Machine.SendMesh(c, n, failed));
      written := written[c := Watch.Events(written, c) + pending[..n]];
      peerStateChange := peerStateChange[c := if failed then pending else pending[n..]];
    }

    /** Decides where a client's packet goes and records the route. */
    method RouteSendPacket(c: ConnNum, dst: NodeKey) returns (d: Machine.Decision)
      requires Valid() && c in conns
      modifies this
      ensures Valid() && S() == Machine.Step(old(S()), Machine.SendPacket(c, dst))
      ensures d == Machine.RouteSend(old(S()), dst)
    {
      Machine.StepReachable(S(), Machine.SendPacket(c, dst));
      var src := conns[c].key;
      var dstLen := 0;
      var active: Option<ConnNum> := None;
      if dst in clients {
        dstLen := |Clients.Members(clients[dst])|;
        active := Clients.Active(conns, clients[dst]);
      }
      if active.Some? {
        NotePeerSend(src, dst, active.value);
        return Machine.Deliver(active.value);
      }
      if dstLen < 1 && dst in clientsMesh && Mesh.Used(clientsMesh[dst]).Some? {
        return Machine.Forward(Mesh.Used(clientsMesh[dst]).value);
      }
      return if dstLen > 1 then Machine.DropDup else Machine.DropUnknown;
    }

    /** Decides where a packet forwarded by a mesh peer goes and records the route. */
    method RouteForwardPacket(src: NodeKey, dst: NodeKey) returns (d: Machine.Decision)
      requires Valid()
      modifies this
      ensures Valid() && S() == Machine.Step(old(S()), Machine.ForwardPacket(src, dst))
      ensures d == Machine.RouteForwarded(old(S()), dst)
    {
      Machine.StepReachable(S(), Machine.ForwardPacket(src, dst));
      var dstLen := 0;
      var active: Option<ConnNum> := None;
      if dst in clients {
        dstLen := |Clients.Members(clients[dst])|;
        active := Clients.Active(conns, clients[dst]);
      }
      if active.Some? {
        NotePeerSend(src, dst, active.value);
        return Machine.Deliver(active.value);
      }
      return if dstLen > 1 then Machine.DropDup else Machine.DropUnknown;
    }

    method NotePeerSend(src: NodeKey, dst: NodeKey, c: ConnNum)
      modifies this`sentTo, this`log
      ensures S() == Machine.NoteRoute(old(S()), src, dst, Machine.Deliver(c))
    {
      if src !in sentTo {
        sentTo := sentTo[src := map[]];
      }
      var peers: map<NodeKey, ConnNum> := sentTo[src];
      sentTo := sentTo[src := peers[dst := c]];
      log := log + [Routes.Routed(src, dst, c)];
    }

    method AddPacketForwarder(dst: NodeKey, f: Fwd)
      requires Valid()
      modifies this
      ensures Valid() && S() == Machine.Step(old(S()), Machine.AddForwarder(dst, f))
    {
      Machine.StepReachable(S(), Machine.AddForwarder(dst, f));
      var e := Mesh.One(f);
      if dst in clientsMesh {
        var prev := clientsMesh[dst];
        assert clientsMesh == clientsMesh[dst := prev];
        match prev {
          case One(g) =>
            if g == f {
              return;
            }
            e := Mesh.Multi(g, map[g := 0, f := 1]);
            multiForwarderCreated := multiForwarderCreated + 1;
          case Multi(fwd, all) =>
            if f in all {
              return;
            }
            var max := Mesh.MaxIndex(all);
            Mesh.MaxUnique(all, max, Mesh.MaxOf(all));
            e := Mesh.Multi(fwd, all[f := (max + 1) % Mesh.INDEX_RANGE]);
          case Nil =>
        }
      }
      clientsMesh := clientsMesh[dst := e];
    }

    /** Removes a forwarder of a key that has several. */
    method RemoveOneOfSeveral(dst: NodeKey, f: Fwd) returns (ghost pick: Fwd)
      requires dst in clientsMesh && clientsMesh[dst].Multi? && Mesh.EntryOk(clientsMesh[dst])
      modifies this`clientsMesh, this`multiForwarderDeleted
      ensures S() == old(S()).(mesh := Mesh.RemoveForwarder(old(Region()), dst, f, pick, dst in clients))
    {
      var prev := clientsMesh[dst];
      var e, low := DeleteFrom(prev, f);
      pick := low;
      clientsMesh := clientsMesh[dst := e];
      if e.One? {
        multiForwarderDeleted := multiForwarderDeleted + 1;
      }
    }

    /** Removes the only forwarder of a key; if it is not `f`, counts the mistake. */
    method RemoveSingle(dst: NodeKey, f: Fwd) returns (requests: seq<ConnNum>)
      requires dst in clientsMesh && !clientsMesh[dst].Multi?
      requires Clients.Agree(clients, conns)
      modifies this`clientsMesh, this`removePktForwardOther, this`sentTo, this`log, this`gone
      ensures forall pick :: S() == Machine.StepRemoveForwarder(old(S()), dst, f, pick)
      ensures Requested(old(gone), gone, requests)
    {
      requests := [];
      NothingRequested(gone);
      if clientsMesh[dst] != Mesh.One(f) {
        removePktForwardOther := removePktForwardOther + 1;
      } else if dst in clients {
        clientsMesh := clientsMesh[dst := Mesh.Nil];
      } else {
        clientsMesh := clientsMesh - {dst};
        requests := NotePeerGoneFromRegion(dst);
      }
    }

    /** Removes a forwarder, whatever the entry. */
    method RemoveFromEntry(dst: NodeKey, f: Fwd) returns (requests: seq<ConnNum>, ghost pick: Fwd)
      requires dst in clientsMesh ==> Mesh.EntryOk(clientsMesh[dst])
      requires Clients.Agree(clients, conns)
      modifies this`clientsMesh, this`multiForwarderDeleted, this`removePktForwardOther, this`sentTo, this`log, this`gone
      ensures S() == Machine.StepRemoveForwarder(old(S()), dst, f, pick)
      ensures Requested(old(gone), gone, requests)
    {
      requests, pick := [], 0;
      NothingRequested(gone);
      if dst !in clientsMesh {
        return;
      }
      if clientsMesh[dst].Multi? {
        pick := RemoveOneOfSeveral(dst, f);
      } else {
        requests := RemoveSingle(dst, f);
      }
    }

    method RemovePacketForwarder(dst: NodeKey, f: Fwd) returns (requests: seq<ConnNum>, ghost pick: Fwd)
      requires Valid()
      modifies this
      ensures Valid() && S() == Machine.Step(old(S()), Machine.RemoveForwarder(dst, f, pick))
      ensures Requested(old(gone), gone, requests)
    {
      ghost var s := S();
      KeyFacts(s, dst);
      TableFacts(s);
      requests, pick := RemoveFromEntry(dst, f);
      Machine.StepReachable(s, Machine.RemoveForwarder(dst, f, pick));
    }
  }

  /** Writes events one by one until there is no room or a write fails. */
  method WriteEvents(pending: seq<Watch.PeerEvent>, available: nat -> int, fails: nat -> bool)
    returns (n: nat, failed: bool)
    ensures n <= |pending| && (failed ==> n < |pending| && fails(n))
    ensures forall i :: 0 <= i < n ==> Watch.RoomSeen(available(i)) && !fails(i)
    ensures !failed && n < |pending| ==> !Watch.RoomSeen(available(n))
  {
    n, failed := 0, false;
    while n < |pending| && Watch.RoomSeen(available(n))
      invariant n <= |pending|
      invariant forall i :: 0 <= i < n ==> Watch.RoomSeen(available(i)) && !fails(i)
    {
      if fails(n) {
        return n, true;
      }
      n := n + 1;
    }
  }

  /** Removes a forwarder from a multi entry; if it was the preferred one, another with the
      lowest index takes its place, and a single one left is handed back alone. */
  method DeleteFrom(e: Mesh.Entry, f: Fwd) returns (e': Mesh.Entry, low: Fwd)
    requires e.Multi? && |e.all| >= 2 && e.fwd in e.all
    ensures Mesh.CanPick(e, f, low) && e' == Mesh.RemoveFrom(e, f, low)
  {
    low := e.fwd;
    var all := e.all - {f};
    if f !in e.all {
      assert all == e.all;
      return e, low;
    }
    assert all.Keys == e.all.Keys - {f};
    assert |all| == |e.all| - 1;
    var fwd := e.fwd;
    if f == e.fwd {
      low := Mesh.LowestFwd(all);
      fwd := low;
    }
    if |all| == 1 {
      return Mesh.One(Mesh.OnlyKey(all)), low;
    }
    return Mesh.Multi(fwd, all), low;
  }
}
