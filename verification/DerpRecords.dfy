/** What the server keeps of a connection, and some of its counters, told from the history of a run. */
module DerpRecords {
  import opened Wrappers
  import opened DerpTypes
  import opened DerpServer

  datatype Registration = Registration(key: NodeKey, canMesh: bool, addr: AddrPort)

  /** How number `x` registered in a run. */
  ghost function RegisteredAs(policy: DupPolicy, publicKey: NodeKey, events: seq<Event>, x: ConnNum): Option<Registration> {
    if events == [] then None
    else
      var before, e := events[..|events| - 1], events[|events| - 1];
      if e.Register? && e.c == x && x in Run(policy, publicKey, before).accepted
      then Some(Registration(e.key, e.canMesh, e.addr))
      else RegisteredAs(policy, publicKey, before, x)
  }

  /** What the client of connection `x` said last about this server being its home. */
  ghost function SaidHome(policy: DupPolicy, publicKey: NodeKey, events: seq<Event>, x: ConnNum): bool {
    if events == [] then false
    else
      var before, e := events[..|events| - 1], events[|events| - 1];
      var s := Run(policy, publicKey, before);
      if e.Register? && e.c == x && x in s.accepted then false
      else if e.NotePreferred? && e.c == x && x in s.table.conns then e.v
      else SaidHome(policy, publicKey, before, x)
  }

  /** What is kept of a connection from registration to the end. */
  function Kept(conn: Clients.Conn): (Registration, bool) {
    (Registration(conn.key, conn.canMesh, conn.addr), conn.preferred)
  }

  lemma RegisterKept(t: Clients.Table, c: ConnNum, key: NodeKey, canMesh: bool, addr: AddrPort, x: ConnNum)
    requires Clients.Agree(t.clients, t.conns) && c !in t.conns && (x == c || x in t.conns)
    ensures var t' := Clients.Register(t, c, key, canMesh, addr);
      x in t'.conns && Kept(t'.conns[x]) == if x == c then (Registration(key, canMesh, addr), false) else Kept(t.conns[x])
  {
    if key in t.clients {
      assert Clients.SetOk(key, t.clients[key], t.conns);
    }
  }

  lemma OthersKept(t: Clients.Table, policy: DupPolicy, c: ConnNum, x: ConnNum)
    requires c in t.conns && x in t.conns
    ensures x != c ==> x in Clients.Unregister(t, c).conns && Kept(Clients.Unregister(t, c).conns[x]) == Kept(t.conns[x])
    ensures var t' := Clients.NoteActivity(t, policy, c); x in t'.conns && Kept(t'.conns[x]) == Kept(t.conns[x])
  {
  }

  lemma PreferredKept(t: Clients.Table, c: ConnNum, v: bool, x: ConnNum)
    requires c in t.conns && x in t.conns
    ensures var t' := Clients.SetPreferred(t, c, v);
      x in t'.conns && Kept(t'.conns[x]) == if x == c then (Kept(t.conns[x]).0, v) else Kept(t.conns[x])
  {
  }

  /** What an event makes of what is kept of `x`. */
  ghost function KeptAfter(s: Srv, e: Event, x: ConnNum, kept: (Registration, bool)): (Registration, bool) {
    if e.Register? && e.c == x && x in s.accepted then (Registration(e.key, e.canMesh, e.addr), false)
    else if e.NotePreferred? && e.c == x && x in s.table.conns then (kept.0, e.v)
    else kept
  }

  /** In table `t`, what is kept of `x` is what the event made of it. */
  ghost predicate KeptBy(s: Srv, e: Event, t: Clients.Table, x: ConnNum)
    requires x in s.table.conns
  {
    x in t.conns && Kept(t.conns[x]) == KeptAfter(s, e, x, Kept(s.table.conns[x]))
  }

  lemma RegisterKeptBy(s: Srv, c: ConnNum, key: NodeKey, canMesh: bool, addr: AddrPort, x: ConnNum)
    requires Clients.Agree(s.table.clients, s.table.conns) && Numbered(s) && c in s.accepted && x in s.table.conns
    ensures KeptBy(s, Register(c, key, canMesh, addr), Clients.Register(s.table, c, key, canMesh, addr), x)
  {
    RegisterKept(s.table, c, key, canMesh, addr, x);
  }

  lemma OthersKeptBy(s: Srv, c: ConnNum, v: bool, x: ConnNum)
    requires Clients.Agree(s.table.clients, s.table.conns) && c in s.table.conns && x in s.table.conns
    ensures x in Clients.Unregister(s.table, c).conns ==> KeptBy(s, Unregister(c), Clients.Unregister(s.table, c), x)
    ensures KeptBy(s, Activity(c), Clients.NoteActivity(s.table, s.policy, c), x)
    ensures KeptBy(s, NotePreferred(c, v), Clients.SetPreferred(s.table, c, v), x)
  {
    Clients.UnregisterKeys(s.table, c);
    OthersKept(s.table, s.policy, c, x);
    PreferredKept(s.table, c, v, x);
  }

  lemma SameKeptBy(s: Srv, e: Event, x: ConnNum)
    requires x in s.table.conns
    requires (e.Register? ==> e.c !in s.accepted) && (e.NotePreferred? ==> e.c !in s.table.conns)
    ensures KeptBy(s, e, s.table, x)
  {
  }

  lemma TableKept(s: Srv, e: Event, x: ConnNum)
    requires Clients.Agree(s.table.clients, s.table.conns) && Numbered(s) && x in s.table.conns
    requires x in TableAfter(s, e).conns
    ensures KeptBy(s, e, TableAfter(s, e), x)
  {
    match e
    case Register(c, key, canMesh, addr) =>
      if c in s.accepted { RegisterKeptBy(s, c, key, canMesh, addr, x); } else { SameKeptBy(s, e, x); }
    case Unregister(c) => if c in s.table.conns { OthersKeptBy(s, c, false, x); } else { SameKeptBy(s, e, x); }
    case Activity(c) =>
      if c in s.table.conns && c in s.noting { OthersKeptBy(s, c, false, x); } else { SameKeptBy(s, e, x); }
    case NotePreferred(c, v) => if c in s.table.conns { OthersKeptBy(s, c, v, x); } else { SameKeptBy(s, e, x); }
    case _ => SameKeptBy(s, e, x);
  }

  lemma NewKept(s: Srv, e: Event, x: ConnNum)
    requires Clients.Agree(s.table.clients, s.table.conns) && Numbered(s) && x !in s.table.conns
    requires x in Step(s, e).table.conns
    ensures e.Register? && e.c == x && x in s.accepted
    ensures Kept(Step(s, e).table.conns[x]) == (Registration(e.key, e.canMesh, e.addr), false)
  {
    StepConns(s, e);
    StepTable(s, e);
    RegisterKept(s.table, x, e.key, e.canMesh, e.addr, x);
  }

  /** At every point of every run a connection has the key, the rights and the address it registered
      with, and counts as home exactly if its client said so last. */
  lemma {:induction false} ConnectionsAreAsRegistered(policy: DupPolicy, publicKey: NodeKey, events: seq<Event>, x: ConnNum)
    requires x in Run(policy, publicKey, events).table.conns
    ensures var conn := Run(policy, publicKey, events).table.conns[x];
      && RegisteredAs(policy, publicKey, events, x) == Some(Registration(conn.key, conn.canMesh, conn.addr))
      && conn.preferred == SaidHome(policy, publicKey, events, x)
    decreases |events|
  {
    var before, e := events[..|events| - 1], events[|events| - 1];
    var s := Run(policy, publicKey, before);
    RunAgrees(policy, publicKey, before);
    if x in s.table.conns {
      ConnectionsAreAsRegistered(policy, publicKey, before, x);
      StepTable(s, e);
      TableKept(s, e, x);
    } else {
      NewKept(s, e, x);
    }
  }

  // ----- Routes -----

  /** The key, if any, that an event takes out of the region. */
  ghost function KeyLeaving(s: Srv, e: Event): Option<NodeKey> {
    var k := if e.Unregister? && e.c in s.table.conns then Some(s.table.conns[e.c].key)
             else if e.RemoveForwarder? then Some(e.dst) else None;
    if k.Some? && k.value in s.mesh.mesh && k.value !in Step(s, e).mesh.mesh then k else None
  }

  /** What an event adds to the history of routes: a packet from a connection goes out under the key
      of that connection, a mesh peer's as it says, both to where they are delivered. */
  ghost function RoutedBy(s: Srv, e: Event): seq<Routes.RouteEvent> {
    if e.SendPacket? && e.c in s.table.conns && RouteSend(s, e.dst).Deliver?
    then [Routes.Routed(s.table.conns[e.c].key, e.dst, RouteSend(s, e.dst).c)]
    else if e.ForwardPacket? && RouteForwarded(s, e.dst).Deliver?
    then [Routes.Routed(e.src, e.dst, RouteForwarded(s, e.dst).c)]
    else if KeyLeaving(s, e).Some? then [Routes.Left(KeyLeaving(s, e).value)]
    else []
  }

  ghost function RouteHistory(policy: DupPolicy, publicKey: NodeKey, events: seq<Event>): seq<Routes.RouteEvent> {
    if events == [] then []
    else
      var before := events[..|events| - 1];
      RouteHistory(policy, publicKey, before) + RoutedBy(Run(policy, publicKey, before), events[|events| - 1])
  }

  lemma UnregisterRoutes(s: Srv, c: ConnNum)
    requires c in s.table.conns
    ensures StepUnregister(s, c).log == s.log + RoutedBy(s, Unregister(c))
  {
    var key := s.table.conns[c].key;
    assert Step(s, Unregister(c)) == StepUnregister(s, c);
    assert LastInRegion(s, c) <==> key in s.mesh.mesh && key !in StepUnregister(s, c).mesh.mesh;
    assert s.log + [] == s.log;
  }

  lemma RemoveForwarderRoutes(s: Srv, dst: NodeKey, f: Fwd, pick: Fwd)
    ensures StepRemoveForwarder(s, dst, f, pick).log == s.log + RoutedBy(s, RemoveForwarder(dst, f, pick))
  {
    assert Step(s, RemoveForwarder(dst, f, pick)) == StepRemoveForwarder(s, dst, f, pick);
    assert s.log + [] == s.log;
  }

  lemma PacketRoutes(s: Srv, e: Event)
    requires !e.Unregister? && !e.RemoveForwarder?
    ensures Step(s, e).log == s.log + RoutedBy(s, e)
  {
    assert s.log + [] == s.log;
  }

  lemma StepRoutes(s: Srv, e: Event)
    ensures Step(s, e).log == s.log + RoutedBy(s, e)
  {
    match e
    case Unregister(c) =>
      if c in s.table.conns {
        UnregisterRoutes(s, c);
      } else {
        assert s.log + [] == s.log;
      }
    case RemoveForwarder(dst, f, pick) => RemoveForwarderRoutes(s, dst, f, pick);
    case _ => PacketRoutes(s, e);
  }

  /** Over every run the record of who last sent to whom, which decides who is told that a source is
      gone, says what the run says. */
  lemma {:induction false} RoutesAreRecorded(policy: DupPolicy, publicKey: NodeKey, events: seq<Event>, src: NodeKey, dst: NodeKey)
    ensures var s := Run(policy, publicKey, events);
      && s.log == RouteHistory(policy, publicKey, events)
      && Routes.Lookup(s.sent, src, dst) == Routes.Latest(RouteHistory(policy, publicKey, events), src, dst)
    decreases |events|
  {
    RunFaithful(policy, publicKey, events);
    if events != [] {
      RoutesAreRecorded(policy, publicKey, events[..|events| - 1], src, dst);
      StepRoutes(Run(policy, publicKey, events[..|events| - 1]), events[|events| - 1]);
    }
  }

  // ----- Counters -----

  /** The event is a registration under a key that is connected already. */
  ghost predicate Doubles(s: Srv, e: Event) {
    e.Register? && e.c in s.accepted && e.key in s.table.clients
  }

  /** The event removes a forwarder that is not the one of a key which has at most one. */
  ghost predicate RemovesStranger(s: Srv, e: Event) {
    e.RemoveForwarder? && e.dst in s.mesh.mesh && !s.mesh.mesh[e.dst].Multi? && s.mesh.mesh[e.dst] != Mesh.One(e.f)
  }

  ghost function Doubled(policy: DupPolicy, publicKey: NodeKey, events: seq<Event>): nat {
    if events == [] then 0
    else
      var before := events[..|events| - 1];
      Doubled(policy, publicKey, before) + if Doubles(Run(policy, publicKey, before), events[|events| - 1]) then 1 else 0
  }

  ghost function StrangersRemoved(policy: DupPolicy, publicKey: NodeKey, events: seq<Event>): nat {
    if events == [] then 0
    else
      var before := events[..|events| - 1];
      StrangersRemoved(policy, publicKey, before) + if RemovesStranger(Run(policy, publicKey, before), events[|events| - 1]) then 1 else 0
  }

  lemma DupTotalStep(s: Srv, e: Event)
    ensures TableAfter(s, e).dupTotal == s.table.dupTotal + if Doubles(s, e) then 1 else 0
  {
  }

  lemma OtherStep(s: Srv, e: Event)
    ensures Step(s, e).mesh.other == s.mesh.other + if RemovesStranger(s, e) then 1 else 0
  {
  }

  /** Over every run: the total of double connections counts the registrations that met a connected
      key, and the counter of odd removals those of strangers. */
  lemma {:induction false} CountersCount(policy: DupPolicy, publicKey: NodeKey, events: seq<Event>)
    ensures var s := Run(policy, publicKey, events);
      s.table.dupTotal == Doubled(policy, publicKey, events) && s.mesh.other == StrangersRemoved(policy, publicKey, events)
    decreases |events|
  {
    if events != [] {
      var before, e := events[..|events| - 1], events[|events| - 1];
      CountersCount(policy, publicKey, before);
      DupTotalStep(Run(policy, publicKey, before), e);
      StepTable(Run(policy, publicKey, before), e);
      OtherStep(Run(policy, publicKey, before), e);
    }
  }
}
