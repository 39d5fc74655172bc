/** The relay server as a state machine over the critical sections of its lock. */
module DerpServer {
  import opened Wrappers
  import MapSum
  import opened DerpTypes
  import Dup = DerpDup
  import Clients = DerpClients
  import Mesh = DerpMesh
  import Watch = DerpWatch
  import Routes = DerpRoutes

  /** A source that left the region and the connections asked to tell their client so. */
  datatype Gone = Gone(src: NodeKey, targets: set<ConnNum>)

  /** The server state. `accepted` holds connection numbers handed out and not yet registered;
      `noting` holds connections whose reader is on its way to the lock to note activity;
      `log` and `gone` are histories of what was routed and announced. */
  datatype Srv = Srv(
    policy: DupPolicy, publicKey: NodeKey, accepts: nat, accepted: set<ConnNum>, noting: set<ConnNum>,
    table: Clients.Table, mesh: Mesh.MeshTable, watch: Watch.Watch,
    sent: Routes.Sent, log: seq<Routes.RouteEvent>, gone: seq<Gone>)

  datatype Event =
    | Accept
    | Register(c: ConnNum, key: NodeKey, canMesh: bool, addr: AddrPort)
    | Unregister(c: ConnNum)
    | Hear(c: ConnNum)
    | Activity(c: ConnNum)
    | NotePreferred(c: ConnNum, v: bool)
    | WatchConns(c: ConnNum, order: seq<NodeKey>)
    | SendMesh(c: ConnNum, n: nat, failed: bool)
    | SendPacket(c: ConnNum, dst: NodeKey)
    | ForwardPacket(src: NodeKey, dst: NodeKey)
    | AddForwarder(dst: NodeKey, f: Fwd)
    | RemoveForwarder(dst: NodeKey, f: Fwd, pick: Fwd)

  function Start(policy: DupPolicy, publicKey: NodeKey): Srv {
    Srv(policy, publicKey, 0, {}, {}, Clients.EMPTY_TABLE, Mesh.EMPTY_MESH, Watch.NO_WATCH, map[], [], [])
  }

  // ----- Routing -----

  datatype Decision = Deliver(c: ConnNum) | Forward(f: Fwd) | DropUnknown | DropDup

  function Local(t: Clients.Table, dst: NodeKey): Option<ConnNum> {
    if dst in t.clients then Clients.Active(t.conns, t.clients[dst]) else None
  }

  function LocalCount(t: Clients.Table, dst: NodeKey): nat {
    if dst in t.clients then |Clients.Members(t.clients[dst])| else 0
  }

  /** Where a client's packet for `dst` goes. */
  function RouteSend(s: Srv, dst: NodeKey): Decision {
    if Local(s.table, dst).Some? then Deliver(Local(s.table, dst).value)
    else if LocalCount(s.table, dst) < 1 && Mesh.Used(Mesh.EntryOf(s.mesh, dst)).Some?
    then Forward(Mesh.Used(Mesh.EntryOf(s.mesh, dst)).value)
    else if LocalCount(s.table, dst) > 1 then DropDup
    else DropUnknown
  }

  /** Where a packet forwarded by a mesh peer goes: never on to another peer. */
  function RouteForwarded(s: Srv, dst: NodeKey): Decision {
    if Local(s.table, dst).Some? then Deliver(Local(s.table, dst).value)
    else if LocalCount(s.table, dst) > 1 then DropDup
    else DropUnknown
  }

  function NoteRoute(s: Srv, src: NodeKey, dst: NodeKey, d: Decision): Srv {
    if d.Deliver? then
      s.(sent := Routes.Note(s.sent, src, dst, d.c), log := s.log + [Routes.Routed(src, dst, d.c)])
    else s
  }

  // ----- Leaving the region -----

  /** The registered connections that `src` last sent to. */
  function Targets(t: Clients.Table, sent: Routes.Sent, src: NodeKey): set<ConnNum> {
    set c | c in t.conns && Routes.Lookup(sent, src, t.conns[c].key) == Some(c)
  }

  function LeaveRegion(s: Srv, src: NodeKey): Srv {
    s.(sent := Routes.Forget(s.sent, src), log := s.log + [Routes.Left(src)],
       gone := s.gone + [Gone(src, Targets(s.table, s.sent, src))])
  }

  // ----- Steps -----

  function StepRegister(s: Srv, c: ConnNum, key: NodeKey, canMesh: bool, addr: AddrPort): Srv {
    s.(accepted := s.accepted - {c},
       table := Clients.Register(s.table, c, key, canMesh, addr),
       mesh := Mesh.Join(s.mesh, key),
       watch := Watch.Broadcast(s.watch, Watch.PeerEvent(key, true, addr)))
  }

  const NO_ADDR := AddrPort("")

  /** `c` is the last connection of its key. */
  predicate LastOfKey(s: Srv, c: ConnNum)
    requires c in s.table.conns
  {
    var key := s.table.conns[c].key;
    key in s.table.clients && s.table.clients[key].Single?
  }

  /** The key of `c` leaves the region with it: no mesh peer has it either. */
  predicate LastInRegion(s: Srv, c: ConnNum)
    requires c in s.table.conns
  {
    var key := s.table.conns[c].key;
    LastOfKey(s, c) && key in s.mesh.mesh && s.mesh.mesh[key].Nil?
  }

  function WatchUnregister(s: Srv, c: ConnNum): Watch.Watch
    requires c in s.table.conns
  {
    var told :=
      if LastOfKey(s, c) then Watch.Broadcast(s.watch, Watch.PeerEvent(s.table.conns[c].key, false, NO_ADDR)) else s.watch;
    if s.table.conns[c].canMesh then Watch.Leave(told, c) else told
  }

  function StepUnregister(s: Srv, c: ConnNum): Srv
    requires c in s.table.conns
  {
    var key := s.table.conns[c].key;
    var s1 := s.(table := Clients.Unregister(s.table, c),
                 noting := s.noting - {c},
                 mesh := if LastOfKey(s, c) then Mesh.LeaveLocal(s.mesh, key) else s.mesh,
                 watch := WatchUnregister(s, c));
    if LastInRegion(s, c) then LeaveRegion(s1, key) else s1
  }

  /** An arrival event for each key that has an active connection, in the given order. */
  function Arrivals(t: Clients.Table, order: seq<NodeKey>): seq<Watch.PeerEvent> {
    if order == [] then []
    else
      var k := order[|order| - 1];
      var before := Arrivals(t, order[..|order| - 1]);
      if Local(t, k).Some? && Local(t, k).value in t.conns
      then before + [Watch.PeerEvent(k, true, t.conns[Local(t, k).value].addr)]
      else before
  }

  predicate CanWatch(s: Srv, c: ConnNum) {
    c in s.table.conns && s.table.conns[c].canMesh && s.table.conns[c].key != s.publicKey
  }

  function StepAccept(s: Srv): Srv {
    s.(accepts := s.accepts + 1, accepted := s.accepted + {s.accepts + 1})
  }

  /** The reader of `c` got a frame. Without the lock it looks whether `c` is a duplicate that is not
      disabled; only then does it go on to note activity. */
  function StepHear(s: Srv, c: ConnNum): Srv
    requires c in s.table.conns
  {
    if s.table.conns[c].isDup && !s.table.conns[c].isDisabled then s.(noting := s.noting + {c}) else s
  }

  /** Under the lock, perhaps much later, the activity is noted. */
  function StepActivity(s: Srv, c: ConnNum): Srv
    requires c in s.table.conns
  {
    s.(noting := s.noting - {c}, table := Clients.NoteActivity(s.table, s.policy, c))
  }

  function StepPreferred(s: Srv, c: ConnNum, v: bool): Srv
    requires c in s.table.conns
  {
    s.(table := Clients.SetPreferred(s.table, c, v))
  }

  function StepWatch(s: Srv, c: ConnNum, order: seq<NodeKey>): Srv {
    s.(watch := Watch.Enroll(s.watch, c, Arrivals(s.table, order)))
  }

  function StepDrain(s: Srv, c: ConnNum, n: nat, failed: bool): Srv
    requires n <= |Watch.Events(s.watch.pending, c)|
  {
    s.(watch := Watch.Drain(s.watch, c, n, failed))
  }

  ghost function StepAddForwarder(s: Srv, dst: NodeKey, f: Fwd): Srv {
    s.(mesh := Mesh.AddForwarder(s.mesh, dst, f))
  }

  /** An event that cannot happen in a state leaves it as it is. */
  ghost function Step(s: Srv, e: Event): Srv {
    match e
    case Accept => StepAccept(s)
    case Register(c, key, canMesh, addr) =>
      if c in s.accepted then StepRegister(s, c, key, canMesh, addr) else s
    case Unregister(c) => if c in s.table.conns then StepUnregister(s, c) else s
    case Hear(c) => if c in s.table.conns then StepHear(s, c) else s
    case Activity(c) => if c in s.table.conns && c in s.noting then StepActivity(s, c) else s
    case NotePreferred(c, v) => if c in s.table.conns then StepPreferred(s, c, v) else s
    case WatchConns(c, order) =>
      if CanWatch(s, c) && Elems(order) == s.table.clients.Keys then StepWatch(s, c, order) else s
    case SendMesh(c, n, failed) =>
      if c in s.watch.watchers && n <= |Watch.Events(s.watch.pending, c)| then StepDrain(s, c, n, failed) else s
    case SendPacket(c, dst) =>
      if c in s.table.conns then NoteRoute(s, s.table.conns[c].key, dst, RouteSend(s, dst)) else s
    case ForwardPacket(src, dst) => NoteRoute(s, src, dst, RouteForwarded(s, dst))
    case AddForwarder(dst, f) => StepAddForwarder(s, dst, f)
    case RemoveForwarder(dst, f, pick) => StepRemoveForwarder(s, dst, f, pick)
  }

  ghost function StepRemoveForwarder(s: Srv, dst: NodeKey, f: Fwd, pick: Fwd): Srv {
    var local := dst in s.table.clients;
    var s1 := s.(mesh := Mesh.RemoveForwarder(s.mesh, dst, f, pick, local));
    if dst in s.mesh.mesh && s.mesh.mesh[dst] == Mesh.One(f) && !local then LeaveRegion(s1, dst) else s1
  }

  ghost function Run(policy: DupPolicy, publicKey: NodeKey, events: seq<Event>): Srv {
    if events == [] then Start(policy, publicKey)
    else Step(Run(policy, publicKey, events[..|events| - 1]), events[|events| - 1])
  }

  // ----- The invariant -----

  /** Connection numbers are never used twice. */
  ghost predicate Numbered(s: Srv) {
    && (forall c :: c in s.accepted ==> c <= s.accepts && c !in s.table.conns)
    && (forall c :: c in s.table.conns ==> c <= s.accepts)
  }

  ghost predicate WatchersOk(s: Srv) {
    forall c :: c in s.watch.watchers ==> c in s.table.conns && s.table.conns[c].canMesh
  }

  /** Under the last-writer policy nobody is disabled. */
  ghost predicate Enabled(s: Srv) {
    s.policy == LastWriterIsActive ==> Clients.NoneDisabled(s.table)
  }

  ghost predicate Inv(s: Srv) {
    && Clients.Inv(s.table)
    && Mesh.Inv(s.mesh, s.table.clients.Keys)
    && Routes.Faithful(s.sent, s.log)
    && Numbered(s) && WatchersOk(s) && Enabled(s)
  }

  lemma RegisterNumbers(s: Srv, c: ConnNum, key: NodeKey, canMesh: bool, addr: AddrPort)
    requires Numbered(s) && WatchersOk(s) && c in s.accepted
    requires Clients.Agree(s.table.clients, s.table.conns)
    ensures Numbered(StepRegister(s, c, key, canMesh, addr)) && WatchersOk(StepRegister(s, c, key, canMesh, addr))
  {
    Clients.RegisterKeys(s.table, c, key, canMesh, addr);
    Clients.RegisterOthers(s.table, c, key, canMesh, addr);
  }

  lemma RegisterTables(s: Srv, c: ConnNum, key: NodeKey, canMesh: bool, addr: AddrPort)
    requires Clients.Inv(s.table) && Mesh.Inv(s.mesh, s.table.clients.Keys) && c !in s.table.conns
    ensures var s' := StepRegister(s, c, key, canMesh, addr);
      Clients.Inv(s'.table) && Mesh.Inv(s'.mesh, s'.table.clients.Keys)
  {
    Clients.RegisterKeepsInv(s.table, c, key, canMesh, addr);
    Clients.RegisterKeys(s.table, c, key, canMesh, addr);
    Mesh.JoinKeepsInv(s.mesh, s.table.clients.Keys, key);
  }

  lemma RegisterKeeps(s: Srv, c: ConnNum, key: NodeKey, canMesh: bool, addr: AddrPort)
    requires Inv(s) && c in s.accepted
    ensures Inv(StepRegister(s, c, key, canMesh, addr))
  {
    RegisterTables(s, c, key, canMesh, addr);
    RegisterNumbers(s, c, key, canMesh, addr);
    Clients.RegisterKeys(s.table, c, key, canMesh, addr);
  }

  lemma UnregisterTables(s: Srv, c: ConnNum)
    requires Clients.Inv(s.table) && Mesh.Inv(s.mesh, s.table.clients.Keys) && c in s.table.conns
    ensures var s' := StepUnregister(s, c); Clients.Inv(s'.table) && Mesh.Inv(s'.mesh, s'.table.clients.Keys)
  {
    Clients.UnregisterKeepsInv(s.table, c);
    Clients.UnregisterKeys(s.table, c);
    Mesh.LeaveLocalKeepsInv(s.mesh, s.table.clients.Keys, s.table.conns[c].key);
  }

  lemma UnregisterNumbers(s: Srv, c: ConnNum)
    requires Numbered(s) && WatchersOk(s) && c in s.table.conns
    requires Clients.Agree(s.table.clients, s.table.conns)
    ensures Numbered(StepUnregister(s, c)) && WatchersOk(StepUnregister(s, c))
  {
    Clients.UnregisterKeys(s.table, c);
    Clients.UnregisterOthers(s.table, c);
  }

  lemma UnregisterKeeps(s: Srv, c: ConnNum)
    requires Inv(s) && c in s.table.conns
    ensures Inv(StepUnregister(s, c))
  {
    UnregisterTables(s, c);
    UnregisterNumbers(s, c);
    Clients.UnregisterKeys(s.table, c);
    Routes.ForgetFaithful(s.sent, s.log, s.table.conns[c].key);
  }

  lemma ArrivalPeers(events: seq<Watch.PeerEvent>, e: Watch.PeerEvent)
    ensures (set x | x in events + [e] :: x.peer) == (set x | x in events :: x.peer) + {e.peer}
  {
  }

  lemma WatchConnsKeeps(s: Srv, c: ConnNum, order: seq<NodeKey>)
    requires Inv(s) && CanWatch(s, c)
    ensures Inv(StepWatch(s, c, order))
  {
  }

  lemma RemoveForwarderKeeps(s: Srv, dst: NodeKey, f: Fwd, pick: Fwd)
    requires Inv(s)
    ensures Inv(StepRemoveForwarder(s, dst, f, pick))
  {
    Mesh.RemoveForwarderKeepsInv(s.mesh, s.table.clients.Keys, dst, f, pick);
    Routes.ForgetFaithful(s.sent, s.log, dst);
  }

  lemma NoteRouteKeeps(s: Srv, src: NodeKey, dst: NodeKey, d: Decision)
    requires Inv(s)
    ensures Inv(NoteRoute(s, src, dst, d))
  {
    if d.Deliver? {
      Routes.NoteFaithful(s.sent, s.log, src, dst, d.c);
    }
  }

  lemma ActivityKeeps(s: Srv, c: ConnNum)
    requires Inv(s) && c in s.table.conns
    ensures Inv(StepActivity(s, c))
  {
    Clients.NoteActivityKeepsInv(s.table, s.policy, c);
    Clients.NoteActivityKeys(s.table, s.policy, c);
    Clients.NoteActivityOthers(s.table, s.policy, c);
  }

  lemma NotePreferredKeeps(s: Srv, c: ConnNum, v: bool)
    requires Inv(s) && c in s.table.conns
    ensures Inv(StepPreferred(s, c, v))
  {
    Clients.SetPreferredKeepsInv(s.table, c, v);
    Clients.SetPreferredOthers(s.table, c, v);
  }

  lemma SendMeshKeeps(s: Srv, c: ConnNum, n: nat, failed: bool)
    requires Inv(s) && n <= |Watch.Events(s.watch.pending, c)|
    ensures Inv(StepDrain(s, c, n, failed))
  {
  }

  lemma AddForwarderKeeps(s: Srv, dst: NodeKey, f: Fwd)
    requires Inv(s)
    ensures Inv(StepAddForwarder(s, dst, f))
  {
    Mesh.AddForwarderKeepsInv(s.mesh, s.table.clients.Keys, dst, f);
  }

  lemma AcceptKeeps(s: Srv)
    requires Inv(s)
    ensures Inv(StepAccept(s))
  {
  }

  lemma HearKeeps(s: Srv, c: ConnNum)
    requires Inv(s) && c in s.table.conns
    ensures Inv(StepHear(s, c))
  {
  }

  /** What the steps are, without regard to the invariant. */
  lemma StepIs(s: Srv, c: ConnNum, key: NodeKey, canMesh: bool, addr: AddrPort, v: bool)
    ensures Step(s, Register(c, key, canMesh, addr)) == if c in s.accepted then StepRegister(s, c, key, canMesh, addr) else s
    ensures Step(s, Unregister(c)) == if c in s.table.conns then StepUnregister(s, c) else s
    ensures Step(s, NotePreferred(c, v)) == if c in s.table.conns then StepPreferred(s, c, v) else s
    ensures Step(s, SendPacket(c, key)) ==
      if c in s.table.conns then NoteRoute(s, s.table.conns[c].key, key, RouteSend(s, key)) else s
  {
  }

  lemma ForwardStepIs(s: Srv, src: NodeKey, dst: NodeKey, f: Fwd, pick: Fwd)
    ensures Step(s, ForwardPacket(src, dst)) == NoteRoute(s, src, dst, RouteForwarded(s, dst))
    ensures Step(s, AddForwarder(dst, f)) == StepAddForwarder(s, dst, f)
    ensures Step(s, RemoveForwarder(dst, f, pick)) == StepRemoveForwarder(s, dst, f, pick)
  {
  }

  lemma WatchStepIs(s: Srv, c: ConnNum, order: seq<NodeKey>, n: nat, failed: bool)
    ensures Step(s, WatchConns(c, order)) ==
      if CanWatch(s, c) && Elems(order) == s.table.clients.Keys then StepWatch(s, c, order) else s
    ensures Step(s, SendMesh(c, n, failed)) ==
      if c in s.watch.watchers && n <= |Watch.Events(s.watch.pending, c)| then StepDrain(s, c, n, failed) else s
    ensures Step(s, Hear(c)) == if c in s.table.conns then StepHear(s, c) else s
    ensures Step(s, Activity(c)) == if c in s.table.conns && c in s.noting then StepActivity(s, c) else s
  {
  }

  lemma RegisterStep(s: Srv, c: ConnNum, key: NodeKey, canMesh: bool, addr: AddrPort)
    requires Inv(s)
    ensures Inv(Step(s, Register(c, key, canMesh, addr)))
  {
    StepIs(s, c, key, canMesh, addr, false);
    if c in s.accepted {
      RegisterKeeps(s, c, key, canMesh, addr);
    }
  }

  lemma UnregisterStep(s: Srv, c: ConnNum)
    requires Inv(s)
    ensures Inv(Step(s, Unregister(c)))
  {
    StepIs(s, c, s.publicKey, false, NO_ADDR, false);
    if c in s.table.conns {
      UnregisterKeeps(s, c);
    }
  }

  lemma ActivitySteps(s: Srv, c: ConnNum)
    requires Inv(s)
    ensures Inv(Step(s, Hear(c))) && Inv(Step(s, Activity(c)))
  {
    WatchStepIs(s, c, [], 0, false);
    if c in s.table.conns {
      HearKeeps(s, c);
      ActivityKeeps(s, c);
    }
  }

  lemma PreferredStep(s: Srv, c: ConnNum, v: bool)
    requires Inv(s)
    ensures Inv(Step(s, NotePreferred(c, v)))
  {
    StepIs(s, c, s.publicKey, false, NO_ADDR, v);
    if c in s.table.conns {
      NotePreferredKeeps(s, c, v);
    }
  }

  lemma WatchStep(s: Srv, c: ConnNum, order: seq<NodeKey>)
    requires Inv(s)
    ensures Inv(Step(s, WatchConns(c, order)))
  {
    WatchStepIs(s, c, order, 0, false);
    if CanWatch(s, c) { WatchConnsKeeps(s, c, order); }
  }

  lemma SendMeshStep(s: Srv, c: ConnNum, n: nat, failed: bool)
    requires Inv(s)
    ensures Inv(Step(s, SendMesh(c, n, failed)))
  {
    WatchStepIs(s, c, [], n, failed);
    if n <= |Watch.Events(s.watch.pending, c)| { SendMeshKeeps(s, c, n, failed); }
  }

  lemma SendPacketStep(s: Srv, c: ConnNum, dst: NodeKey)
    requires Inv(s)
    ensures Inv(Step(s, SendPacket(c, dst)))
  {
    StepIs(s, c, dst, false, NO_ADDR, false);
    if c in s.table.conns {
      NoteRouteKeeps(s, s.table.conns[c].key, dst, RouteSend(s, dst));
    }
  }

  lemma ForwardPacketStep(s: Srv, src: NodeKey, dst: NodeKey)
    requires Inv(s)
    ensures Inv(Step(s, ForwardPacket(src, dst)))
  {
    ForwardStepIs(s, src, dst, 0, 0);
    NoteRouteKeeps(s, src, dst, RouteForwarded(s, dst));
  }

  lemma ForwarderSteps(s: Srv, dst: NodeKey, f: Fwd, pick: Fwd)
    requires Inv(s)
    ensures Inv(Step(s, AddForwarder(dst, f))) && Inv(Step(s, RemoveForwarder(dst, f, pick)))
  {
    ForwardStepIs(s, dst, dst, f, pick);
    AddForwarderKeeps(s, dst, f);
    RemoveForwarderKeeps(s, dst, f, pick);
  }

  lemma AcceptStep(s: Srv)
    requires Inv(s)
    ensures Inv(Step(s, Accept))
  {
    AcceptKeeps(s);
  }

  /** Every step keeps the invariant. */
  lemma StepKeepsInv(s: Srv, e: Event)
    requires Inv(s)
    ensures Inv(Step(s, e))
  {
    match e
    case Accept => AcceptStep(s);
    case Register(c, key, canMesh, addr) => RegisterStep(s, c, key, canMesh, addr);
    case Unregister(c) => UnregisterStep(s, c);
    case Hear(c) => ActivitySteps(s, c);
    case Activity(c) => ActivitySteps(s, c);
    case NotePreferred(c, v) => PreferredStep(s, c, v);
    case WatchConns(c, order) => WatchStep(s, c, order);
    case SendMesh(c, n, failed) => SendMeshStep(s, c, n, failed);
    case SendPacket(c, dst) => SendPacketStep(s, c, dst);
    case ForwardPacket(src, dst) => ForwardPacketStep(s, src, dst);
    case AddForwarder(dst, f) => ForwarderSteps(s, dst, f, f);
    case RemoveForwarder(dst, f, pick) => ForwarderSteps(s, dst, f, pick);
  }

  lemma StepKeepsNames(s: Srv, e: Event)
    ensures Step(s, e).policy == s.policy && Step(s, e).publicKey == s.publicKey
  {
  }

  lemma StartTables()
    ensures Clients.Inv(Clients.EMPTY_TABLE) && Mesh.Inv(Mesh.EMPTY_MESH, {})
  {
  }

  lemma StartRoutes()
    ensures Routes.Faithful(map[], [])
  {
  }

  /** A server with nothing connected satisfies the invariant if its tables do. */
  lemma IdleInv(s: Srv)
    requires Clients.Inv(s.table) && Mesh.Inv(s.mesh, s.table.clients.Keys) && Routes.Faithful(s.sent, s.log)
    requires s.table.conns == map[] && s.accepted == {} && s.watch.watchers == {}
    ensures Inv(s)
  {
  }

  lemma StartInv(policy: DupPolicy, publicKey: NodeKey)
    ensures Inv(Start(policy, publicKey))
  {
    StartTables();
    StartRoutes();
    assert Clients.EMPTY_TABLE.clients.Keys == {};
    IdleInv(Start(policy, publicKey));
  }

  /** Every reachable state satisfies the invariant. */
  lemma {:induction false} RunKeepsInv(policy: DupPolicy, publicKey: NodeKey, events: seq<Event>)
    ensures Inv(Run(policy, publicKey, events)) && Run(policy, publicKey, events).policy == policy
    decreases |events|
  {
    if events == [] {
      StartInv(policy, publicKey);
    } else {
      var before, e := Run(policy, publicKey, events[..|events| - 1]), events[|events| - 1];
      RunKeepsInv(policy, publicKey, events[..|events| - 1]);
      StepKeepsInv(before, e);
      StepKeepsNames(before, e);
    }
  }

  /** `states` are the states that a run passes through. */
  ghost predicate Passes(states: seq<Srv>, events: seq<Event>) {
    && |states| == |events| + 1
    && states[0] == Start(states[0].policy, states[0].publicKey)
    && forall i, j :: 0 <= i < |events| && j == i + 1 ==> states[j] == Step(states[i], events[i])
  }

  ghost predicate Reachable(s: Srv) {
    exists states, events :: Passes(states, events) && states[|events|] == s
  }

  lemma StartReachable(policy: DupPolicy, publicKey: NodeKey)
    ensures Reachable(Start(policy, publicKey))
  {
    assert Passes([Start(policy, publicKey)], []);
  }

  lemma StepReachable(s: Srv, e: Event)
    requires Reachable(s)
    ensures Reachable(Step(s, e))
  {
    var states, events :| Passes(states, events) && states[|events|] == s;
    assert Passes(states + [Step(s, e)], events + [e]);
  }

  lemma {:induction false} PassesRun(states: seq<Srv>, events: seq<Event>)
    requires Passes(states, events)
    ensures states[|events|] == Run(states[0].policy, states[0].publicKey, events)
    decreases |events|
  {
    if events != [] {
      var n := |events| - 1;
      assert Passes(states[..|states| - 1], events[..n]);
      PassesRun(states[..|states| - 1], events[..n]);
    }
  }

  lemma ReachableRun(s: Srv) returns (events: seq<Event>)
    requires Reachable(s)
    ensures s == Run(s.policy, s.publicKey, events)
  {
    var states: seq<Srv>;
    states, events :| Passes(states, events) && states[|events|] == s;
    PassesRun(states, events);
    RunKeepsNames(states[0].policy, states[0].publicKey, events);
  }

  lemma {:induction false} RunKeepsNames(policy: DupPolicy, publicKey: NodeKey, events: seq<Event>)
    ensures var s := Run(policy, publicKey, events); s.policy == policy && s.publicKey == publicKey
    decreases |events|
  {
    if events != [] {
      var before := events[..|events| - 1];
      RunKeepsNames(policy, publicKey, before);
      StepKeepsNames(Run(policy, publicKey, before), events[|events| - 1]);
    }
  }

  lemma ReachableInv(s: Srv)
    requires Reachable(s)
    ensures Inv(s)
  {
    var events := ReachableRun(s);
    RunKeepsInv(s.policy, s.publicKey, events);
  }

  /** Registered connections keep their keys. */
  ghost predicate SameKeys(conns: map<ConnNum, Clients.Conn>, conns': map<ConnNum, Clients.Conn>) {
    forall x :: x in conns' ==> x in conns && conns'[x].key == conns[x].key
  }

  lemma TableStepKeys(t: Clients.Table, policy: DupPolicy, c: ConnNum, v: bool)
    requires Clients.Agree(t.clients, t.conns) && c in t.conns
    ensures SameKeys(t.conns, Clients.Unregister(t, c).conns)
    ensures SameKeys(t.conns, Clients.NoteActivity(t, policy, c).conns)
    ensures SameKeys(t.conns, Clients.SetPreferred(t, c, v).conns)
  {
    Clients.UnregisterKeys(t, c);
    Clients.UnregisterOthers(t, c);
    Clients.NoteActivityKeys(t, policy, c);
    Clients.NoteActivityOthers(t, policy, c);
    Clients.SetPreferredOthers(t, c, v);
  }

  lemma RegisterConns(t: Clients.Table, c: ConnNum, key: NodeKey, canMesh: bool, addr: AddrPort)
    requires Clients.Agree(t.clients, t.conns) && c !in t.conns
    ensures var conns' := Clients.Register(t, c, key, canMesh, addr).conns;
      c in conns' && conns'[c].key == key && SameKeys(t.conns, conns' - {c})
  {
    Clients.RegisterKeys(t, c, key, canMesh, addr);
    Clients.RegisterOthers(t, c, key, canMesh, addr);
    RegisteredKey(t, c, key, canMesh, addr);
  }

  /** The table after an event. */
  ghost function TableAfter(s: Srv, e: Event): Clients.Table {
    match e
    case Register(c, key, canMesh, addr) =>
      if c in s.accepted then Clients.Register(s.table, c, key, canMesh, addr) else s.table
    case Unregister(c) => if c in s.table.conns then Clients.Unregister(s.table, c) else s.table
    case Activity(c) =>
      if c in s.table.conns && c in s.noting then Clients.NoteActivity(s.table, s.policy, c) else s.table
    case NotePreferred(c, v) => if c in s.table.conns then Clients.SetPreferred(s.table, c, v) else s.table
    case _ => s.table
  }

  lemma StepTable(s: Srv, e: Event)
    ensures Step(s, e).table == TableAfter(s, e)
  {
  }

  /** Only a registration brings a new connection, under the key it names. */
  lemma StepConns(s: Srv, e: Event)
    requires Clients.Agree(s.table.clients, s.table.conns) && Numbered(s)
    ensures var conns' := Step(s, e).table.conns;
      if e.Register? && e.c in s.accepted
      then e.c in conns' && conns'[e.c].key == e.key && SameKeys(s.table.conns, conns' - {e.c})
      else SameKeys(s.table.conns, conns')
  {
    StepTable(s, e);
    match e
    case Register(c, key, canMesh, addr) => if c in s.accepted { RegisterConns(s.table, c, key, canMesh, addr); }
    case Unregister(c) => if c in s.table.conns { TableStepKeys(s.table, s.policy, c, false); }
    case Activity(c) => if c in s.table.conns { TableStepKeys(s.table, s.policy, c, false); }
    case NotePreferred(c, v) => if c in s.table.conns { TableStepKeys(s.table, s.policy, c, v); }
    case _ =>
  }

  lemma RegisteredKey(t: Clients.Table, c: ConnNum, key: NodeKey, canMesh: bool, addr: AddrPort)
    requires Clients.Agree(t.clients, t.conns) && c !in t.conns
    ensures var conns' := Clients.Register(t, c, key, canMesh, addr).conns; c in conns' && conns'[c].key == key
  {
    if key in t.clients {
      assert Clients.SetOk(key, t.clients[key], t.conns);
    }
  }

  /** A number is used up by a registration; only accepting a connection hands out a new one. */
  lemma StepNumbers(s: Srv, e: Event)
    ensures var s' := Step(s, e);
      && s'.accepted == (if e.Accept? then s.accepted + {s.accepts + 1} else if e.Register? then s.accepted - {e.c} else s.accepted)
      && s'.accepts == if e.Accept? then s.accepts + 1 else s.accepts
  {
  }

  /** A packet is delivered to a registered connection of the key it is for. */
  lemma DeliveredToKey(s: Srv, dst: NodeKey)
    requires Inv(s) && Local(s.table, dst).Some?
    ensures var c := Local(s.table, dst).value; c in s.table.conns && s.table.conns[c].key == dst
  {
    assert Clients.SetOk(dst, s.table.clients[dst], s.table.conns);
  }

  // ----- What holds in every run -----

  /** Under the last-writer policy every registered key has an active connection, and no packet
      is ever dropped because its destination is connected twice. */
  lemma NoDupDrops(publicKey: NodeKey, events: seq<Event>, dst: NodeKey)
    ensures var s := Run(LastWriterIsActive, publicKey, events);
      && (dst in s.table.clients ==> Local(s.table, dst).Some? && RouteSend(s, dst) == Deliver(Local(s.table, dst).value))
      && RouteSend(s, dst) != DropDup && RouteForwarded(s, dst) != DropDup
  {
    RunKeepsInv(LastWriterIsActive, publicKey, events);
    var s := Run(LastWriterIsActive, publicKey, events);
    if dst in s.table.clients {
      Clients.EveryKeyActive(s.table, dst);
    }
  }

  /** The key is connected, and the active connection of its dup set is disabled. */
  ghost predicate SetDisabled(t: Clients.Table, dst: NodeKey) {
    && dst in t.clients && t.clients[dst].Several? && t.clients[dst].ds.last.Some?
    && var last := t.clients[dst].ds.last.value; last in t.conns && t.conns[last].isDisabled
  }

  /** Under either policy a packet, a client's or a mesh peer's, is dropped for a doubly connected
      destination exactly when the active connection of its dup set is disabled. */
  lemma DupDropExact(policy: DupPolicy, publicKey: NodeKey, events: seq<Event>, dst: NodeKey)
    ensures var s := Run(policy, publicKey, events);
      && (RouteSend(s, dst) == DropDup <==> SetDisabled(s.table, dst))
      && (RouteForwarded(s, dst) == DropDup <==> SetDisabled(s.table, dst))
  {
    RunAgrees(policy, publicKey, events);
    var s := Run(policy, publicKey, events);
    if dst in s.table.clients {
      assert Clients.SetOk(dst, s.table.clients[dst], s.table.conns);
    }
  }

  /** In every reachable state every dup set has at least two members, an active one among them,
      and a history that misses at most one of them; and the gauges agree with the tables. */
  lemma EveryDupSetValid(policy: DupPolicy, publicKey: NodeKey, events: seq<Event>, k: NodeKey)
    ensures var t := Run(policy, publicKey, events).table;
      && (k in t.clients && t.clients[k].Several? ==> Dup.Valid(t.clients[k].ds))
      && t.curClients == |t.conns| && t.curClients - |t.clients| == t.dupConns - t.dupKeys
  {
    RunKeepsInv(policy, publicKey, events);
    var t := Run(policy, publicKey, events).table;
    Clients.GaugeLaw(t);
    if k in t.clients {
      assert Clients.SetOk(k, t.clients[k], t.conns);
    }
  }

  lemma RunSnoc(policy: DupPolicy, publicKey: NodeKey, events: seq<Event>, e: Event)
    ensures Run(policy, publicKey, events + [e]) == Step(Run(policy, publicKey, events), e)
  {
    assert (events + [e])[..|events + [e]| - 1] == events;
  }

  /** Two connections, accepted and registered under one key. */
  function TwiceConnected(k: NodeKey, canMesh: bool, addr: AddrPort): seq<Event> {
    [Accept] + [Register(1, k, canMesh, addr)] + [Accept] + [Register(2, k, canMesh, addr)]
  }

  /** The next connection is accepted and registers. */
  lemma Connects(policy: DupPolicy, publicKey: NodeKey, events: seq<Event>, c: ConnNum, k: NodeKey, canMesh: bool, addr: AddrPort)
    requires Run(policy, publicKey, events).accepts + 1 == c
    ensures var s, s' := Run(policy, publicKey, events), Run(policy, publicKey, events + [Accept] + [Register(c, k, canMesh, addr)]);
      s'.table == Clients.Register(s.table, c, k, canMesh, addr) && s'.accepts == c
  {
    var e := Register(c, k, canMesh, addr);
    RunSnoc(policy, publicKey, events, Accept);
    RunSnoc(policy, publicKey, events + [Accept], e);
    var s1 := Run(policy, publicKey, events + [Accept]);
    assert s1 == StepAccept(Run(policy, publicKey, events));
    StepTable(s1, e);
    StepNumbers(s1, e);
  }

  lemma TwiceTable(t: Clients.Table, k: NodeKey, canMesh: bool, addr: AddrPort)
    requires t == Clients.Register(Clients.EMPTY_TABLE, 1, k, canMesh, addr)
    ensures var t' := Clients.Register(t, 2, k, canMesh, addr); t'.curClients == 2 && t'.clients.Keys == {k}
  {
  }

  /** A key that connects twice is a run in which the consistency check finds a difference, though
      the tables are as they should be. */
  lemma TwiceConnectedDiffers(policy: DupPolicy, publicKey: NodeKey, k: NodeKey, canMesh: bool, addr: AddrPort)
    ensures var t := Run(policy, publicKey, TwiceConnected(k, canMesh, addr)).table; t.curClients == 2 && |t.clients| == 1
  {
    var first := [] + [Accept] + [Register(1, k, canMesh, addr)];
    Connects(policy, publicKey, [], 1, k, canMesh, addr);
    Connects(policy, publicKey, first, 2, k, canMesh, addr);
    assert [] + [Accept] == [Accept];
    TwiceTable(Run(policy, publicKey, first).table, k, canMesh, addr);
    assert |{k}| == 1;
  }

  lemma RunAgrees(policy: DupPolicy, publicKey: NodeKey, events: seq<Event>)
    ensures var t := Run(policy, publicKey, events).table; Clients.Agree(t.clients, t.conns)
    ensures var s := Run(policy, publicKey, events); s.policy == policy && Numbered(s) && WatchersOk(s)
    ensures policy == LastWriterIsActive ==> Clients.NoneDisabled(Run(policy, publicKey, events).table)
  {
    RunKeepsInv(policy, publicKey, events);
  }

  /** The newest connection of a key is its active one, under either policy. */
  lemma NewestIsActive(policy: DupPolicy, publicKey: NodeKey, events: seq<Event>, c: ConnNum, key: NodeKey, canMesh: bool, addr: AddrPort)
    requires c in Run(policy, publicKey, events).accepted
    ensures Local(Step(Run(policy, publicKey, events), Register(c, key, canMesh, addr)).table, key) == Some(c)
  {
    RunAgrees(policy, publicKey, events);
    Clients.RegisteredIsActive(Run(policy, publicKey, events).table, c, key, canMesh, addr);
  }

  /** A frame is heard and the activity noted with nothing in between. */
  ghost function Heard(s: Srv, c: ConnNum): Srv {
    Step(Step(s, Hear(c)), Activity(c))
  }

  lemma HeardTable(s: Srv, c: ConnNum)
    requires c in s.table.conns
    ensures Heard(s, c).table ==
      if (s.table.conns[c].isDup && !s.table.conns[c].isDisabled) || c in s.noting
      then Clients.NoteActivity(s.table, s.policy, c) else s.table
  {
  }

  /** Under the last-writer policy whoever sends is the active one of its key. */
  lemma SenderIsActive(publicKey: NodeKey, events: seq<Event>, c: ConnNum)
    requires c in Run(LastWriterIsActive, publicKey, events).table.conns
    ensures var s := Run(LastWriterIsActive, publicKey, events);
      Local(Heard(s, c).table, s.table.conns[c].key) == Some(c)
  {
    RunAgrees(LastWriterIsActive, publicKey, events);
    var s := Run(LastWriterIsActive, publicKey, events);
    HeardTable(s, c);
    Clients.SenderIsElected(s.table, c);
    Clients.LoneIsActive(s.table, c);
  }

  /** Under the other policy a connection whose activity is noted, and that has sent before another
      one did, disables its whole set, and packets for the key are dropped; one that has not sent
      yet, or sent last, disables nobody. */
  lemma FightersAreDisabled(publicKey: NodeKey, events: seq<Event>, c: ConnNum)
    requires var s := Run(DisableFighters, publicKey, events);
      && c in s.noting && c in s.table.conns
      && s.table.conns[c].key in s.table.clients && s.table.clients[s.table.conns[c].key].Several?
    ensures var s := Run(DisableFighters, publicKey, events);
      var key, s' := s.table.conns[c].key, Step(s, Activity(c));
      if Clients.Fights(s.table.clients[key].ds, c)
      then Local(s'.table, key) == None && RouteSend(s', key) == DropDup
      else s'.table.conns == s.table.conns && Local(s'.table, key) == Local(s.table, key)
  {
    RunAgrees(DisableFighters, publicKey, events);
    var s := Run(DisableFighters, publicKey, events);
    Clients.FightersLose(s.table, c);
    assert Step(s, Activity(c)) == StepActivity(s, c);
  }

  /** A connection that is disabled when it sends changes nothing: not the election, not its history,
      nor anybody else's standing. Only a reader that looked before the set was disabled gets past. */
  lemma DisabledSenderIsIgnored(s: Srv, c: ConnNum)
    requires c in s.table.conns && s.table.conns[c].isDisabled
    ensures Step(s, Hear(c)) == s && (c !in s.noting ==> Heard(s, c) == s)
  {
  }

  /** Nothing but a noted fight ever disables a connection, and only those of the fighter's set. */
  lemma OnlyFightsDisable(policy: DupPolicy, publicKey: NodeKey, events: seq<Event>, e: Event, x: ConnNum)
    requires var s := Run(policy, publicKey, events);
      var conns, conns' := s.table.conns, Step(s, e).table.conns;
      x in conns' && conns'[x].isDisabled && !(x in conns && conns[x].isDisabled)
    ensures var s := Run(policy, publicKey, events);
      && policy == DisableFighters && e.Activity? && e.c in s.noting && e.c in s.table.conns
      && var key := s.table.conns[e.c].key;
         && key in s.table.clients && s.table.clients[key].Several?
         && x in Clients.Members(s.table.clients[key]) && Clients.Fights(s.table.clients[key].ds, e.c)
  {
    RunAgrees(policy, publicKey, events);
    var s := Run(policy, publicKey, events);
    OnlyActivityDisables(s, e);
    Clients.ActivityDisables(s.table, policy, e.c, x);
  }

  lemma OnlyActivityDisables(s: Srv, e: Event)
    requires Numbered(s) && !Clients.NoneNewlyDisabled(s.table.conns, Step(s, e).table.conns)
    ensures e.Activity? && e.c in s.table.conns && e.c in s.noting
    ensures Step(s, e).table == Clients.NoteActivity(s.table, s.policy, e.c)
  {
    match e
    case Register(c, key, canMesh, addr) => Clients.RegisterDisablesNone(s.table, c, key, canMesh, addr);
    case Unregister(c) => if c in s.table.conns { Clients.UnregisterDisablesNone(s.table, c); }
    case NotePreferred(c, v) => if c in s.table.conns { Clients.PreferredDisablesNone(s.table, c, v); }
    case _ =>
  }

  /** The last connection left of a key is active again, whatever happened before. */
  lemma LoneSurvivorIsActive(policy: DupPolicy, publicKey: NodeKey, events: seq<Event>, c: ConnNum, rest: ConnNum)
    requires var t := Run(policy, publicKey, events).table;
      c in t.conns && t.conns[c].key in t.clients && Clients.Members(t.clients[t.conns[c].key]) == {c, rest} && c != rest
    ensures var s := Run(policy, publicKey, events);
      var t' := Step(s, Unregister(c)).table;
      && Local(t', s.table.conns[c].key) == Some(rest)
      && rest in t'.conns && !t'.conns[rest].isDisabled && !t'.conns[rest].isDup
  {
    RunAgrees(policy, publicKey, events);
    Clients.SurvivorIsActive(Run(policy, publicKey, events).table, c, rest);
  }

  /** In every reachable state the tables agree: a registered connection is a member of its key's
      set and marked as a duplicate exactly when that set has several; local keys are in the
      region, entries without forwarder are local, sets of forwarders have at least two, the
      preferred one among them; and the counters of forwarder sets made and unmade differ by the
      number there are. */
  lemma TablesAgree(policy: DupPolicy, publicKey: NodeKey, events: seq<Event>, c: ConnNum, k: NodeKey)
    ensures var s := Run(policy, publicKey, events);
      && (c in s.table.conns ==>
            && s.table.conns[c].key in s.table.clients && c in Clients.Members(s.table.clients[s.table.conns[c].key])
            && s.table.conns[c].isDup == s.table.clients[s.table.conns[c].key].Several?)
      && (k in s.table.clients ==> k in s.mesh.mesh && Clients.Members(s.table.clients[k]) <= s.table.conns.Keys)
      && (k in s.mesh.mesh && s.mesh.mesh[k].Nil? ==> k in s.table.clients)
      && (k in s.mesh.mesh && s.mesh.mesh[k].Multi? ==>
            |s.mesh.mesh[k].all| >= 2 && s.mesh.mesh[k].fwd in s.mesh.mesh[k].all)
      && s.mesh.created - s.mesh.deleted == MapSum.Sum(s.mesh.mesh, Mesh.MultiOne)
  {
    RunKeepsInv(policy, publicKey, events);
    var s := Run(policy, publicKey, events);
    if c in s.table.conns {
      assert Clients.SetOk(s.table.conns[c].key, s.table.clients[s.table.conns[c].key], s.table.conns);
    }
    if k in s.table.clients {
      assert Clients.SetOk(k, s.table.clients[k], s.table.conns);
    }
  }

  // ----- What watchers believe -----

  ghost function Inactive(t: Clients.Table): set<NodeKey> {
    set k | k in t.clients && Local(t, k).None?
  }

  /** The keys a watcher has not been told of: those that had no active connection when it enrolled,
      until they get a new connection or lose their last. */
  ghost function UnseenAfter(s: Srv, e: Event, c: ConnNum, u: set<NodeKey>): set<NodeKey> {
    match e
    case Register(x, key, _, _) => if x in s.accepted then u - {key} else u
    case Unregister(x) =>
      if x in s.table.conns && LastOfKey(s, x) then u - {s.table.conns[x].key} else u
    case WatchConns(x, order) =>
      if x == c && CanWatch(s, c) && Elems(order) == s.table.clients.Keys
      then (if c in s.watch.watchers then u else s.table.clients.Keys) * Inactive(s.table) else u
    case _ => u
  }

  ghost function Unseen(policy: DupPolicy, publicKey: NodeKey, events: seq<Event>, c: ConnNum): set<NodeKey> {
    if events == [] then {}
    else
      var before := events[..|events| - 1];
      UnseenAfter(Run(policy, publicKey, before), events[|events| - 1], c, Unseen(policy, publicKey, before, c))
  }

  /** The keys in the order that have an active connection are announced. */
  lemma {:induction false} ArrivalsAreActive(t: Clients.Table, order: seq<NodeKey>)
    requires Clients.Agree(t.clients, t.conns) && forall k :: k in order ==> k in t.clients
    ensures forall e :: e in Arrivals(t, order) ==> e.present
    ensures (set e | e in Arrivals(t, order) :: e.peer) == Elems(order) - Inactive(t)
  {
    if order != [] {
      var n := |order| - 1;
      var k := order[n];
      assert k in order;
      forall j | j in order[..n] ensures j in t.clients {
        assert j in order;
      }
      ArrivalsAreActive(t, order[..n]);
      assert Clients.SetOk(k, t.clients[k], t.conns);
      assert order == order[..n] + [k];
      ElemsSnoc(order, n);
      assert order[..n + 1] == order;
      assert Elems(order) == Elems(order[..n]) + {k};
      assert k in Inactive(t) <==> Local(t, k).None?;
      if Local(t, k).Some? {
        assert Local(t, k).value in t.conns;
        var e := Watch.PeerEvent(k, true, t.conns[Local(t, k).value].addr);
        ArrivalPeers(Arrivals(t, order[..n]), e);
        assert Arrivals(t, order) == Arrivals(t, order[..n]) + [e];
      } else {
        assert Arrivals(t, order) == Arrivals(t, order[..n]);
      }
    }
  }

  lemma WatchBelieves(s: Srv, c: ConnNum, order: seq<NodeKey>, u: set<NodeKey>)
    requires Clients.Agree(s.table.clients, s.table.conns) && Elems(order) == s.table.clients.Keys
    requires Watch.Believes(s.watch, s.table.clients.Keys, c, u)
    ensures var keys := s.table.clients.Keys;
      Watch.Believes(StepWatch(s, c, order).watch, keys, c, (if c in s.watch.watchers then u else keys) * Inactive(s.table))
  {
    forall k | k in order ensures k in s.table.clients {
      assert k in Elems(order);
    }
    ArrivalsAreActive(s.table, order);
    var keys, told := s.table.clients.Keys, set e | e in Arrivals(s.table, order) :: e.peer;
    Watch.EnrollBelieves(s.watch, keys, c, Arrivals(s.table, order), u);
    var missed := if c in s.watch.watchers then u else keys;
    assert c in StepWatch(s, c, order).watch.watchers;
    assert missed - told == missed * Inactive(s.table) by {
      assert missed <= keys;
    }
  }

  lemma UnregisterTold(s: Srv, x: ConnNum, keys: set<NodeKey>, c: ConnNum, u: set<NodeKey>)
    requires x in s.table.conns && Watch.Believes(s.watch, keys, c, u)
    ensures var key := s.table.conns[x].key;
      if LastOfKey(s, x) then Watch.Believes(WatchUnregister(s, x), keys - {key}, c, u - {key})
      else Watch.Believes(WatchUnregister(s, x), keys, c, u)
  {
    var key := s.table.conns[x].key;
    if LastOfKey(s, x) {
      var e := Watch.PeerEvent(key, false, NO_ADDR);
      Watch.BroadcastBelieves(s.watch, keys, e, c, u);
      Watch.LeaveBelieves(Watch.Broadcast(s.watch, e), keys - {key}, x, c, u - {key});
    } else {
      Watch.LeaveBelieves(s.watch, keys, x, c, u);
    }
  }

  lemma UnregisterBelieves(s: Srv, x: ConnNum, c: ConnNum, u: set<NodeKey>)
    requires Clients.Agree(s.table.clients, s.table.conns) && x in s.table.conns
    requires Watch.Believes(s.watch, s.table.clients.Keys, c, u)
    ensures var s' := StepUnregister(s, x);
      Watch.Believes(s'.watch, s'.table.clients.Keys, c, UnseenAfter(s, Unregister(x), c, u))
  {
    UnregisterTold(s, x, s.table.clients.Keys, c, u);
    Clients.UnregisterKeys(s.table, x);
    assert StepUnregister(s, x).watch == WatchUnregister(s, x);
    assert StepUnregister(s, x).table == Clients.Unregister(s.table, x);
  }

  lemma RegisterBelieves(s: Srv, x: ConnNum, key: NodeKey, canMesh: bool, addr: AddrPort, c: ConnNum, u: set<NodeKey>)
    requires Clients.Agree(s.table.clients, s.table.conns)
    requires Watch.Believes(s.watch, s.table.clients.Keys, c, u)
    ensures var s' := StepRegister(s, x, key, canMesh, addr); Watch.Believes(s'.watch, s'.table.clients.Keys, c, u - {key})
  {
    Clients.RegisterKeys(s.table, x, key, canMesh, addr);
    Watch.BroadcastBelieves(s.watch, s.table.clients.Keys, Watch.PeerEvent(key, true, addr), c, u);
  }

  /** What `c` was told and is to be told after the event, in the state `s'` that it leads to. */
  ghost predicate StillBelieves(s: Srv, e: Event, s': Srv, c: ConnNum, u: set<NodeKey>) {
    Watch.Believes(s'.watch, s'.table.clients.Keys, c, UnseenAfter(s, e, c, u))
  }

  lemma TableStepBelieves(s: Srv, x: ConnNum, key: NodeKey, canMesh: bool, addr: AddrPort, v: bool, c: ConnNum, u: set<NodeKey>)
    requires Clients.Agree(s.table.clients, s.table.conns)
    requires Watch.Believes(s.watch, s.table.clients.Keys, c, u)
    ensures var e := Register(x, key, canMesh, addr); StillBelieves(s, e, Step(s, e), c, u)
    ensures StillBelieves(s, Unregister(x), Step(s, Unregister(x)), c, u)
    ensures StillBelieves(s, NotePreferred(x, v), Step(s, NotePreferred(x, v)), c, u)
  {
    StepIs(s, x, key, canMesh, addr, v);
    if x in s.accepted {
      RegisterBelieves(s, x, key, canMesh, addr, c, u);
    }
    if x in s.table.conns {
      UnregisterBelieves(s, x, c, u);
      Clients.SetPreferredOthers(s.table, x, v);
    }
  }

  lemma ActivityBelieves(s: Srv, x: ConnNum, c: ConnNum, u: set<NodeKey>)
    requires Clients.Agree(s.table.clients, s.table.conns)
    requires Watch.Believes(s.watch, s.table.clients.Keys, c, u)
    ensures StillBelieves(s, Activity(x), Step(s, Activity(x)), c, u)
  {
    if x in s.table.conns {
      Clients.NoteActivityKeys(s.table, s.policy, x);
    }
  }

  lemma WatchStepBelieves(s: Srv, x: ConnNum, order: seq<NodeKey>, c: ConnNum, u: set<NodeKey>)
    requires Clients.Agree(s.table.clients, s.table.conns)
    requires Watch.Believes(s.watch, s.table.clients.Keys, c, u)
    ensures StillBelieves(s, WatchConns(x, order), Step(s, WatchConns(x, order)), c, u)
  {
    if CanWatch(s, x) && Elems(order) == s.table.clients.Keys {
      if x == c {
        WatchBelieves(s, c, order, u);
      } else {
        Watch.EnrollOthers(s.watch, s.table.clients.Keys, x, Arrivals(s.table, order), c, u);
      }
    }
  }

  lemma DrainStepBelieves(s: Srv, x: ConnNum, n: nat, failed: bool, c: ConnNum, u: set<NodeKey>)
    requires Watch.Believes(s.watch, s.table.clients.Keys, c, u)
    ensures StillBelieves(s, SendMesh(x, n, failed), Step(s, SendMesh(x, n, failed)), c, u)
  {
    if x in s.watch.watchers && n <= |Watch.Events(s.watch.pending, x)| {
      Watch.DrainBelieves(s.watch, s.table.clients.Keys, x, n, failed, c, u);
    }
  }

  lemma StepBelieves(s: Srv, e: Event, c: ConnNum, u: set<NodeKey>)
    requires Clients.Agree(s.table.clients, s.table.conns)
    requires Watch.Believes(s.watch, s.table.clients.Keys, c, u)
    ensures StillBelieves(s, e, Step(s, e), c, u)
  {
    match e
    case Register(x, key, canMesh, addr) => TableStepBelieves(s, x, key, canMesh, addr, false, c, u);
    case Unregister(x) => TableStepBelieves(s, x, s.publicKey, false, NO_ADDR, false, c, u);
    case NotePreferred(x, v) => TableStepBelieves(s, x, s.publicKey, false, NO_ADDR, v, c, u);
    case Activity(x) => ActivityBelieves(s, x, c, u);
    case WatchConns(x, order) => WatchStepBelieves(s, x, order, c, u);
    case SendMesh(x, n, failed) => DrainStepBelieves(s, x, n, failed, c, u);
    case _ =>
  }

  /** At every point of every run, under either policy, what a watcher was told and is still to be
      told amounts to exactly the connected keys, but for those it has not been told of. */
  lemma {:induction false} EveryWatcherBelieves(policy: DupPolicy, publicKey: NodeKey, events: seq<Event>, c: ConnNum)
    ensures var s := Run(policy, publicKey, events);
      Watch.Believes(s.watch, s.table.clients.Keys, c, Unseen(policy, publicKey, events, c))
    decreases |events|
  {
    if events != [] {
      var before := events[..|events| - 1];
      EveryWatcherBelieves(policy, publicKey, before, c);
      RunAgrees(policy, publicKey, before);
      StepBelieves(Run(policy, publicKey, before), events[|events| - 1], c, Unseen(policy, publicKey, before, c));
    }
  }

  /** Under the last-writer policy, it amounts to exactly the connected keys. */
  lemma EveryWatcherMirrors(publicKey: NodeKey, events: seq<Event>, c: ConnNum)
    ensures var s := Run(LastWriterIsActive, publicKey, events);
      c in s.watch.watchers ==> Watch.Mirror(s.watch, c) == s.table.clients.Keys
  {
    EveryWatcherBelieves(LastWriterIsActive, publicKey, events, c);
    NothingUnseen(publicKey, events, c);
  }

  lemma {:induction false} NothingUnseen(publicKey: NodeKey, events: seq<Event>, c: ConnNum)
    ensures Unseen(LastWriterIsActive, publicKey, events, c) == {}
    decreases |events|
  {
    if events != [] {
      var before := events[..|events| - 1];
      NothingUnseen(publicKey, before, c);
      RunAgrees(LastWriterIsActive, publicKey, before);
      NoneInactive(Run(LastWriterIsActive, publicKey, before).table);
    }
  }

  lemma NoneInactive(t: Clients.Table)
    requires Clients.Agree(t.clients, t.conns) && Clients.NoneDisabled(t)
    ensures Inactive(t) == {}
  {
    forall k | k in t.clients ensures Local(t, k).Some? {
      Clients.EveryKeyActive(t, k);
    }
  }

  /** The registered connections that the latest packets of `src` went to since it last left. */
  function Owed(conns: map<ConnNum, Clients.Conn>, log: seq<Routes.RouteEvent>, src: NodeKey): set<ConnNum> {
    set c | c in conns && Routes.Latest(log, src, conns[c].key) == Some(c)
  }

  lemma TargetsAreOwed(t: Clients.Table, sent: Routes.Sent, log: seq<Routes.RouteEvent>, src: NodeKey)
    requires Routes.Faithful(sent, log)
    ensures Targets(t, sent, src) == Owed(t.conns, log, src)
  {
  }

  /** What an event means for those who wait to hear that a source is gone: if it takes the last of
      `src` out of the region, exactly the connections still registered after it that are owed the
      news are told, and the source is forgotten. */
  ghost predicate Announces(s: Srv, s': Srv, src: NodeKey) {
    && s'.gone == s.gone + [Gone(src, Owed(s'.table.conns, s.log, src))]
    && forall dst :: Routes.Lookup(s'.sent, src, dst) == None
  }

  lemma LeaveAnnounces(s: Srv, s1: Srv, src: NodeKey)
    requires Routes.Faithful(s.sent, s.log) && s1.sent == s.sent && s1.gone == s.gone
    ensures Announces(s, LeaveRegion(s1, src), src)
  {
    TargetsAreOwed(s1.table, s.sent, s.log, src);
  }

  lemma UnregisterAnnounces(s: Srv, c: ConnNum)
    requires Routes.Faithful(s.sent, s.log) && c in s.table.conns
    ensures var s', key := StepUnregister(s, c), s.table.conns[c].key;
      if LastInRegion(s, c) then s'.mesh.mesh == s.mesh.mesh - {key} && Announces(s, s', key)
      else s'.mesh.mesh == s.mesh.mesh && s'.gone == s.gone
  {
    var key := s.table.conns[c].key;
    var s1 := s.(table := Clients.Unregister(s.table, c),
                 noting := s.noting - {c},
                 mesh := if LastOfKey(s, c) then Mesh.LeaveLocal(s.mesh, key) else s.mesh,
                 watch := WatchUnregister(s, c));
    LeaveAnnounces(s, s1, key);
  }

  lemma RemoveForwarderAnnounces(s: Srv, dst: NodeKey, f: Fwd, pick: Fwd)
    requires Routes.Faithful(s.sent, s.log)
    ensures var s' := StepRemoveForwarder(s, dst, f, pick);
      if dst in s.mesh.mesh && dst !in s'.mesh.mesh then s'.mesh.mesh == s.mesh.mesh - {dst} && Announces(s, s', dst)
      else s'.mesh.mesh.Keys == s.mesh.mesh.Keys && s'.gone == s.gone
  {
    var s1 := s.(mesh := Mesh.RemoveForwarder(s.mesh, dst, f, pick, dst in s.table.clients));
    LeaveAnnounces(s, s1, dst);
  }

  lemma OthersAnnounceNothing(s: Srv, e: Event)
    requires !e.Unregister? && !e.RemoveForwarder?
    ensures Step(s, e).gone == s.gone && s.mesh.mesh.Keys <= Step(s, e).mesh.mesh.Keys
  {
  }

  /** Whenever a source leaves the region, at any step of any run, exactly the connections still
      registered that its latest packets went to since it last left are told, and it is forgotten;
      at all other steps nobody is told anything. */
  lemma LeavingTellsExactly(policy: DupPolicy, publicKey: NodeKey, events: seq<Event>, e: Event, src: NodeKey)
    ensures var s := Run(policy, publicKey, events);
      var s' := Step(s, e);
      && (src in s.mesh.mesh && src !in s'.mesh.mesh ==> Announces(s, s', src))
      && ((forall k :: k in s.mesh.mesh ==> k in s'.mesh.mesh) ==> s'.gone == s.gone)
  {
    RunFaithful(policy, publicKey, events);
    var s := Run(policy, publicKey, events);
    match e
    case Unregister(c) => if c in s.table.conns { UnregisterAnnounces(s, c); }
    case RemoveForwarder(dst, f, pick) => RemoveForwarderAnnounces(s, dst, f, pick);
    case _ => OthersAnnounceNothing(s, e);
  }

  lemma RunFaithful(policy: DupPolicy, publicKey: NodeKey, events: seq<Event>)
    ensures var s := Run(policy, publicKey, events); Routes.Faithful(s.sent, s.log)
  {
    RunKeepsInv(policy, publicKey, events);
  }

  /** What an event does to the forwarders of key `k`. */
  function OpOf(e: Event, k: NodeKey): seq<Mesh.Op> {
    match e
    case AddForwarder(dst, f) => if dst == k then [Mesh.AddOp(f)] else []
    case RemoveForwarder(dst, f, pick) => if dst == k then [Mesh.RemoveOp(f, pick)] else []
    case _ => []
  }

  /** The forwarder operations on key `k` in a run. */
  function OpsFor(events: seq<Event>, k: NodeKey): seq<Mesh.Op> {
    if events == [] then [] else OpsFor(events[..|events| - 1], k) + OpOf(events[|events| - 1], k)
  }

  lemma StepEntry(s: Srv, e: Event, k: NodeKey)
    ensures var entry := Mesh.EntryOf(s.mesh, k);
      Mesh.EntryOf(Step(s, e).mesh, k) == if OpOf(e, k) == [] then entry else Mesh.Apply(entry, OpOf(e, k)[0])
  {
    match e
    case Register(c, key, _, _) => Mesh.EntryOfChanges(s.mesh, key, 0, 0, false, k);
    case Unregister(c) =>
      if c in s.table.conns {
        Mesh.EntryOfChanges(s.mesh, s.table.conns[c].key, 0, 0, false, k);
      }
    case AddForwarder(dst, f) => Mesh.EntryOfChanges(s.mesh, dst, f, 0, false, k);
    case RemoveForwarder(dst, f, pick) => Mesh.EntryOfChanges(s.mesh, dst, f, pick, dst in s.table.clients, k);
    case _ =>
  }

  lemma {:induction false} RunEntry(policy: DupPolicy, publicKey: NodeKey, events: seq<Event>, k: NodeKey)
    ensures Mesh.EntryOf(Run(policy, publicKey, events).mesh, k) == Mesh.Run(OpsFor(events, k))
    decreases |events|
  {
    if events != [] {
      var before, e := events[..|events| - 1], events[|events| - 1];
      RunEntry(policy, publicKey, before, k);
      StepEntry(Run(policy, publicKey, before), e, k);
      var ops := OpsFor(events, k);
      if OpOf(e, k) != [] {
        assert ops[..|ops| - 1] == OpsFor(before, k);
      } else {
        assert ops == OpsFor(before, k);
      }
    }
  }
}
