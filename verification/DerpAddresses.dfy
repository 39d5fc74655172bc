/** The addresses that watchers are told. */
module DerpAddresses {
  import opened Wrappers
  import opened DerpTypes
  import opened DerpServer

  // ----- What a list of events says of a key -----

  predicate About(events: seq<Watch.PeerEvent>, k: NodeKey) {
    exists i :: 0 <= i < |events| && events[i].peer == k
  }

  /** What the last event about `k` says: its address, or that it is gone. */
  function Address(events: seq<Watch.PeerEvent>, k: NodeKey): Option<AddrPort> {
    if events == [] then None
    else
      var e := events[|events| - 1];
      if e.peer != k then Address(events[..|events| - 1], k)
      else if e.present then Some(e.addr)
      else None
  }

  lemma AddressSnoc(events: seq<Watch.PeerEvent>, e: Watch.PeerEvent, k: NodeKey)
    ensures Address(events + [e], k) ==
      if e.peer != k then Address(events, k) else if e.present then Some(e.addr) else None
    ensures About(events + [e], k) <==> About(events, k) || e.peer == k
  {
    var l := events + [e];
    assert l[..|l| - 1] == events;
    if i :| 0 <= i < |events| && events[i].peer == k {
      assert l[i].peer == k;
    }
    assert l[|events|] == e;
  }

  /** Only what is said last about a key matters. */
  lemma {:induction false} AddressJoin(a: seq<Watch.PeerEvent>, b: seq<Watch.PeerEvent>, k: NodeKey)
    ensures Address(a + b, k) == if About(b, k) then Address(b, k) else Address(a, k)
    decreases |b|
  {
    if b == [] {
      assert a + b == a;
    } else {
      var n := |b| - 1;
      AddressJoin(a, b[..n], k);
      AddressSnoc(a + b[..n], b[n], k);
      AddressSnoc(b[..n], b[n], k);
      assert a + b == (a + b[..n]) + [b[n]] && b == b[..n] + [b[n]];
    }
  }

  /** Writing the first events again before all of them changes nothing. */
  lemma AddressRewritten(a: seq<Watch.PeerEvent>, p: seq<Watch.PeerEvent>, n: nat, k: NodeKey)
    requires n <= |p|
    ensures Address((a + p[..n]) + p, k) == Address(a + p, k)
  {
    AddressJoin(a + p[..n], p, k);
    AddressJoin(a, p[..n], k);
    AddressJoin(a, p, k);
    if i :| 0 <= i < |p[..n]| && p[..n][i].peer == k {
      assert p[i].peer == k;
    }
  }

  lemma {:induction false} AddressInView(events: seq<Watch.PeerEvent>, k: NodeKey)
    ensures Address(events, k).Some? <==> k in Watch.View({}, events)
  {
    if events != [] {
      AddressInView(events[..|events| - 1], k);
    }
  }

  // ----- What watchers are told over a run -----

  /** The address last told to watcher `c` of key `k`: that of the connection which registered last,
      or of the active one when the watcher enrolled. */
  ghost function ToldAfter(s: Srv, e: Event, c: ConnNum, k: NodeKey, a: Option<AddrPort>): Option<AddrPort> {
    match e
    case Register(x, key, _, addr) => if x in s.accepted && key == k && c in s.watch.watchers then Some(addr) else a
    case Unregister(x) =>
      if x !in s.table.conns then a
      else if x == c && s.table.conns[x].canMesh then None
      else if s.table.conns[x].key == k && LastOfKey(s, x) then None
      else a
    case WatchConns(x, order) =>
      if x == c && CanWatch(s, c) && Elems(order) == s.table.clients.Keys && k in s.table.clients && Local(s.table, k).Some?
         && Local(s.table, k).value in s.table.conns
      then Some(s.table.conns[Local(s.table, k).value].addr) else a
    case _ => a
  }

  ghost function Told(policy: DupPolicy, publicKey: NodeKey, events: seq<Event>, c: ConnNum, k: NodeKey): Option<AddrPort> {
    if events == [] then None
    else
      var before := events[..|events| - 1];
      ToldAfter(Run(policy, publicKey, before), events[|events| - 1], c, k, Told(policy, publicKey, before, c, k))
  }

  /** What `c` will have been told of `k` once everything pending is written. */
  function Heard(w: Watch.Watch, c: ConnNum, k: NodeKey): Option<AddrPort> {
    Address(Watch.Events(w.written, c) + Watch.Events(w.pending, c), k)
  }

  /** A connection that does not watch has been told nothing. */
  ghost predicate Silent(w: Watch.Watch, c: ConnNum) {
    c !in w.watchers ==> Watch.Events(w.pending, c) == [] && Watch.Events(w.written, c) == []
  }

  lemma BroadcastHeard(w: Watch.Watch, e: Watch.PeerEvent, c: ConnNum, k: NodeKey)
    ensures Heard(Watch.Broadcast(w, e), c, k) ==
      if c !in w.watchers || e.peer != k then Heard(w, c, k) else if e.present then Some(e.addr) else None
  {
    Watch.BroadcastEvents(w, e, c);
    var a, b := Watch.Events(w.written, c), Watch.Events(w.pending, c);
    AddressSnoc(a + b, e, k);
    assert a + (b + [e]) == (a + b) + [e];
  }

  lemma DrainHeard(w: Watch.Watch, x: ConnNum, n: nat, failed: bool, c: ConnNum, k: NodeKey)
    requires n <= |Watch.Events(w.pending, x)|
    ensures Heard(Watch.Drain(w, x, n, failed), c, k) == Heard(w, c, k)
  {
    if c == x {
      var a, p := Watch.Events(w.written, c), Watch.Events(w.pending, c);
      AddressRewritten(a, p, n, k);
      assert (a + p[..n]) + p[n..] == a + p;
    }
  }

  lemma EnrollHeard(w: Watch.Watch, x: ConnNum, events: seq<Watch.PeerEvent>, c: ConnNum, k: NodeKey)
    ensures Heard(Watch.Enroll(w, x, events), c, k) == if c == x && About(events, k) then Address(events, k) else Heard(w, c, k)
  {
    if c == x {
      var a, b := Watch.Events(w.written, c), Watch.Events(w.pending, c);
      assert a + (b + events) == (a + b) + events;
      AddressJoin(a + b, events, k);
    }
  }

  lemma LeaveHeard(w: Watch.Watch, x: ConnNum, c: ConnNum, k: NodeKey)
    ensures Heard(Watch.Leave(w, x), c, k) == if c == x then None else Heard(w, c, k)
  {
    assert c == x ==> Watch.Events(Watch.Leave(w, x).written, c) + Watch.Events(Watch.Leave(w, x).pending, c) == [];
  }

  /** Enrolling tells the address of the active connection of every key that has one. */
  lemma {:induction false} ArrivalsHeard(t: Clients.Table, order: seq<NodeKey>, k: NodeKey)
    ensures var told := k in order && Local(t, k).Some? && Local(t, k).value in t.conns;
      && (About(Arrivals(t, order), k) <==> told)
      && (told ==> Address(Arrivals(t, order), k) == Some(t.conns[Local(t, k).value].addr))
  {
    if order != [] {
      var n := |order| - 1;
      var j := order[n];
      ArrivalsHeard(t, order[..n], k);
      assert order == order[..n] + [j];
      if Local(t, j).Some? && Local(t, j).value in t.conns {
        AddressSnoc(Arrivals(t, order[..n]), Watch.PeerEvent(j, true, t.conns[Local(t, j).value].addr), k);
      }
    }
  }

  lemma RegisterHeard(s: Srv, x: ConnNum, key: NodeKey, canMesh: bool, addr: AddrPort, c: ConnNum, k: NodeKey)
    requires x in s.accepted
    ensures Heard(StepRegister(s, x, key, canMesh, addr).watch, c, k) ==
      ToldAfter(s, Register(x, key, canMesh, addr), c, k, Heard(s.watch, c, k))
  {
    BroadcastHeard(s.watch, Watch.PeerEvent(key, true, addr), c, k);
  }

  lemma UnregisterHeard(s: Srv, x: ConnNum, c: ConnNum, k: NodeKey)
    requires x in s.table.conns && Silent(s.watch, c)
    ensures Heard(WatchUnregister(s, x), c, k) == ToldAfter(s, Unregister(x), c, k, Heard(s.watch, c, k))
  {
    var e := Watch.PeerEvent(s.table.conns[x].key, false, NO_ADDR);
    BroadcastHeard(s.watch, e, c, k);
    LeaveHeard(s.watch, x, c, k);
    LeaveHeard(Watch.Broadcast(s.watch, e), x, c, k);
    assert c !in s.watch.watchers ==> Watch.Events(s.watch.written, c) + Watch.Events(s.watch.pending, c) == [];
  }

  lemma WatchHeard(s: Srv, x: ConnNum, order: seq<NodeKey>, c: ConnNum, k: NodeKey)
    requires CanWatch(s, x) && Elems(order) == s.table.clients.Keys
    ensures Heard(StepWatch(s, x, order).watch, c, k) == ToldAfter(s, WatchConns(x, order), c, k, Heard(s.watch, c, k))
  {
    ArrivalsHeard(s.table, order, k);
    assert k in order <==> k in Elems(order);
    EnrollHeard(s.watch, x, Arrivals(s.table, order), c, k);
  }

  /** What is pending and written after an event. */
  lemma StepHeard(s: Srv, e: Event, c: ConnNum, k: NodeKey)
    requires Silent(s.watch, c)
    ensures Heard(Step(s, e).watch, c, k) == ToldAfter(s, e, c, k, Heard(s.watch, c, k))
  {
    match e
    case Register(x, key, canMesh, addr) => if x in s.accepted { RegisterHeard(s, x, key, canMesh, addr, c, k); }
    case Unregister(x) =>
      if x in s.table.conns {
        UnregisterHeard(s, x, c, k);
        assert StepUnregister(s, x).watch == WatchUnregister(s, x);
      }
    case WatchConns(x, order) =>
      if CanWatch(s, x) && Elems(order) == s.table.clients.Keys { WatchHeard(s, x, order, c, k); }
    case SendMesh(x, n, failed) =>
      if n <= |Watch.Events(s.watch.pending, x)| { DrainHeard(s.watch, x, n, failed, c, k); }
    case _ =>
  }

  /** At every point of every run, what a watcher was told and is still to be told last of a key is
      the address of the connection that registered last since the watcher enrolled, or of the one
      that was active when it did; or that the key is gone. */
  lemma {:induction false} WatchersHearAddresses(policy: DupPolicy, publicKey: NodeKey, events: seq<Event>, c: ConnNum, k: NodeKey)
    ensures Heard(Run(policy, publicKey, events).watch, c, k) == Told(policy, publicKey, events, c, k)
    decreases |events|
  {
    if events != [] {
      var before := events[..|events| - 1];
      WatchersHearAddresses(policy, publicKey, before, c, k);
      EveryWatcherBelieves(policy, publicKey, before, c);
      StepHeard(Run(policy, publicKey, before), events[|events| - 1], c, k);
    }
  }
}
