/** Under the policy that disables fighting duplicates: who is disabled, told from the history of a run. */
module DerpFights {
  import opened DerpTypes
  import opened DerpServer

  /** The event is the noting of a fight in the dup set that `x` belongs to. */
  ghost predicate NotesFight(s: Srv, e: Event, x: ConnNum) {
    && e.Activity? && e.c in s.table.conns && e.c in s.noting
    && var key := s.table.conns[e.c].key;
       && key in s.table.clients && s.table.clients[key].Several?
       && x in Clients.Members(s.table.clients[key]) && Clients.Fights(s.table.clients[key].ds, e.c)
  }

  /** The event takes away the only other connection of the key of `x`. */
  ghost predicate LeavesAlone(s: Srv, e: Event, x: ConnNum) {
    && e.Unregister? && e.c in s.table.conns && e.c != x
    && var key := s.table.conns[e.c].key;
       key in s.table.clients && Clients.Members(s.table.clients[key]) == {e.c, x}
  }

  /** A fight was noted in the set of `x`, and `x` has not been left alone since. */
  ghost predicate Fought(policy: DupPolicy, publicKey: NodeKey, events: seq<Event>, x: ConnNum) {
    exists i :: 0 <= i < |events| && FoughtAt(policy, publicKey, events, x, i)
  }

  ghost predicate FoughtAt(policy: DupPolicy, publicKey: NodeKey, events: seq<Event>, x: ConnNum, i: nat)
    requires i < |events|
  {
    && NotesFight(Run(policy, publicKey, events[..i]), events[i], x)
    && forall j :: i < j < |events| ==> !LeftAloneAt(policy, publicKey, events, x, j)
  }

  ghost predicate LeftAloneAt(policy: DupPolicy, publicKey: NodeKey, events: seq<Event>, x: ConnNum, j: nat)
    requires j < |events|
  {
    LeavesAlone(Run(policy, publicKey, events[..j]), events[j], x)
  }

  lemma LeftAlonePrefix(policy: DupPolicy, publicKey: NodeKey, events: seq<Event>, x: ConnNum, n: nat, j: nat)
    requires j < n <= |events|
    ensures LeftAloneAt(policy, publicKey, events[..n], x, j) == LeftAloneAt(policy, publicKey, events, x, j)
  {
    assert events[..n][..j] == events[..j];
  }

  lemma FoughtAtSnoc(policy: DupPolicy, publicKey: NodeKey, events: seq<Event>, x: ConnNum, i: nat)
    requires i < |events| - 1
    ensures var n := |events| - 1;
      FoughtAt(policy, publicKey, events, x, i) <==>
      FoughtAt(policy, publicKey, events[..n], x, i) && !LeftAloneAt(policy, publicKey, events, x, n)
  {
    var n := |events| - 1;
    assert events[..n][..i] == events[..i];
    forall j | 0 <= j < n
      ensures LeftAloneAt(policy, publicKey, events[..n], x, j) == LeftAloneAt(policy, publicKey, events, x, j)
    {
      LeftAlonePrefix(policy, publicKey, events, x, n, j);
    }
  }

  /** One event more. */
  lemma FoughtSnoc(policy: DupPolicy, publicKey: NodeKey, events: seq<Event>, x: ConnNum)
    requires events != []
    ensures var n := |events| - 1;
      var s := Run(policy, publicKey, events[..n]);
      Fought(policy, publicKey, events, x) <==>
      NotesFight(s, events[n], x) || (Fought(policy, publicKey, events[..n], x) && !LeavesAlone(s, events[n], x))
  {
    var n := |events| - 1;
    forall i | 0 <= i < n
      ensures FoughtAt(policy, publicKey, events, x, i) <==>
        FoughtAt(policy, publicKey, events[..n], x, i) && !LeftAloneAt(policy, publicKey, events, x, n)
    {
      FoughtAtSnoc(policy, publicKey, events, x, i);
    }
    assert FoughtAt(policy, publicKey, events, x, n) <==> NotesFight(Run(policy, publicKey, events[..n]), events[n], x);
  }

  // ----- One step -----

  /** Whether `x` is disabled. */
  predicate Disabled(t: Clients.Table, x: ConnNum) {
    x in t.conns && t.conns[x].isDisabled
  }

  lemma RegisterStanding(t: Clients.Table, c: ConnNum, key: NodeKey, canMesh: bool, addr: AddrPort, x: ConnNum)
    requires c !in t.conns
    ensures Disabled(Clients.Register(t, c, key, canMesh, addr), x) <==> Disabled(t, x)
  {
  }

  lemma OneLeft(members: set<ConnNum>, c: ConnNum, x: ConnNum)
    requires c in members && x != c
    ensures members - {c} == {x} <==> members == {c, x}
  {
    assert members == (members - {c}) + {c};
    assert {c, x} - {c} == {x};
  }

  lemma PreferredStanding(t: Clients.Table, c: ConnNum, v: bool, x: ConnNum)
    requires c in t.conns
    ensures Disabled(Clients.SetPreferred(t, c, v), x) <==> Disabled(t, x)
  {
  }

  lemma UnregisterStanding(s: Srv, c: ConnNum, x: ConnNum)
    requires Clients.Agree(s.table.clients, s.table.conns) && c in s.table.conns && x != c
    ensures Disabled(Clients.Unregister(s.table, c), x) <==> Disabled(s.table, x) && !LeavesAlone(s, Unregister(c), x)
  {
    var t := s.table;
    var key := t.conns[c].key;
    assert Clients.SetOk(key, t.clients[key], t.conns);
    if t.clients[key].Several? {
      var members := t.clients[key].ds.members;
      assert c in members;
      assert Dup.Remove(t.clients[key].ds, c).members == members - {c};
      OneLeft(members, c, x);
    }
  }

  lemma ActivityStanding(s: Srv, c: ConnNum, x: ConnNum)
    requires Clients.Agree(s.table.clients, s.table.conns) && c in s.table.conns && c in s.noting
    ensures Disabled(Clients.NoteActivity(s.table, DisableFighters, c), x) <==>
      Disabled(s.table, x) || NotesFight(s, Activity(c), x)
  {
    assert Clients.SetOk(s.table.conns[c].key, s.table.clients[s.table.conns[c].key], s.table.conns);
  }

  /** `t` is how the event leaves `x`: disabled by a fight noted now, or still. */
  ghost predicate Stands(s: Srv, e: Event, t: Clients.Table, x: ConnNum) {
    Disabled(t, x) <==> NotesFight(s, e, x) || (Disabled(s.table, x) && !LeavesAlone(s, e, x))
  }

  lemma UnregisterStands(s: Srv, c: ConnNum, x: ConnNum)
    requires Clients.Agree(s.table.clients, s.table.conns) && c in s.table.conns
    requires x in Clients.Unregister(s.table, c).conns
    ensures Stands(s, Unregister(c), Clients.Unregister(s.table, c), x)
  {
    Clients.UnregisterKeys(s.table, c);
    UnregisterStanding(s, c, x);
  }

  lemma ActivityStands(s: Srv, c: ConnNum, x: ConnNum)
    requires Clients.Agree(s.table.clients, s.table.conns) && c in s.table.conns && c in s.noting
    ensures Stands(s, Activity(c), Clients.NoteActivity(s.table, DisableFighters, c), x)
  {
    ActivityStanding(s, c, x);
  }

  lemma SameStands(s: Srv, e: Event, t: Clients.Table, x: ConnNum)
    requires !NotesFight(s, e, x) && !LeavesAlone(s, e, x) && (Disabled(t, x) <==> Disabled(s.table, x))
    ensures Stands(s, e, t, x)
  {
  }

  lemma TableStanding(s: Srv, e: Event, x: ConnNum)
    requires Clients.Agree(s.table.clients, s.table.conns) && Numbered(s) && s.policy == DisableFighters
    requires x in TableAfter(s, e).conns
    ensures Stands(s, e, TableAfter(s, e), x)
  {
    match e
    case Register(c, key, canMesh, addr) =>
      if c in s.accepted { RegisterStanding(s.table, c, key, canMesh, addr, x); }
      SameStands(s, e, TableAfter(s, e), x);
    case Unregister(c) =>
      if c in s.table.conns { UnregisterStands(s, c, x); } else { SameStands(s, e, s.table, x); }
    case Activity(c) =>
      if c in s.table.conns && c in s.noting { ActivityStands(s, c, x); } else { SameStands(s, e, s.table, x); }
    case NotePreferred(c, v) =>
      if c in s.table.conns { PreferredStanding(s.table, c, v, x); }
      SameStands(s, e, TableAfter(s, e), x);
    case _ =>
      SameStands(s, e, s.table, x);
  }

  lemma StepStanding(s: Srv, e: Event, x: ConnNum)
    requires Clients.Agree(s.table.clients, s.table.conns) && Numbered(s) && s.policy == DisableFighters
    requires x in Step(s, e).table.conns
    ensures Disabled(Step(s, e).table, x) <==>
      NotesFight(s, e, x) || (Disabled(s.table, x) && !LeavesAlone(s, e, x))
  {
    StepTable(s, e);
    TableStanding(s, e, x);
  }

  /** Nobody fights under a number that is not registered. */
  lemma FighterIsRegistered(s: Srv, e: Event, x: ConnNum)
    requires Clients.Agree(s.table.clients, s.table.conns) && NotesFight(s, e, x)
    ensures x in s.table.conns && x in Step(s, e).table.conns
  {
    Clients.NoteActivityKeys(s.table, s.policy, e.c);
    var key := s.table.conns[e.c].key;
    assert Clients.SetOk(key, s.table.clients[key], s.table.conns);
  }

  // ----- Whole runs -----

  /** The number has not been registered yet. */
  ghost predicate Unused(s: Srv, x: ConnNum) {
    x in s.accepted || x > s.accepts
  }

  lemma StaysUsed(s: Srv, e: Event, x: ConnNum)
    requires Clients.Agree(s.table.clients, s.table.conns) && Numbered(s)
    ensures Unused(Step(s, e), x) ==> Unused(s, x)
    ensures x in Step(s, e).table.conns ==> x in s.table.conns || Unused(s, x)
  {
    StepNumbers(s, e);
    StepConns(s, e);
  }

  lemma {:induction false} FoughtWhileRegistered(publicKey: NodeKey, events: seq<Event>, x: ConnNum)
    ensures var s := Run(DisableFighters, publicKey, events);
      && (x in s.table.conns ==> (Disabled(s.table, x) <==> Fought(DisableFighters, publicKey, events, x)))
      && (Unused(s, x) ==> !Fought(DisableFighters, publicKey, events, x))
    decreases |events|
  {
    if events != [] {
      var before, e := events[..|events| - 1], events[|events| - 1];
      var s := Run(DisableFighters, publicKey, before);
      FoughtWhileRegistered(publicKey, before, x);
      FoughtSnoc(DisableFighters, publicKey, events, x);
      RunAgrees(DisableFighters, publicKey, before);
      StaysUsed(s, e, x);
      if NotesFight(s, e, x) {
        FighterIsRegistered(s, e, x);
      }
      if x in Step(s, e).table.conns {
        StepStanding(s, e, x);
      }
    }
  }

  /** At every point of every run a registered connection is disabled exactly if a fight was noted
      in its set since it registered and it has not been the only one of its key since. */
  lemma DisabledExactly(publicKey: NodeKey, events: seq<Event>, x: ConnNum)
    requires x in Run(DisableFighters, publicKey, events).table.conns
    ensures Run(DisableFighters, publicKey, events).table.conns[x].isDisabled <==>
      Fought(DisableFighters, publicKey, events, x)
  {
    FoughtWhileRegistered(publicKey, events, x);
  }

  /** Packets for a key are dropped exactly when it is connected more than once and the connection
      elected last was in such a fight. */
  lemma DropsAfterFights(publicKey: NodeKey, events: seq<Event>, dst: NodeKey)
    ensures var s := Run(DisableFighters, publicKey, events);
      RouteSend(s, dst) == DropDup <==>
        && dst in s.table.clients && s.table.clients[dst].Several? && s.table.clients[dst].ds.last.Some?
        && Fought(DisableFighters, publicKey, events, s.table.clients[dst].ds.last.value)
  {
    DupDropExact(DisableFighters, publicKey, events, dst);
    RunAgrees(DisableFighters, publicKey, events);
    var t := Run(DisableFighters, publicKey, events).table;
    if dst in t.clients && t.clients[dst].Several? && t.clients[dst].ds.last.Some? {
      assert Clients.SetOk(dst, t.clients[dst], t.conns);
      FoughtWhileRegistered(publicKey, events, t.clients[dst].ds.last.value);
    }
  }
}
