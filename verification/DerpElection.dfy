/** Which of several connections of a key inherits it, told from the history of a run. */
module DerpElection {
  import opened Wrappers
  import opened DerpTypes
  import opened DerpServer
  import Fights = DerpFights

  /** How an event adds to the log of who was noted for key `k`: the first connection when a second
      one registers, which starts the log anew; every later one that registers; and every one whose
      activity is noted. */
  ghost function LogAfter(s: Srv, e: Event, k: NodeKey, log: seq<ConnNum>): seq<ConnNum> {
    match e
    case Register(c, key, _, _) =>
      if c !in s.accepted || key != k || k !in s.table.clients then log
      else if s.table.clients[k].Single? then [s.table.clients[k].c]
      else log + [c]
    case Activity(c) =>
      if c in s.noting && c in s.table.conns && s.table.conns[c].key == k && k in s.table.clients && s.table.clients[k].Several?
      then log + [c] else log
    case _ => log
  }

  /** Everybody noted for `k` in a run, whether still connected or not. */
  ghost function Log(policy: DupPolicy, publicKey: NodeKey, events: seq<Event>, k: NodeKey): seq<ConnNum> {
    if events == [] then []
    else
      var before := events[..|events| - 1];
      LogAfter(Run(policy, publicKey, before), events[|events| - 1], k, Log(policy, publicKey, before, k))
  }

  /** A dup set's history is what the log says of its members. */
  ghost predicate Logged(t: Clients.Table, k: NodeKey, log: seq<ConnNum>) {
    k in t.clients && t.clients[k].Several? ==> t.clients[k].ds.history == Dup.Trim(log, t.clients[k].ds.members)
  }

  /** Only numbers that were registered are logged. */
  ghost predicate LogUsed(s: Srv, log: seq<ConnNum>) {
    forall x :: x in log ==> !Fights.Unused(s, x)
  }

  lemma RegisterLogged(s: Srv, c: ConnNum, key: NodeKey, canMesh: bool, addr: AddrPort, k: NodeKey, log: seq<ConnNum>)
    requires Clients.Agree(s.table.clients, s.table.conns) && c in s.accepted && LogUsed(s, log) && Logged(s.table, k, log)
    ensures Logged(Clients.Register(s.table, c, key, canMesh, addr), k, LogAfter(s, Register(c, key, canMesh, addr), k, log))
  {
    if key == k && k in s.table.clients {
      match s.table.clients[k]
      case Single(o) =>
        Dup.TrimSnoc([], o, {o, c});
        assert [] + [o] == [o];
      case Several(ds) =>
        assert c !in log;
        Dup.TrimIgnores(log, ds.members, c);
        Dup.TrimSnoc(log, c, ds.members + {c});
        Dup.TrimKeeps(log, ds.members);
        assert ds.history != [] ==> ds.history[|ds.history| - 1] in ds.history;
    }
  }

  lemma ActivityLogged(s: Srv, c: ConnNum, k: NodeKey, log: seq<ConnNum>)
    requires Clients.Agree(s.table.clients, s.table.conns) && c in s.table.conns && c in s.noting && Logged(s.table, k, log)
    ensures Logged(Clients.NoteActivity(s.table, s.policy, c), k, LogAfter(s, Activity(c), k, log))
  {
    if s.table.conns[c].key == k && s.table.clients[k].Several? {
      Dup.TrimSnoc(log, c, s.table.clients[k].ds.members);
    }
  }

  lemma UnregisterLogged(s: Srv, c: ConnNum, k: NodeKey, log: seq<ConnNum>)
    requires Clients.Agree(s.table.clients, s.table.conns) && c in s.table.conns && Logged(s.table, k, log)
    ensures Logged(Clients.Unregister(s.table, c), k, log)
  {
    if s.table.conns[c].key == k && s.table.clients[k].Several? {
      var members := s.table.clients[k].ds.members;
      assert c in members;
      Dup.TrimTwice(log, members, members - {c});
    }
  }

  lemma TableLogged(s: Srv, e: Event, k: NodeKey, log: seq<ConnNum>)
    requires Clients.Agree(s.table.clients, s.table.conns) && LogUsed(s, log) && Logged(s.table, k, log)
    ensures Logged(TableAfter(s, e), k, LogAfter(s, e, k, log))
  {
    match e
    case Register(c, key, canMesh, addr) => if c in s.accepted { RegisterLogged(s, c, key, canMesh, addr, k, log); }
    case Unregister(c) => if c in s.table.conns { UnregisterLogged(s, c, k, log); }
    case Activity(c) => if c in s.table.conns && c in s.noting { ActivityLogged(s, c, k, log); }
    case NotePreferred(c, v) => if c in s.table.conns { Clients.SetPreferredOthers(s.table, c, v); }
    case _ =>
  }

  lemma StaysLogUsed(s: Srv, e: Event, k: NodeKey, log: seq<ConnNum>)
    requires Clients.Agree(s.table.clients, s.table.conns) && Numbered(s) && LogUsed(s, log)
    ensures LogUsed(Step(s, e), LogAfter(s, e, k, log))
  {
    StepNumbers(s, e);
    forall x | x in LogAfter(s, e, k, log) ensures !Fights.Unused(Step(s, e), x) {
      Fights.StaysUsed(s, e, x);
      if k in s.table.clients {
        assert Clients.SetOk(k, s.table.clients[k], s.table.conns);
      }
    }
  }

  /** At every point of every run. */
  lemma {:induction false} RunLogged(policy: DupPolicy, publicKey: NodeKey, events: seq<Event>, k: NodeKey)
    ensures Logged(Run(policy, publicKey, events).table, k, Log(policy, publicKey, events, k))
    ensures LogUsed(Run(policy, publicKey, events), Log(policy, publicKey, events, k))
    decreases |events|
  {
    if events != [] {
      var before, e := events[..|events| - 1], events[|events| - 1];
      var s, log := Run(policy, publicKey, before), Log(policy, publicKey, before, k);
      RunLogged(policy, publicKey, before, k);
      RunAgrees(policy, publicKey, before);
      TableLogged(s, e, k, log);
      StepTable(s, e);
      StaysLogUsed(s, e, k, log);
    }
  }

  // ----- Who takes over -----

  /** `x` is the one of `members` that was noted last. */
  ghost predicate NotedLast(log: seq<ConnNum>, members: set<ConnNum>, x: ConnNum) {
    exists i :: 0 <= i < |log| && log[i] == x && x in members && forall j :: i < j < |log| ==> log[j] !in members
  }

  lemma {:induction false} TrimEndIsNoted(log: seq<ConnNum>, members: set<ConnNum>) returns (i: nat)
    requires Dup.Trim(log, members) != []
    ensures i < |log| && log[i] in members && forall j :: i < j < |log| ==> log[j] !in members
  {
    var n := |log| - 1;
    if log[n] in members {
      i := n;
    } else {
      i := TrimEndIsNoted(log[..n], members);
    }
  }

  lemma EndsWithNoted(log: seq<ConnNum>, members: set<ConnNum>, x: ConnNum)
    ensures var kept := Dup.Trim(log, members); kept != [] && kept[|kept| - 1] == x <==> NotedLast(log, members, x)
  {
    if i :| 0 <= i < |log| && log[i] == x && x in members && forall j :: i < j < |log| ==> log[j] !in members {
      Dup.TrimEndsWith(log, members, i);
    }
    if Dup.Trim(log, members) != [] {
      var i := TrimEndIsNoted(log, members);
      Dup.TrimEndsWith(log, members, i);
    }
  }

  /** `c` is the active connection of a key that has at least two others. */
  ghost predicate ActiveOfSeveral(t: Clients.Table, c: ConnNum) {
    && c in t.conns && t.conns[c].key in t.clients && t.clients[t.conns[c].key].Several?
    && var ds := t.clients[t.conns[c].key].ds; ds.last == Some(c) && |ds.members| >= 3
  }

  lemma RemovedElects(t: Clients.Table, c: ConnNum, log: seq<ConnNum>, x: ConnNum)
    requires Clients.Agree(t.clients, t.conns) && ActiveOfSeveral(t, c) && Logged(t, t.conns[c].key, log)
    ensures var k, t' := t.conns[c].key, Clients.Unregister(t, c);
      && k in t'.clients && t'.clients[k].Several?
      && (t'.clients[k].ds.last == Some(x) <==> NotedLast(log, Clients.Members(t.clients[k]) - {c}, x))
  {
    var ds := t.clients[t.conns[c].key].ds;
    var rest := ds.members - {c};
    assert Clients.SetOk(t.conns[c].key, t.clients[t.conns[c].key], t.conns);
    Dup.RemoveKeepsValid(ds, c);
    Dup.TrimTwice(log, ds.members, rest);
    EndsWithNoted(log, rest, x);
  }

  /** At every point of every run, under either policy: when the active connection of a key with
      several others unregisters, the one of the others that was noted last in the run takes over,
      and gets the key's packets unless it is disabled. */
  lemma LastNotedTakesOver(policy: DupPolicy, publicKey: NodeKey, events: seq<Event>, c: ConnNum, x: ConnNum)
    requires ActiveOfSeveral(Run(policy, publicKey, events).table, c)
    ensures var s := Run(policy, publicKey, events);
      var k, t' := s.table.conns[c].key, Step(s, Unregister(c)).table;
      && k in t'.clients && t'.clients[k].Several?
      && (t'.clients[k].ds.last == Some(x) <==>
            NotedLast(Log(policy, publicKey, events, k), Clients.Members(s.table.clients[k]) - {c}, x))
  {
    var s := Run(policy, publicKey, events);
    var k := s.table.conns[c].key;
    RunAgrees(policy, publicKey, events);
    RunLogged(policy, publicKey, events, k);
    RemovedElects(s.table, c, Log(policy, publicKey, events, k), x);
    StepTable(s, Unregister(c));
  }

  /** When another one unregisters, who is active stays so. */
  lemma ActiveStays(policy: DupPolicy, publicKey: NodeKey, events: seq<Event>, c: ConnNum, x: ConnNum)
    requires var t := Run(policy, publicKey, events).table;
      && c in t.conns && t.conns[c].key in t.clients && t.clients[t.conns[c].key].Several?
      && t.clients[t.conns[c].key].ds.last == Some(x) && x != c
    ensures var s := Run(policy, publicKey, events);
      var k, t' := s.table.conns[c].key, Step(s, Unregister(c)).table;
      k in t'.clients && if t'.clients[k].Several? then t'.clients[k].ds.last == Some(x) else t'.clients[k].c == x
  {
    var s := Run(policy, publicKey, events);
    RunAgrees(policy, publicKey, events);
    StepTable(s, Unregister(c));
    var k := s.table.conns[c].key;
    assert Clients.SetOk(k, s.table.clients[k], s.table.conns);
    Dup.RemoveKeepsValid(s.table.clients[k].ds, c);
    assert x in s.table.clients[k].ds.members - {c};
  }

  lemma FightsLogged(ds: Dup.DupSet, log: seq<ConnNum>, c: ConnNum)
    requires ds.history == Dup.Trim(log, ds.members) && c in ds.members
    ensures Clients.Fights(ds, c) <==> c in log && !NotedLast(log, ds.members, c)
  {
    Dup.TrimKeeps(log, ds.members);
    EndsWithNoted(log, ds.members, c);
  }

  /** A connection that sends fights exactly if it was noted before and another one that is still
      connected has been noted since. */
  lemma FightsExactly(policy: DupPolicy, publicKey: NodeKey, events: seq<Event>, k: NodeKey, c: ConnNum)
    requires var t := Run(policy, publicKey, events).table;
      k in t.clients && t.clients[k].Several? && c in Clients.Members(t.clients[k])
    ensures var t, log := Run(policy, publicKey, events).table, Log(policy, publicKey, events, k);
      Clients.Fights(t.clients[k].ds, c) <==> c in log && !NotedLast(log, Clients.Members(t.clients[k]), c)
  {
    RunLogged(policy, publicKey, events, k);
    FightsLogged(Run(policy, publicKey, events).table.clients[k].ds, Log(policy, publicKey, events, k), c);
  }
}
