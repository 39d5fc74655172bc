/** The table of local connections: registering, unregistering, activity, and its gauges. */
module DerpClients {
  import opened Wrappers
  import opened MapSum
  import opened DerpTypes
  import Dup = DerpDup

  datatype ClientSet = Single(c: ConnNum) | Several(ds: Dup.DupSet)

  /** The parts of a connection that the server lock guards. */
  datatype Conn = Conn(
    key: NodeKey, canMesh: bool, addr: AddrPort, isDup: bool, isDisabled: bool, preferred: bool)

  datatype Table = Table(
    clients: map<NodeKey, ClientSet>, conns: map<ConnNum, Conn>,
    curClients: int, curHomeClients: int, dupKeys: int, dupConns: int, dupTotal: int)

  const EMPTY_TABLE := Table(map[], map[], 0, 0, 0, 0, 0)

  function Members(cs: ClientSet): set<ConnNum> {
    match cs
    case Single(c) => {c}
    case Several(ds) => ds.members
  }

  /** The connection that gets the key's traffic, unless it is disabled. */
  function Active(conns: map<ConnNum, Conn>, cs: ClientSet): Option<ConnNum> {
    match cs
    case Single(c) => Some(c)
    case Several(ds) =>
      if ds.last.Some? && !(ds.last.value in conns && conns[ds.last.value].isDisabled) then ds.last else None
  }

  // ----- What the gauges count -----

  function Size(k: NodeKey, cs: ClientSet): int { |Members(cs)| }

  function DupOne(k: NodeKey, cs: ClientSet): int { if cs.Several? then 1 else 0 }

  function DupSize(k: NodeKey, cs: ClientSet): int { if cs.Several? then |Members(cs)| else 0 }

  function Home(c: ConnNum, conn: Conn): int { if conn.preferred then 1 else 0 }

  /** The three client sums after filing `cs` under `k`. */
  lemma SumsPut(m: map<NodeKey, ClientSet>, k: NodeKey, cs: ClientSet)
    ensures Sum(m[k := cs], Size) == Sum(m, Size) - (if k in m then Size(k, m[k]) else 0) + Size(k, cs)
    ensures Sum(m[k := cs], DupOne) == Sum(m, DupOne) - (if k in m then DupOne(k, m[k]) else 0) + DupOne(k, cs)
    ensures Sum(m[k := cs], DupSize) == Sum(m, DupSize) - (if k in m then DupSize(k, m[k]) else 0) + DupSize(k, cs)
  {
    SumUpdate(m, Size, k, cs);
    SumUpdate(m, DupOne, k, cs);
    SumUpdate(m, DupSize, k, cs);
  }

  lemma SumsDrop(m: map<NodeKey, ClientSet>, k: NodeKey)
    requires k in m
    ensures Sum(m - {k}, Size) == Sum(m, Size) - Size(k, m[k])
    ensures Sum(m - {k}, DupOne) == Sum(m, DupOne) - DupOne(k, m[k])
    ensures Sum(m - {k}, DupSize) == Sum(m, DupSize) - DupSize(k, m[k])
  {
    SumSplit(m, Size, k);
    SumSplit(m, DupOne, k);
    SumSplit(m, DupSize, k);
  }

  lemma HomesPut(conns: map<ConnNum, Conn>, c: ConnNum, conn: Conn)
    ensures Sum(conns[c := conn], Home) == Sum(conns, Home) - (if c in conns then Home(c, conns[c]) else 0) + Home(c, conn)
    ensures |conns[c := conn]| == if c in conns then |conns| else |conns| + 1
  {
    SumUpdate(conns, Home, c, conn);
    assert conns[c := conn].Keys == conns.Keys + {c};
  }

  lemma HomesDrop(conns: map<ConnNum, Conn>, c: ConnNum)
    requires c in conns
    ensures Sum(conns - {c}, Home) == Sum(conns, Home) - Home(c, conns[c])
    ensures |conns - {c}| == |conns| - 1
  {
    SumSplit(conns, Home, c);
    assert (conns - {c}).Keys == conns.Keys - {c};
  }

  // ----- The invariant -----

  /** The set filed under `k` and the connections it names agree. */
  ghost predicate SetOk(k: NodeKey, cs: ClientSet, conns: map<ConnNum, Conn>) {
    && (cs.Several? ==> Dup.Valid(cs.ds))
    && forall c :: c in Members(cs) ==>
         c in conns && conns[c].key == k && conns[c].isDup == cs.Several? && (conns[c].isDisabled ==> cs.Several?)
  }

  ghost predicate Agree(clients: map<NodeKey, ClientSet>, conns: map<ConnNum, Conn>) {
    && (forall k :: k in clients ==> SetOk(k, clients[k], conns))
    && (forall c :: c in conns ==> conns[c].key in clients && c in Members(clients[conns[c].key]))
  }

  ghost predicate Gauges(t: Table) {
    && t.curClients == |t.conns| == Sum(t.clients, Size)
    && t.curHomeClients == Sum(t.conns, Home)
    && t.dupKeys == Sum(t.clients, DupOne)
    && t.dupConns == Sum(t.clients, DupSize)
  }

  ghost predicate Inv(t: Table) {
    Agree(t.clients, t.conns) && Gauges(t)
  }

  /** The published gauges are related: extra connections are those in dup sets. */
  lemma GaugeLaw(t: Table)
    requires Inv(t)
    ensures t.curClients - |t.clients| == t.dupConns - t.dupKeys
  {
    var one := (k: NodeKey, cs: ClientSet) => 1;
    var extra := (k: NodeKey, cs: ClientSet) => |Members(cs)| - 1;
    SumOnes(t.clients, one);
    SumAdd(t.clients, extra, one, Size);
    SumAdd(t.clients, extra, DupOne, DupSize);
  }

  /** The consistency check compares `curClients` with the number of keys: they are equal exactly
      when no key has a second connection. */
  lemma ConsistencyCheckExact(t: Table)
    requires Inv(t)
    ensures t.curClients == |t.clients| <==> forall k :: k in t.clients ==> t.clients[k].Single?
  {
    GaugeLaw(t);
    SumAdd(t.clients, Extra, DupOne, DupSize);
    if k :| k in t.clients && t.clients[k].Several? {
      ExtraIsPositive(t, k);
    } else {
      SumZero(t.clients, Extra);
    }
  }

  /** How many connections a set has beyond the first. */
  function Extra(k: NodeKey, cs: ClientSet): int { DupSize(k, cs) - DupOne(k, cs) }

  lemma ExtraIsPositive(t: Table, k: NodeKey)
    requires Agree(t.clients, t.conns) && k in t.clients && t.clients[k].Several?
    ensures Sum(t.clients, Extra) > 0
  {
    SumSplit(t.clients, Extra, k);
    assert SetOk(k, t.clients[k], t.conns);
    forall j | j in t.clients - {k} ensures Extra(j, t.clients[j]) >= 0 {
      assert SetOk(j, t.clients[j], t.conns);
    }
    SumNonNegative(t.clients - {k}, Extra);
  }

  lemma {:induction false} SumZero(m: map<NodeKey, ClientSet>, f: (NodeKey, ClientSet) -> int)
    requires forall k :: k in m ==> f(k, m[k]) == 0
    ensures Sum(m, f) == 0
    decreases |m|
  {
    if m != map[] {
      var k :| k in m;
      SumSplit(m, f, k);
      SumZero(m - {k}, f);
    }
  }

  /** Under the last-writer policy nothing is ever disabled, so every key has an active client. */
  ghost predicate NoneDisabled(t: Table) {
    forall c :: c in t.conns ==> !t.conns[c].isDisabled
  }

  lemma EveryKeyActive(t: Table, k: NodeKey)
    requires Agree(t.clients, t.conns) && NoneDisabled(t) && k in t.clients
    ensures Active(t.conns, t.clients[k]).Some?
    ensures Active(t.conns, t.clients[k]).value in Members(t.clients[k])
  {
    assert SetOk(k, t.clients[k], t.conns);
  }

  // ----- Registering -----

  function Register(t: Table, c: ConnNum, key: NodeKey, canMesh: bool, addr: AddrPort): Table {
    var conn := Conn(key, canMesh, addr, key in t.clients, false, false);
    var conns := t.conns[c := conn];
    if key !in t.clients then
      t.(clients := t.clients[key := Single(c)], conns := conns, curClients := t.curClients + 1)
    else
      match t.clients[key]
      case Single(o) =>
        t.(clients := t.clients[key := Several(Dup.Pair(o, c))],
           conns := if o in t.conns then conns[o := t.conns[o].(isDup := true)] else conns,
           curClients := t.curClients + 1, dupKeys := t.dupKeys + 1, dupConns := t.dupConns + 2, dupTotal := t.dupTotal + 1)
      case Several(ds) =>
        t.(clients := t.clients[key := Several(Dup.Add(ds, c))], conns := conns,
           curClients := t.curClients + 1, dupConns := t.dupConns + 1, dupTotal := t.dupTotal + 1)
  }

  /** Filing the set `cs` under `key` while only connections of that key change. */
  lemma AgreePut(
      clients: map<NodeKey, ClientSet>, conns: map<ConnNum, Conn>, conns': map<ConnNum, Conn>, key: NodeKey, cs: ClientSet)
    requires Agree(clients, conns) && SetOk(key, cs, conns')
    requires OthersSame(conns, conns', key)
    requires forall c :: c in conns' && conns'[c].key == key ==> c in Members(cs)
    ensures Agree(clients[key := cs], conns')
  {
    var clients' := clients[key := cs];
    forall k | k in clients' ensures SetOk(k, clients'[k], conns') {
      if k != key {
        assert SetOk(k, clients[k], conns);
      }
    }
  }

  ghost predicate OthersSame(conns: map<ConnNum, Conn>, conns': map<ConnNum, Conn>, key: NodeKey) {
    && (forall c :: c in conns && conns[c].key != key ==> c in conns' && conns'[c] == conns[c])
    && (forall c :: c in conns' && conns'[c].key != key ==> c in conns && conns'[c] == conns[c])
  }

  /** Dropping the last connection of `key`. */
  lemma AgreeDrop(clients: map<NodeKey, ClientSet>, conns: map<ConnNum, Conn>, key: NodeKey, c: ConnNum)
    requires Agree(clients, conns) && key in clients && clients[key] == Single(c)
    ensures Agree(clients - {key}, conns - {c})
  {
    var clients', conns' := clients - {key}, conns - {c};
    assert SetOk(key, clients[key], conns);
    forall k | k in clients' ensures SetOk(k, clients'[k], conns') {
      assert SetOk(k, clients[k], conns);
    }
  }

  lemma RegisterKeepsAgree(t: Table, c: ConnNum, key: NodeKey, canMesh: bool, addr: AddrPort)
    requires Agree(t.clients, t.conns) && c !in t.conns
    ensures var t' := Register(t, c, key, canMesh, addr); Agree(t'.clients, t'.conns)
  {
    var t' := Register(t, c, key, canMesh, addr);
    if key in t.clients {
      assert SetOk(key, t.clients[key], t.conns);
      match t.clients[key]
      case Single(o) => Dup.PairValid(o, c);
      case Several(ds) => Dup.AddKeepsValid(ds, c);
    }
    AgreePut(t.clients, t.conns, t'.conns, key, t'.clients[key]);
  }

  lemma RegisterKeepsGauges(t: Table, c: ConnNum, key: NodeKey, canMesh: bool, addr: AddrPort)
    requires Inv(t) && c !in t.conns
    ensures Gauges(Register(t, c, key, canMesh, addr))
  {
    var t' := Register(t, c, key, canMesh, addr);
    var conn := Conn(key, canMesh, addr, key in t.clients, false, false);
    SumsPut(t.clients, key, t'.clients[key]);
    HomesPut(t.conns, c, conn);
    if key in t.clients {
      assert SetOk(key, t.clients[key], t.conns);
      match t.clients[key]
      case Single(o) =>
        assert |{o, c}| == 2;
        HomesPut(t.conns[c := conn], o, t.conns[o].(isDup := true));
      case Several(ds) =>
        assert |ds.members + {c}| == |ds.members| + 1;
    }
  }

  /** Registering keeps the table consistent; the key is now present. */
  lemma RegisterKeepsInv(t: Table, c: ConnNum, key: NodeKey, canMesh: bool, addr: AddrPort)
    requires Inv(t) && c !in t.conns
    ensures Inv(Register(t, c, key, canMesh, addr))
  {
    RegisterKeepsAgree(t, c, key, canMesh, addr);
    RegisterKeepsGauges(t, c, key, canMesh, addr);
  }

  lemma RegisterKeys(t: Table, c: ConnNum, key: NodeKey, canMesh: bool, addr: AddrPort)
    requires Agree(t.clients, t.conns)
    ensures var t' := Register(t, c, key, canMesh, addr);
      && t'.clients.Keys == t.clients.Keys + {key} && t'.conns.Keys == t.conns.Keys + {c}
      && (NoneDisabled(t) ==> NoneDisabled(t'))
  {
    if key in t.clients {
      assert SetOk(key, t.clients[key], t.conns);
    }
  }

  /** No other connection changes its key or its rights. */
  lemma RegisterOthers(t: Table, c: ConnNum, key: NodeKey, canMesh: bool, addr: AddrPort)
    requires c !in t.conns
    ensures var t' := Register(t, c, key, canMesh, addr);
      forall x :: x in t.conns ==> x in t'.conns && t'.conns[x].key == t.conns[x].key && t'.conns[x].canMesh == t.conns[x].canMesh
  {
  }

  // ----- Unregistering -----

  function Unregister(t: Table, c: ConnNum): Table
    requires c in t.conns
  {
    var key := t.conns[c].key;
    var conns := t.conns - {c};
    var t1 := t.(curClients := t.curClients - 1,
                 curHomeClients := if t.conns[c].preferred then t.curHomeClients - 1 else t.curHomeClients);
    if key !in t.clients then t1.(conns := conns)
    else
      match t.clients[key]
      case Single(_) => t1.(clients := t.clients - {key}, conns := conns)
      case Several(ds) =>
        var ds' := Dup.Remove(ds, c);
        if |ds'.members| == 1 then
          var remain := Only(ds'.members);
          t1.(clients := t.clients[key := Single(remain)],
              conns := if remain in conns then conns[remain := conns[remain].(isDisabled := false, isDup := false)] else conns,
              dupKeys := t.dupKeys - 1, dupConns := t.dupConns - 2)
        else t1.(clients := t.clients[key := Several(ds')], conns := conns, dupConns := t.dupConns - 1)
  }

  /** The one element of a singleton set. */
  function Only(s: set<ConnNum>): (c: ConnNum)
    requires |s| == 1
    ensures s == {c}
  {
    OnlyExists(s);
    var c :| c in s && s == {c};
    c
  }

  lemma OnlyExists(s: set<ConnNum>)
    requires |s| == 1
    ensures exists c :: c in s && s == {c}
  {
    var c :| c in s;
    assert |s - {c}| == 0;
    assert s == {c};
  }

  lemma UnregisterKeepsAgree(t: Table, c: ConnNum)
    requires Agree(t.clients, t.conns) && c in t.conns
    ensures Agree(Unregister(t, c).clients, Unregister(t, c).conns)
  {
    var key := t.conns[c].key;
    assert SetOk(key, t.clients[key], t.conns);
    match t.clients[key]
    case Single(_) => AgreeDrop(t.clients, t.conns, key, c);
    case Several(ds) =>
      Dup.RemoveKeepsValid(ds, c);
      var t' := Unregister(t, c);
      AgreePut(t.clients, t.conns, t'.conns, key, t'.clients[key]);
  }

  lemma UnregisterSingleGauges(t: Table, c: ConnNum)
    requires Gauges(t) && c in t.conns && t.conns[c].key in t.clients
    requires t.clients[t.conns[c].key].Single?
    ensures Gauges(Unregister(t, c))
  {
    HomesDrop(t.conns, c);
    SumsDrop(t.clients, t.conns[c].key);
  }

  lemma UnregisterSeveralGauges(t: Table, c: ConnNum, ds: Dup.DupSet)
    requires Gauges(t) && c in t.conns && t.conns[c].key in t.clients
    requires t.clients[t.conns[c].key] == Several(ds) && Dup.Valid(ds) && c in ds.members
    requires forall m :: m in ds.members ==> m in t.conns
    ensures Gauges(Unregister(t, c))
  {
    HomesDrop(t.conns, c);
    Dup.RemoveKeepsValid(ds, c);
    SumsPut(t.clients, t.conns[c].key, Unregister(t, c).clients[t.conns[c].key]);
    if |Dup.Remove(ds, c).members| == 1 {
      var remain := Only(Dup.Remove(ds, c).members);
      var conns := t.conns - {c};
      HomesPut(conns, remain, conns[remain].(isDisabled := false, isDup := false));
    }
  }

  /** Unregistering keeps the table consistent. */
  lemma UnregisterKeepsInv(t: Table, c: ConnNum)
    requires Inv(t) && c in t.conns
    ensures Inv(Unregister(t, c))
  {
    UnregisterKeepsAgree(t, c);
    var cs := t.clients[t.conns[c].key];
    assert SetOk(t.conns[c].key, cs, t.conns);
    match cs
    case Single(_) => UnregisterSingleGauges(t, c);
    case Several(ds) => UnregisterSeveralGauges(t, c, ds);
  }

  /** The key disappears exactly with its last connection. */
  lemma UnregisterKeys(t: Table, c: ConnNum)
    requires Agree(t.clients, t.conns) && c in t.conns
    ensures var t' := Unregister(t, c);
      && t'.conns.Keys == t.conns.Keys - {c}
      && t'.clients.Keys == (if t.clients[t.conns[c].key].Single? then t.clients.Keys - {t.conns[c].key} else t.clients.Keys)
      && (NoneDisabled(t) ==> NoneDisabled(t'))
  {
    var key := t.conns[c].key;
    assert SetOk(key, t.clients[key], t.conns);
  }

  lemma UnregisterOthers(t: Table, c: ConnNum)
    requires c in t.conns
    ensures var t' := Unregister(t, c);
      forall x :: x in t.conns && x != c ==>
        x in t'.conns && t'.conns[x].key == t.conns[x].key && t'.conns[x].canMesh == t.conns[x].canMesh
  {
  }

  // ----- Activity -----

  /** All members of a fighting set are disabled. */
  function DisableAll(conns: map<ConnNum, Conn>, members: set<ConnNum>): map<ConnNum, Conn> {
    map c | c in conns :: if c in members then conns[c].(isDisabled := true) else conns[c]
  }

  function NoteActivity(t: Table, policy: DupPolicy, c: ConnNum): Table
    requires c in t.conns
  {
    var key := t.conns[c].key;
    if key !in t.clients || t.clients[key].Single? then t
    else
      var ds := t.clients[key].ds;
      var spokeLast := ds.history != [] && ds.history[|ds.history| - 1] == c;
      var fighting := policy == DisableFighters && !spokeLast && c in ds.history;
      t.(clients := t.clients[key := Several(Dup.NoteSend(ds, policy, c))],
         conns := if fighting then DisableAll(t.conns, ds.members) else t.conns)
  }

  lemma NoteActivityKeepsAgree(t: Table, policy: DupPolicy, c: ConnNum)
    requires Agree(t.clients, t.conns) && c in t.conns
    ensures Agree(NoteActivity(t, policy, c).clients, NoteActivity(t, policy, c).conns)
  {
    var key := t.conns[c].key;
    assert SetOk(key, t.clients[key], t.conns);
    if t.clients[key].Several? {
      var t' := NoteActivity(t, policy, c);
      Dup.NoteSendKeepsValid(t.clients[key].ds, policy, c);
      AgreePut(t.clients, t.conns, t'.conns, key, t'.clients[key]);
    }
  }

  lemma NoteActivityKeepsGauges(t: Table, policy: DupPolicy, c: ConnNum)
    requires Gauges(t) && c in t.conns
    ensures Gauges(NoteActivity(t, policy, c))
  {
    var key := t.conns[c].key;
    if key in t.clients && t.clients[key].Several? {
      var t' := NoteActivity(t, policy, c);
      SumsPut(t.clients, key, t'.clients[key]);
      assert t'.conns.Keys == t.conns.Keys;
      SumCongruent(t.conns, Home, t'.conns, Home);
    }
  }

  /** Noting activity keeps the table consistent under either policy. */
  lemma NoteActivityKeepsInv(t: Table, policy: DupPolicy, c: ConnNum)
    requires Inv(t) && c in t.conns
    ensures Inv(NoteActivity(t, policy, c))
  {
    NoteActivityKeepsAgree(t, policy, c);
    NoteActivityKeepsGauges(t, policy, c);
  }

  lemma NoteActivityKeys(t: Table, policy: DupPolicy, c: ConnNum)
    requires Agree(t.clients, t.conns) && c in t.conns
    ensures var t' := NoteActivity(t, policy, c);
      && t'.conns.Keys == t.conns.Keys && t'.clients.Keys == t.clients.Keys
      && (policy == LastWriterIsActive && NoneDisabled(t) ==> NoneDisabled(t'))
  {
    assert SetOk(t.conns[c].key, t.clients[t.conns[c].key], t.conns);
  }

  lemma NoteActivityOthers(t: Table, policy: DupPolicy, c: ConnNum)
    requires c in t.conns
    ensures var t' := NoteActivity(t, policy, c);
      forall x :: x in t.conns ==> x in t'.conns && t'.conns[x].key == t.conns[x].key && t'.conns[x].canMesh == t.conns[x].canMesh
  {
  }

  /** The client says whether this is its home server. */
  function SetPreferred(t: Table, c: ConnNum, v: bool): Table
    requires c in t.conns
  {
    if t.conns[c].preferred == v then t
    else t.(conns := t.conns[c := t.conns[c].(preferred := v)],
            curHomeClients := if v then t.curHomeClients + 1 else t.curHomeClients - 1)
  }

  lemma SetPreferredKeepsInv(t: Table, c: ConnNum, v: bool)
    requires Inv(t) && c in t.conns
    ensures Inv(SetPreferred(t, c, v))
    ensures NoneDisabled(t) ==> NoneDisabled(SetPreferred(t, c, v))
  {
    PreferredAgree(t.clients, t.conns, c, v);
    HomesPut(t.conns, c, t.conns[c].(preferred := v));
  }

  lemma SetPreferredOthers(t: Table, c: ConnNum, v: bool)
    requires c in t.conns
    ensures var t' := SetPreferred(t, c, v);
      && t'.clients == t.clients && t'.conns.Keys == t.conns.Keys
      && (forall x :: x in t.conns ==> t'.conns[x].key == t.conns[x].key && t'.conns[x].canMesh == t.conns[x].canMesh)
  {
  }

  lemma PreferredAgree(clients: map<NodeKey, ClientSet>, conns: map<ConnNum, Conn>, c: ConnNum, v: bool)
    requires Agree(clients, conns) && c in conns
    ensures Agree(clients, conns[c := conns[c].(preferred := v)])
  {
    var conns' := conns[c := conns[c].(preferred := v)];
    forall k | k in clients ensures SetOk(k, clients[k], conns') {
      assert SetOk(k, clients[k], conns);
    }
  }

  // ----- Who is active -----

  lemma RegisteredIsActive(t: Table, c: ConnNum, key: NodeKey, canMesh: bool, addr: AddrPort)
    requires Agree(t.clients, t.conns) && c !in t.conns
    ensures var t' := Register(t, c, key, canMesh, addr); key in t'.clients && Active(t'.conns, t'.clients[key]) == Some(c)
  {
    if key in t.clients {
      assert SetOk(key, t.clients[key], t.conns);
    }
  }

  lemma SenderIsElected(t: Table, c: ConnNum)
    requires Agree(t.clients, t.conns) && NoneDisabled(t) && c in t.conns
    ensures var t', key := NoteActivity(t, LastWriterIsActive, c), t.conns[c].key;
      key in t'.clients && Active(t'.conns, t'.clients[key]) == Some(c)
  {
    assert SetOk(t.conns[c].key, t.clients[t.conns[c].key], t.conns);
  }

  /** A connection that is not a duplicate is the active one of its key. */
  lemma LoneIsActive(t: Table, c: ConnNum)
    requires Agree(t.clients, t.conns) && c in t.conns
    ensures t.conns[c].key in t.clients && (!t.conns[c].isDup ==> Active(t.conns, t.clients[t.conns[c].key]) == Some(c))
  {
    assert SetOk(t.conns[c].key, t.clients[t.conns[c].key], t.conns);
  }

  /** `c` has sent before, and another member since. */
  predicate Fights(ds: Dup.DupSet, c: ConnNum) {
    c in ds.history && ds.history[|ds.history| - 1] != c
  }

  lemma FightersLose(t: Table, c: ConnNum)
    requires Agree(t.clients, t.conns) && c in t.conns && t.conns[c].key in t.clients && t.clients[t.conns[c].key].Several?
    ensures var t', key := NoteActivity(t, DisableFighters, c), t.conns[c].key;
      && key in t'.clients && |Members(t'.clients[key])| >= 2
      && if Fights(t.clients[key].ds, c) then Active(t'.conns, t'.clients[key]) == None
         else t'.conns == t.conns && Active(t'.conns, t'.clients[key]) == Active(t.conns, t.clients[key])
  {
    assert SetOk(t.conns[c].key, t.clients[t.conns[c].key], t.conns);
  }

  lemma SurvivorIsActive(t: Table, c: ConnNum, rest: ConnNum)
    requires Agree(t.clients, t.conns) && c in t.conns && t.conns[c].key in t.clients
    requires Members(t.clients[t.conns[c].key]) == {c, rest} && c != rest
    ensures var t', key := Unregister(t, c), t.conns[c].key;
      && key in t'.clients && t'.clients[key] == Single(rest)
      && rest in t'.conns && !t'.conns[rest].isDisabled && !t'.conns[rest].isDup
  {
    var key := t.conns[c].key;
    assert SetOk(key, t.clients[key], t.conns);
    assert c in Members(t.clients[key]) && rest in Members(t.clients[key]);
    assert {c, rest} - {c} == {rest};
  }

  /** Whoever is disabled after was disabled before. */
  ghost predicate NoneNewlyDisabled(conns: map<ConnNum, Conn>, conns': map<ConnNum, Conn>) {
    forall x :: x in conns' && conns'[x].isDisabled ==> x in conns && conns[x].isDisabled
  }

  lemma RegisterDisablesNone(t: Table, c: ConnNum, key: NodeKey, canMesh: bool, addr: AddrPort)
    ensures NoneNewlyDisabled(t.conns, Register(t, c, key, canMesh, addr).conns) || c in t.conns
  {
  }

  lemma UnregisterDisablesNone(t: Table, c: ConnNum)
    requires c in t.conns
    ensures NoneNewlyDisabled(t.conns, Unregister(t, c).conns)
  {
  }

  lemma PreferredDisablesNone(t: Table, c: ConnNum, v: bool)
    requires c in t.conns
    ensures NoneNewlyDisabled(t.conns, SetPreferred(t, c, v).conns)
  {
  }

  /** Noting activity disables only the members of a set whose member fights. */
  lemma ActivityDisables(t: Table, policy: DupPolicy, c: ConnNum, x: ConnNum)
    requires Agree(t.clients, t.conns) && c in t.conns
    requires var conns' := NoteActivity(t, policy, c).conns; x in conns' && conns'[x].isDisabled
    requires !(x in t.conns && t.conns[x].isDisabled)
    ensures policy == DisableFighters && t.conns[c].key in t.clients && t.clients[t.conns[c].key].Several?
    ensures x in Members(t.clients[t.conns[c].key]) && Fights(t.clients[t.conns[c].key].ds, c)
  {
  }
}
