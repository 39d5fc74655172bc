/** Packet forwarders: which mesh peers can reach a key. An entry refines the list of distinct
    forwarders in the order they registered, of which the first is used. */
module DerpMesh {
  import opened Wrappers
  import opened MapSum
  import opened DerpTypes

  const INDEX_RANGE := 256

  /** `Nil` marks a key that is only local. `all` gives each forwarder a one-byte index. */
  datatype Entry = Nil | One(f: Fwd) | Multi(fwd: Fwd, all: map<Fwd, nat>)

  // ----- Indices -----

  ghost predicate IsMax(all: map<Fwd, nat>, m: nat) {
    (forall f :: f in all ==> all[f] <= m) && (m == 0 || exists f :: f in all && all[f] == m)
  }

  ghost predicate IsLowest(all: map<Fwd, nat>, f: Fwd) {
    f in all && forall g :: g in all ==> all[f] <= all[g]
  }

  lemma MaxUnique(all: map<Fwd, nat>, m: nat, n: nat)
    requires IsMax(all, m) && IsMax(all, n)
    ensures m == n
  {
  }

  /** The highest index in use. */
  method MaxIndex(all: map<Fwd, nat>) returns (max: nat)
    ensures IsMax(all, max)
  {
    max := 0;
    var rest := all.Keys;
    while rest != {}
      invariant rest <= all.Keys
      invariant forall f :: f in all && f !in rest ==> all[f] <= max
      invariant max == 0 || exists f :: f in all && all[f] == max
    {
      var f :| f in rest;
      if all[f] > max {
        max := all[f];
      }
      rest := rest - {f};
    }
  }

  /** A forwarder with the lowest index. */
  method LowestFwd(all: map<Fwd, nat>) returns (low: Fwd)
    requires all != map[]
    ensures IsLowest(all, low)
  {
    var rest := all.Keys;
    var found: Option<Fwd> := None;
    assert exists f :: f in all;
    while rest != {}
      invariant rest <= all.Keys
      invariant found.Some? ==> found.value in all && forall g :: g in all && g !in rest ==> all[found.value] <= all[g]
      invariant found.None? ==> rest == all.Keys
    {
      var f :| f in rest;
      if found.None? || all[f] < all[found.value] {
        found := Some(f);
      }
      rest := rest - {f};
    }
    low := found.value;
  }

  // ----- One entry -----

  /** Registering `f`; `max` is the highest index of a multi entry. The index is one byte. */
  function AddTo(e: Entry, f: Fwd, max: nat): Entry {
    match e
    case Nil => One(f)
    case One(g) => if g == f then e else Multi(g, map[g := 0, f := 1])
    case Multi(fwd, all) => if f in all then e else Multi(fwd, all[f := (max + 1) % INDEX_RANGE])
  }

  /** Removing `f` from a multi entry; `low` is the next preferred forwarder if `f` was it. */
  function RemoveFrom(e: Entry, f: Fwd, low: Fwd): Entry
    requires e.Multi?
  {
    var all := e.all - {f};
    if f !in e.all then e
    else if |all| == 1 then One(OnlyKey(all))
    else Multi(if f == e.fwd then low else e.fwd, all)
  }

  function OnlyKey(all: map<Fwd, nat>): (f: Fwd)
    requires |all| == 1
    ensures f in all && all.Keys == {f}
  {
    OnlyKeyExists(all);
    var f :| f in all && all.Keys == {f};
    f
  }

  lemma OnlyKeyExists(all: map<Fwd, nat>)
    requires |all| == 1
    ensures exists f :: f in all && all.Keys == {f}
  {
    var f :| f in all;
    assert |all.Keys - {f}| == 0;
    assert all.Keys == {f};
  }

  // ----- The list that an entry stands for -----

  /** The indices grow along the list. */
  ghost predicate Sorted(all: map<Fwd, nat>, l: seq<Fwd>) {
    l != [] ==>
      && l[0] in all && Sorted(all, l[1..])
      && forall f :: f in l[1..] ==> f in all && all[l[0]] < all[f]
  }

  /** The entry represents the forwarders `l`, oldest registration first. */
  ghost predicate Refines(e: Entry, l: seq<Fwd>) {
    match e
    case Nil => l == []
    case One(f) => l == [f]
    case Multi(fwd, all) => |l| >= 2 && Sorted(all, l) && all.Keys == Elems(l) && fwd == l[0]
  }

  /** The forwarder that packets for the key are given to. */
  function Used(e: Entry): Option<Fwd> {
    match e
    case Nil => None
    case One(f) => Some(f)
    case Multi(fwd, _) => Some(fwd)
  }

  function ListAdd(l: seq<Fwd>, f: Fwd): seq<Fwd> {
    if f in l then l else l + [f]
  }

  function ListRemove(l: seq<Fwd>, f: Fwd): seq<Fwd> {
    if l == [] then []
    else if l[0] == f then l[1..]
    else [l[0]] + ListRemove(l[1..], f)
  }

  lemma {:induction false} SortedFrame(all: map<Fwd, nat>, all': map<Fwd, nat>, l: seq<Fwd>)
    requires Sorted(all, l) && forall f :: f in l ==> f in all && f in all' && all'[f] == all[f]
    ensures Sorted(all', l)
  {
    if l != [] {
      SortedFrame(all, all', l[1..]);
    }
  }

  lemma {:induction false} SortedAppend(all: map<Fwd, nat>, l: seq<Fwd>, f: Fwd)
    requires Sorted(all, l) && f in all && forall g :: g in l ==> g in all && all[g] < all[f]
    ensures Sorted(all, l + [f])
  {
    if l == [] {
      assert l + [f] == [f] && [f][1..] == [];
    } else {
      SortedAppend(all, l[1..], f);
      assert (l + [f])[1..] == l[1..] + [f];
    }
  }

  /** A wrapped index breaks the order. */
  lemma {:induction false} NotSortedAppend(all: map<Fwd, nat>, l: seq<Fwd>, f: Fwd)
    requires l != [] && f in all && all[f] == 0
    ensures !Sorted(all, l + [f])
  {
    assert (l + [f])[1..] == l[1..] + [f];
    assert f in (l + [f])[1..];
  }

  lemma {:induction false} ListRemoveElems(all: map<Fwd, nat>, l: seq<Fwd>, f: Fwd)
    requires Sorted(all, l)
    ensures forall g :: g in ListRemove(l, f) <==> g in l && g != f
    ensures |ListRemove(l, f)| == if f in l then |l| - 1 else |l|
  {
    if l != [] {
      assert l == [l[0]] + l[1..];
      if l[0] != f {
        ListRemoveElems(all, l[1..], f);
      }
    }
  }

  /** Removing one forwarder leaves the others in order. */
  lemma {:induction false} SortedRemove(all: map<Fwd, nat>, l: seq<Fwd>, f: Fwd)
    requires Sorted(all, l)
    ensures Sorted(all, ListRemove(l, f))
  {
    if l != [] && l[0] != f {
      SortedRemove(all, l[1..], f);
      ListRemoveElems(all, l[1..], f);
      assert ListRemove(l, f)[1..] == ListRemove(l[1..], f);
    }
  }

  lemma {:induction false} SortedSize(all: map<Fwd, nat>, l: seq<Fwd>)
    requires Sorted(all, l)
    ensures |Elems(l)| == |l|
  {
    if l != [] {
      SortedSize(all, l[1..]);
      ElemsCons(l, 0);
      assert l[0..] == l;
      assert l[0] !in Elems(l[1..]);
    }
  }

  /** Packets go to the forwarder that registered first among those still registered. */
  lemma UsedIsOldest(e: Entry, l: seq<Fwd>)
    requires Refines(e, l)
    ensures Used(e) == if l == [] then None else Some(l[0])
  {
  }

  /** Registering refines appending, exactly when the index does not wrap: the forwarder was
      known, or the entry is not multi, or its highest index is below 255. */
  lemma AddRefines(e: Entry, l: seq<Fwd>, f: Fwd, max: nat)
    requires Refines(e, l)
    requires e.Multi? ==> IsMax(e.all, max) && max < INDEX_RANGE
    ensures Refines(AddTo(e, f, max), ListAdd(l, f)) <==> (e.Multi? && f !in e.all ==> max < INDEX_RANGE - 1)
  {
    match e
    case Nil =>
    case One(g) =>
      if f != g {
        var all := map[g := 0, f := 1];
        assert [g, f][1..] == [f] && [f][1..] == [];
        assert Sorted(all, [f]);
        assert Sorted(all, [g, f]);
        assert ListAdd(l, f) == [g, f];
        assert all.Keys == Elems([g, f]);
      }
    case Multi(fwd, all) =>
      assert f in all <==> f in l by { assert f in Elems(l) <==> f in l; }
      if f !in all {
        AddMultiRefines(all, l, f, max);
      }
  }

  lemma AddMultiRefines(all: map<Fwd, nat>, l: seq<Fwd>, f: Fwd, max: nat)
    requires |l| >= 2 && Sorted(all, l) && all.Keys == Elems(l) && f !in all
    requires IsMax(all, max) && max < INDEX_RANGE
    ensures var all' := all[f := (max + 1) % INDEX_RANGE];
      && all'.Keys == Elems(l + [f])
      && (Sorted(all', l + [f]) <==> max < INDEX_RANGE - 1)
  {
    var all' := all[f := (max + 1) % INDEX_RANGE];
    ElemsJoin(l, [f]);
    if max < INDEX_RANGE - 1 {
      forall g | g in l ensures g in all && g in all' && all'[g] == all[g] && all'[g] < all'[f] {
        assert g in Elems(l);
      }
      SortedFrame(all, all', l);
      SortedAppend(all', l, f);
    } else {
      NotSortedAppend(all', l, f);
    }
  }

  /** Removing refines removal from the list: the next preferred forwarder is the oldest left. */
  lemma RemoveRefines(e: Entry, l: seq<Fwd>, f: Fwd, low: Fwd)
    requires e.Multi? && Refines(e, l) && f in e.all
    requires f == e.fwd && |e.all - {f}| != 1 ==> IsLowest(e.all - {f}, low)
    ensures Refines(RemoveFrom(e, f, low), ListRemove(l, f))
  {
    var all', l' := e.all - {f}, ListRemove(l, f);
    assert f in Elems(l);
    SortedRemove(e.all, l, f);
    ListRemoveElems(e.all, l, f);
    assert all'.Keys == Elems(l');
    forall g | g in l' ensures g in e.all && g in all' && all'[g] == e.all[g] {
      assert g in Elems(l');
    }
    SortedFrame(e.all, all', l');
    SortedSize(all', l');
    if |all'| == 1 {
      assert l'[0] in Elems(l');
    } else if f == e.fwd {
      assert low in Elems(l');
      assert l' == [l'[0]] + l'[1..];
    }
  }

  // ----- Runs on one key -----

  /** An operation on a key's forwarders; `pick` resolves the choice of a lowest index. */
  datatype Op = AddOp(f: Fwd) | RemoveOp(f: Fwd, pick: Fwd)

  ghost function MaxOf(all: map<Fwd, nat>): (m: nat)
    ensures IsMax(all, m)
  {
    MaxExists(all);
    var m: nat :| IsMax(all, m);
    m
  }

  lemma {:induction false} MaxExists(all: map<Fwd, nat>)
    ensures exists m: nat :: IsMax(all, m)
    decreases |all|
  {
    if all == map[] {
      assert IsMax(all, 0);
    } else {
      var f :| f in all;
      MaxExists(all - {f});
      var m: nat :| IsMax(all - {f}, m);
      var n := if all[f] > m then all[f] else m;
      assert forall g :: g in all ==> g == f || g in all - {f};
      assert IsMax(all, n);
    }
  }

  ghost function Apply(e: Entry, op: Op): Entry {
    match op
    case AddOp(f) => AddTo(e, f, if e.Multi? then MaxOf(e.all) else 0)
    case RemoveOp(f, pick) =>
      if e == One(f) then Nil
      else if e.Multi? && CanPick(e, f, pick) then RemoveFrom(e, f, pick)
      else e
  }

  ghost function Run(ops: seq<Op>): Entry {
    if ops == [] then Nil else Apply(Run(ops[..|ops| - 1]), ops[|ops| - 1])
  }

  /** The list after an operation; an impossible choice of `pick` is no operation at all. */
  ghost function ListApply(e: Entry, l: seq<Fwd>, op: Op): seq<Fwd> {
    match op
    case AddOp(f) => ListAdd(l, f)
    case RemoveOp(f, pick) => if e.Multi? && !CanPick(e, f, pick) then l else ListRemove(l, f)
  }

  /** `pick` is a forwarder the program may prefer once `f` is gone. */
  ghost predicate CanPick(e: Entry, f: Fwd, pick: Fwd)
    requires e.Multi?
  {
    f == e.fwd && |e.all - {f}| != 1 ==> IsLowest(e.all - {f}, pick)
  }

  ghost function ListRun(ops: seq<Op>): seq<Fwd> {
    if ops == [] then []
    else ListApply(Run(ops[..|ops| - 1]), ListRun(ops[..|ops| - 1]), ops[|ops| - 1])
  }

  /** Every index is one byte. */
  ghost predicate ByteIndices(e: Entry) {
    e.Multi? ==> forall f :: f in e.all ==> e.all[f] < INDEX_RANGE
  }

  /** A new forwarder meets a set whose highest index is the last there is. */
  ghost predicate Wraps(e: Entry, op: Op) {
    op.AddOp? && e.Multi? && op.f !in e.all && MaxOf(e.all) == INDEX_RANGE - 1
  }

  ghost predicate NeverWraps(ops: seq<Op>) {
    ops == [] || (NeverWraps(ops[..|ops| - 1]) && !Wraps(Run(ops[..|ops| - 1]), ops[|ops| - 1]))
  }

  /** At every point of the run the entry stands for the list of distinct forwarders in the order
      they registered. */
  ghost predicate AlwaysRefines(ops: seq<Op>) {
    Refines(Run(ops), ListRun(ops)) && (ops != [] ==> AlwaysRefines(ops[..|ops| - 1]))
  }

  lemma {:induction false} RunByteIndices(ops: seq<Op>)
    ensures ByteIndices(Run(ops))
    decreases |ops|
  {
    if ops != [] {
      RunByteIndices(ops[..|ops| - 1]);
    }
  }

  /** Over every run, however long, the entry always refines the list exactly if no index ever
      wraps around. */
  lemma {:induction false} RunRefines(ops: seq<Op>)
    ensures AlwaysRefines(ops) <==> NeverWraps(ops)
    decreases |ops|
  {
    if ops != [] {
      var before, op := ops[..|ops| - 1], ops[|ops| - 1];
      RunRefines(before);
      RunByteIndices(before);
      if AlwaysRefines(before) {
        AlwaysNow(before);
        StepRefines(Run(before), ListRun(before), op);
      }
    }
  }

  lemma AlwaysNow(ops: seq<Op>)
    requires AlwaysRefines(ops)
    ensures Refines(Run(ops), ListRun(ops))
  {
  }

  lemma StepRefines(e: Entry, l: seq<Fwd>, op: Op)
    requires Refines(e, l) && ByteIndices(e)
    ensures Refines(Apply(e, op), ListApply(e, l, op)) <==> !Wraps(e, op)
  {
    match op
    case AddOp(f) => AddRefines(e, l, f, if e.Multi? then MaxOf(e.all) else 0);
    case RemoveOp(f, pick) =>
      if e.Multi? {
        MultiRemoveStep(e, l, f, pick);
      } else if e != One(f) {
        ListRemoveAbsent(l, f);
      }
  }

  lemma MultiRemoveStep(e: Entry, l: seq<Fwd>, f: Fwd, pick: Fwd)
    requires e.Multi? && Refines(e, l)
    ensures Refines(Apply(e, RemoveOp(f, pick)), ListApply(e, l, RemoveOp(f, pick)))
  {
    assert f in e.all <==> f in Elems(l);
    if f !in e.all {
      ListRemoveAbsent(l, f);
    } else if CanPick(e, f, pick) {
      RemoveRefines(e, l, f, pick);
    }
  }

  /** How many forwarders have joined the present set since it was made of two. */
  ghost function Joined(ops: seq<Op>): nat {
    if ops == [] || !Run(ops).Multi? then 0
    else
      var before, op := ops[..|ops| - 1], ops[|ops| - 1];
      if !Run(before).Multi? then 0
      else Joined(before) + if op.AddOp? && op.f !in Run(before).all then 1 else 0
  }

  ghost predicate FewJoin(ops: seq<Op>) {
    Joined(ops) <= INDEX_RANGE - 2 && (ops != [] ==> FewJoin(ops[..|ops| - 1]))
  }

  /** The highest index of a set grows by at most one when a forwarder joins, unless it wraps. */
  lemma HighestAfter(e: Entry, op: Op)
    requires !Wraps(e, op) && ByteIndices(e) && Apply(e, op).Multi?
    ensures var max := MaxOf(Apply(e, op).all);
      if !e.Multi? then max <= 1
      else max <= MaxOf(e.all) + if op.AddOp? && op.f !in e.all then 1 else 0
  {
    var all := Apply(e, op).all;
    if e.Multi? {
      assert forall f :: f in e.all ==> e.all[f] <= MaxOf(e.all);
    }
    assert MaxOf(all) == 0 || exists f :: f in all && all[f] == MaxOf(all);
  }

  lemma {:induction false} HighestIndex(ops: seq<Op>)
    requires FewJoin(ops)
    ensures NeverWraps(ops) && (Run(ops).Multi? ==> MaxOf(Run(ops).all) <= 1 + Joined(ops))
    decreases |ops|
  {
    if ops != [] {
      var before, op := ops[..|ops| - 1], ops[|ops| - 1];
      HighestIndex(before);
      RunByteIndices(before);
      if !Wraps(Run(before), op) && Run(ops).Multi? {
        HighestAfter(Run(before), op);
      }
    }
  }

  /** In particular if at most 254 forwarders ever join one set. */
  lemma FewJoinRefines(ops: seq<Op>)
    requires FewJoin(ops)
    ensures AlwaysRefines(ops)
  {
    HighestIndex(ops);
    RunRefines(ops);
  }

  lemma {:induction false} ListRemoveAbsent(l: seq<Fwd>, f: Fwd)
    requires f !in l
    ensures ListRemove(l, f) == l
  {
    if l != [] {
      ListRemoveAbsent(l[1..], f);
    }
  }

  // ----- The table of all keys in the region -----

  datatype MeshTable = MeshTable(mesh: map<NodeKey, Entry>, created: int, deleted: int, other: int)

  const EMPTY_MESH := MeshTable(map[], 0, 0, 0)

  function MultiOne(k: NodeKey, e: Entry): int { if e.Multi? then 1 else 0 }

  /** A key without an entry has no forwarders, like a local-only one. */
  function EntryOf(m: MeshTable, k: NodeKey): Entry {
    if k in m.mesh then m.mesh[k] else Nil
  }

  ghost predicate EntryOk(e: Entry) {
    e.Multi? ==> |e.all| >= 2 && e.fwd in e.all
  }

  /** Local keys are in the region, entries without forwarder are local, multi entries have at
      least two forwarders, and the counters count the live multi entries. */
  ghost predicate Inv(m: MeshTable, local: set<NodeKey>) {
    && (forall k :: k in local ==> k in m.mesh)
    && (forall k :: k in m.mesh ==> EntryOk(m.mesh[k]) && (m.mesh[k].Nil? ==> k in local))
    && m.created - m.deleted == Sum(m.mesh, MultiOne)
  }

  function Join(m: MeshTable, k: NodeKey): MeshTable {
    if k in m.mesh then m else m.(mesh := m.mesh[k := Nil])
  }

  /** The last local connection of `k` leaves; a key without forwarder leaves the region. */
  function LeaveLocal(m: MeshTable, k: NodeKey): MeshTable {
    if k in m.mesh && m.mesh[k].Nil? then m.(mesh := m.mesh - {k}) else m
  }

  ghost function AddForwarder(m: MeshTable, k: NodeKey, f: Fwd): MeshTable {
    var e := Apply(EntryOf(m, k), AddOp(f));
    m.(mesh := m.mesh[k := e], created := if e.Multi? && EntryOf(m, k).One? then m.created + 1 else m.created)
  }

  ghost function RemoveForwarder(m: MeshTable, k: NodeKey, f: Fwd, pick: Fwd, isLocal: bool): MeshTable {
    if k !in m.mesh then m
    else if m.mesh[k].Multi? then
      var e := Apply(m.mesh[k], RemoveOp(f, pick));
      m.(mesh := m.mesh[k := e], deleted := if e.One? then m.deleted + 1 else m.deleted)
    else if m.mesh[k] != One(f) then m.(other := m.other + 1)
    else if isLocal then m.(mesh := m.mesh[k := Nil])
    else m.(mesh := m.mesh - {k})
  }

  lemma JoinKeepsInv(m: MeshTable, local: set<NodeKey>, k: NodeKey)
    requires Inv(m, local)
    ensures Inv(Join(m, k), local + {k})
  {
    SumUpdate(m.mesh, MultiOne, k, Nil);
  }

  lemma LeaveLocalKeepsInv(m: MeshTable, local: set<NodeKey>, k: NodeKey)
    requires Inv(m, local)
    ensures Inv(LeaveLocal(m, k), local - {k})
  {
    if k in m.mesh {
      SumSplit(m.mesh, MultiOne, k);
    }
  }

  lemma AddKeepsOk(e: Entry, f: Fwd)
    requires EntryOk(e)
    ensures var e' := Apply(e, AddOp(f)); EntryOk(e') && !e'.Nil? && (e'.Multi? <==> e.Multi? || (e.One? && e.f != f))
  {
    var e' := Apply(e, AddOp(f));
    if e.Multi? && f !in e.all {
      assert e'.all.Keys == e.all.Keys + {f};
    } else if e.One? && e.f != f {
      assert e'.all.Keys == {e.f, f};
    }
  }

  lemma AddForwarderKeepsInv(m: MeshTable, local: set<NodeKey>, k: NodeKey, f: Fwd)
    requires Inv(m, local)
    ensures Inv(AddForwarder(m, k, f), local)
  {
    AddKeepsOk(EntryOf(m, k), f);
    SumUpdate(m.mesh, MultiOne, k, Apply(EntryOf(m, k), AddOp(f)));
  }

  lemma RemoveKeepsOk(e: Entry, f: Fwd, pick: Fwd)
    requires e.Multi? && EntryOk(e)
    ensures var e' := Apply(e, RemoveOp(f, pick)); EntryOk(e') && !e'.Nil?
  {
    if f in e.all {
      assert (e.all - {f}).Keys == e.all.Keys - {f};
    }
  }

  lemma RemoveForwarderKeepsInv(m: MeshTable, local: set<NodeKey>, k: NodeKey, f: Fwd, pick: Fwd)
    requires Inv(m, local)
    ensures Inv(RemoveForwarder(m, k, f, pick, k in local), local)
  {
    if k in m.mesh {
      var e := m.mesh[k];
      if e.Multi? {
        var e' := Apply(e, RemoveOp(f, pick));
        RemoveKeepsOk(e, f, pick);
        SumUpdate(m.mesh, MultiOne, k, e');
      } else if k in local {
        SumUpdate(m.mesh, MultiOne, k, Nil);
      } else {
        SumSplit(m.mesh, MultiOne, k);
      }
    }
  }

  /** Seen from any one key, the table does to its entry what the operations on an entry do. */
  lemma EntryOfChanges(m: MeshTable, k: NodeKey, f: Fwd, pick: Fwd, isLocal: bool, j: NodeKey)
    ensures EntryOf(Join(m, k), j) == EntryOf(m, j)
    ensures EntryOf(LeaveLocal(m, k), j) == EntryOf(m, j)
    ensures EntryOf(AddForwarder(m, k, f), j) == if j == k then Apply(EntryOf(m, k), AddOp(f)) else EntryOf(m, j)
    ensures EntryOf(RemoveForwarder(m, k, f, pick, isLocal), j)
         == if j == k then Apply(EntryOf(m, k), RemoveOp(f, pick)) else EntryOf(m, j)
  {
  }
}
