/** Which forwarder a key's packets go to: the one registered the longest, exactly as long as no
    index of its set of forwarders has wrapped around. */
module DerpOldest {
  import opened Wrappers
  import opened DerpTypes
  import opened DerpMesh
  import Server = DerpServer

  /** The forwarder that registered first among those still registered. */
  function Oldest(l: seq<Fwd>): Option<Fwd> {
    if l == [] then None else Some(l[0])
  }

  // ----- One key -----

  predicate OnlyRemovals(rems: seq<Op>) {
    forall i :: 0 <= i < |rems| ==> rems[i].RemoveOp?
  }

  ghost predicate UsesOldest(ops: seq<Op>) {
    Used(Run(ops)) == Oldest(ListRun(ops))
  }

  /** From no point of the run on can removals lead to another forwarder being used than the oldest. */
  ghost predicate AlwaysOldest(ops: seq<Op>) {
    forall n: nat, rems: seq<Op> :: n <= |ops| && OnlyRemovals(rems) ==> UsesOldest(ops[..n] + rems)
  }

  lemma RunSnoc(ops: seq<Op>, op: Op)
    ensures Run(ops + [op]) == Apply(Run(ops), op)
    ensures ListRun(ops + [op]) == ListApply(Run(ops), ListRun(ops), op)
    ensures NeverWraps(ops + [op]) <==> NeverWraps(ops) && !Wraps(Run(ops), op)
  {
    assert (ops + [op])[..|ops + [op]| - 1] == ops;
  }

  /** The forwarder whose index wraps is preferred as soon as the oldest leaves, though it is the
      youngest of at least two that are left. */
  lemma WrapMisroutes(e: Entry, l: seq<Fwd>, f: Fwd)
    requires Refines(e, l) && ByteIndices(e) && Wraps(e, AddOp(f))
    ensures |l| >= 2 && l[1] != f
    ensures var e1, l1 := Apply(e, AddOp(f)), ListApply(e, l, AddOp(f));
      && e1.Multi? && CanPick(e1, l[0], f)
      && Used(Apply(e1, RemoveOp(l[0], f))) == Some(f)
      && Oldest(ListApply(e1, l1, RemoveOp(l[0], f))) == Some(l[1])
  {
    assert forall g :: g in e.all <==> g in Elems(l);
    assert l[1] == l[1..][0] && l[1] in l[1..];
    assert f !in l;
    var e1 := Apply(e, AddOp(f));
    assert e1.all[f] == 0;
    var left := e1.all - {l[0]};
    assert f in left && l[1] in left && |{f, l[1]}| == 2;
    assert {f, l[1]} <= left.Keys;
    SubsetSize({f, l[1]}, left.Keys);
    assert IsLowest(left, f);
    assert ListRemove(l + [f], l[0]) == (l + [f])[1..];
  }

  lemma SubsetSize(a: set<Fwd>, b: set<Fwd>)
    requires a <= b
    ensures |a| <= |b|
  {
    assert |b| == |a| + |b - a| by { assert b == a + (b - a); }
  }

  lemma SnocJoin<T>(a: seq<T>, b: seq<T>)
    requires b != []
    ensures a + b == (a + b[..|b| - 1]) + [b[|b| - 1]]
  {
  }

  lemma {:induction false} RemovalsNeverWrap(ops: seq<Op>, rems: seq<Op>)
    requires NeverWraps(ops) && OnlyRemovals(rems)
    ensures NeverWraps(ops + rems)
    decreases |rems|
  {
    if rems == [] {
      assert ops + rems == ops;
    } else {
      var before, last := rems[..|rems| - 1], rems[|rems| - 1];
      RemovalsNeverWrap(ops, before);
      SnocJoin(ops, rems);
      RunSnoc(ops + before, last);
    }
  }

  lemma {:induction false} PrefixNeverWraps(ops: seq<Op>, n: nat)
    requires NeverWraps(ops) && n <= |ops|
    ensures NeverWraps(ops[..n])
    decreases |ops|
  {
    if n == |ops| {
      assert ops[..n] == ops;
    } else {
      PrefixNeverWraps(ops[..|ops| - 1], n);
      assert ops[..|ops| - 1][..n] == ops[..n];
    }
  }

  lemma OldestNow(ops: seq<Op>)
    requires NeverWraps(ops)
    ensures UsesOldest(ops)
  {
    RunRefines(ops);
    AlwaysNow(ops);
    UsedIsOldest(Run(ops), ListRun(ops));
  }

  /** A wrap, then one removal: a packet goes astray. */
  lemma WrapLeadsAstray(ops: seq<Op>, op: Op) returns (rem: Op)
    requires NeverWraps(ops) && Wraps(Run(ops), op)
    ensures rem.RemoveOp?
    ensures !UsesOldest(ops + [op] + [rem])
  {
    var e, l := Run(ops), ListRun(ops);
    RunRefines(ops);
    AlwaysNow(ops);
    RunByteIndices(ops);
    WrapMisroutes(e, l, op.f);
    rem := RemoveOp(l[0], op.f);
    RunSnoc(ops, op);
    RunSnoc(ops + [op], rem);
  }

  lemma {:induction false} AstrayExists(ops: seq<Op>) returns (n: nat, rem: Op)
    requires !NeverWraps(ops)
    ensures 1 <= n <= |ops| && rem.RemoveOp?
    ensures !UsesOldest(ops[..n] + [rem])
    decreases |ops|
  {
    var m := |ops| - 1;
    if NeverWraps(ops[..m]) {
      n := |ops|;
      rem := WrapLeadsAstray(ops[..m], ops[m]);
      assert ops[..n] == ops[..m] + [ops[m]];
    } else {
      n, rem := AstrayExists(ops[..m]);
      assert ops[..m][..n] == ops[..n];
    }
  }

  /** Over every run on one key, every continuation of every part of it by removals has the
      oldest forwarder used, exactly if no index wraps. */
  lemma OldestExactly(ops: seq<Op>)
    ensures AlwaysOldest(ops) <==> NeverWraps(ops)
  {
    if NeverWraps(ops) {
      forall n: nat, rems: seq<Op> | n <= |ops| && OnlyRemovals(rems)
        ensures UsesOldest(ops[..n] + rems)
      {
        PrefixNeverWraps(ops, n);
        RemovalsNeverWrap(ops[..n], rems);
        OldestNow(ops[..n] + rems);
      }
    } else {
      var n, rem := AstrayExists(ops);
      assert OnlyRemovals([rem]);
    }
  }

  // ----- A run that wraps -----

  /** Forwarders 0 to n - 1 register one after the other. */
  function Adds(n: nat): seq<Op> {
    seq(n, i requires 0 <= i < n => AddOp(i))
  }

  lemma AddsSnoc(n: nat)
    ensures Adds(n + 1) == Adds(n) + [AddOp(n)]
  {
  }

  /** The entry of forwarders 0 to n - 1, each under its own number. */
  ghost predicate Numbered(e: Entry, n: nat) {
    match e
    case Nil => n == 0
    case One(f) => n == 1 && f == 0
    case Multi(_, all) => n >= 2 && (forall f :: f in all <==> 0 <= f < n) && forall f :: f in all ==> all[f] == f
  }

  lemma NumberedMax(all: map<Fwd, nat>, n: nat)
    requires n >= 1 && (forall f :: f in all <==> 0 <= f < n) && forall f :: f in all ==> all[f] == f
    ensures MaxOf(all) == n - 1
  {
    assert IsMax(all, n - 1) by { assert n - 1 in all && all[n - 1] == n - 1; }
    MaxUnique(all, MaxOf(all), n - 1);
  }

  lemma AddNumbers(e: Entry, n: nat)
    requires Numbered(e, n) && n < INDEX_RANGE
    ensures Numbered(Apply(e, AddOp(n)), n + 1) && !Wraps(e, AddOp(n))
  {
    if e.Multi? {
      NumberedMax(e.all, n);
    }
  }

  lemma AddOneMore(ops: seq<Op>, n: nat)
    requires NeverWraps(ops) && Numbered(Run(ops), n) && n < INDEX_RANGE
    ensures NeverWraps(ops + [AddOp(n)]) && Numbered(Run(ops + [AddOp(n)]), n + 1)
  {
    AddNumbers(Run(ops), n);
    RunSnoc(ops, AddOp(n));
  }

  lemma {:induction false} AddsNumber(n: nat)
    requires n <= INDEX_RANGE
    ensures NeverWraps(Adds(n)) && Numbered(Run(Adds(n)), n)
  {
    if n > 0 {
      AddsNumber(n - 1);
      AddOneMore(Adds(n - 1), n - 1);
      AddsSnoc(n - 1);
    }
  }

  lemma WrapReached(n: nat)
    requires n == INDEX_RANGE
    ensures NeverWraps(Adds(n)) && Wraps(Run(Adds(n)), AddOp(n))
  {
    AddsNumber(n);
    NumberedMax(Run(Adds(n)).all, n);
  }

  /** The 257th forwarder to register for one key gets the index of the first. */
  lemma WrapIsReached()
    ensures NeverWraps(Adds(INDEX_RANGE)) && Wraps(Run(Adds(INDEX_RANGE)), AddOp(INDEX_RANGE))
  {
    WrapReached(INDEX_RANGE);
  }

  // ----- The server -----

  /** Only forwarders of `k` leave. */
  predicate OnlyLeave(rems: seq<Server.Event>, k: NodeKey) {
    forall i :: 0 <= i < |rems| ==> rems[i].RemoveForwarder? && rems[i].dst == k
  }

  ghost predicate OldestUsed(policy: DupPolicy, publicKey: NodeKey, events: seq<Server.Event>, k: NodeKey) {
    Used(EntryOf(Server.Run(policy, publicKey, events).mesh, k)) == Oldest(ListRun(Server.OpsFor(events, k)))
  }

  /** At no point of the run can the leaving of forwarders of `k` lead to another one being used
      than the oldest. */
  ghost predicate AlwaysOldestUsed(policy: DupPolicy, publicKey: NodeKey, events: seq<Server.Event>, k: NodeKey) {
    forall n: nat, rems: seq<Server.Event> :: n <= |events| && OnlyLeave(rems, k) ==>
      OldestUsed(policy, publicKey, events[..n] + rems, k)
  }

  lemma OpsSnoc(events: seq<Server.Event>, e: Server.Event, k: NodeKey)
    ensures Server.OpsFor(events + [e], k) == Server.OpsFor(events, k) + Server.OpOf(e, k)
  {
    assert (events + [e])[..|events + [e]| - 1] == events;
  }

  lemma {:induction false} PrefixOps(events: seq<Server.Event>, n: nat, k: NodeKey)
    requires n <= |events| && NeverWraps(Server.OpsFor(events, k))
    ensures NeverWraps(Server.OpsFor(events[..n], k))
    decreases |events|
  {
    if n == |events| {
      assert events[..n] == events;
    } else {
      var m := |events| - 1;
      assert events == events[..m] + [events[m]];
      OpsSnoc(events[..m], events[m], k);
      var ops, all := Server.OpsFor(events[..m], k), Server.OpsFor(events, k);
      if all != ops {
        RunSnoc(ops, all[|ops|]);
        assert all == ops + [all[|ops|]];
      }
      PrefixOps(events[..m], n, k);
      assert events[..m][..n] == events[..n];
    }
  }

  lemma LeaveNeverWraps(events: seq<Server.Event>, rem: Server.Event, k: NodeKey)
    requires NeverWraps(Server.OpsFor(events, k)) && rem.RemoveForwarder? && rem.dst == k
    ensures NeverWraps(Server.OpsFor(events + [rem], k))
  {
    OpsSnoc(events, rem, k);
    RunSnoc(Server.OpsFor(events, k), RemoveOp(rem.f, rem.pick));
  }

  lemma {:induction false} LeavingNeverWraps(events: seq<Server.Event>, rems: seq<Server.Event>, k: NodeKey)
    requires NeverWraps(Server.OpsFor(events, k)) && OnlyLeave(rems, k)
    ensures NeverWraps(Server.OpsFor(events + rems, k))
    decreases |rems|
  {
    if rems == [] {
      assert events + rems == events;
    } else {
      var before, last := rems[..|rems| - 1], rems[|rems| - 1];
      LeavingNeverWraps(events, before, k);
      SnocJoin(events, rems);
      LeaveNeverWraps(events + before, last, k);
    }
  }

  lemma OldestIfNoWrap(policy: DupPolicy, publicKey: NodeKey, events: seq<Server.Event>, k: NodeKey)
    requires NeverWraps(Server.OpsFor(events, k))
    ensures OldestUsed(policy, publicKey, events, k)
  {
    Server.RunEntry(policy, publicKey, events, k);
    OldestNow(Server.OpsFor(events, k));
  }

  lemma LeavesAstray(policy: DupPolicy, publicKey: NodeKey, events: seq<Server.Event>, ops: seq<Op>, r: Op, k: NodeKey)
    requires Server.OpsFor(events, k) == ops && r.RemoveOp?
    requires !UsesOldest(ops + [r])
    ensures !OldestUsed(policy, publicKey, events + [Server.RemoveForwarder(k, r.f, r.pick)], k)
  {
    var rem := Server.RemoveForwarder(k, r.f, r.pick);
    OpsSnoc(events, rem, k);
    assert Server.OpOf(rem, k) == [r];
    Server.RunEntry(policy, publicKey, events + [rem], k);
  }

  lemma WrappingOp(events: seq<Server.Event>, e: Server.Event, k: NodeKey) returns (op: Op)
    requires NeverWraps(Server.OpsFor(events, k)) && !NeverWraps(Server.OpsFor(events + [e], k))
    ensures Server.OpsFor(events + [e], k) == Server.OpsFor(events, k) + [op]
    ensures Wraps(Run(Server.OpsFor(events, k)), op)
  {
    var ops := Server.OpsFor(events, k);
    OpsSnoc(events, e, k);
    assert ops + [] == ops;
    op := Server.OpOf(e, k)[0];
    assert Server.OpOf(e, k) == [op];
    RunSnoc(ops, op);
  }

  /** An event by which an index of `k` wraps, then the leaving of one forwarder. */
  lemma WrapUsesAnother(policy: DupPolicy, publicKey: NodeKey, events: seq<Server.Event>, e: Server.Event, k: NodeKey)
    returns (rem: Server.Event)
    requires NeverWraps(Server.OpsFor(events, k)) && !NeverWraps(Server.OpsFor(events + [e], k))
    ensures OnlyLeave([rem], k) && !OldestUsed(policy, publicKey, events + [e] + [rem], k)
  {
    var ops := Server.OpsFor(events, k);
    var op := WrappingOp(events, e, k);
    var r := WrapLeadsAstray(ops, op);
    rem := Server.RemoveForwarder(k, r.f, r.pick);
    LeavesAstray(policy, publicKey, events + [e], ops + [op], r, k);
  }

  lemma {:induction false} AnotherUsed(policy: DupPolicy, publicKey: NodeKey, events: seq<Server.Event>, k: NodeKey)
    returns (n: nat, rem: Server.Event)
    requires !NeverWraps(Server.OpsFor(events, k))
    ensures n <= |events| && OnlyLeave([rem], k) && !OldestUsed(policy, publicKey, events[..n] + [rem], k)
    decreases |events|
  {
    var m := |events| - 1;
    assert events == events[..m] + [events[m]];
    if NeverWraps(Server.OpsFor(events[..m], k)) {
      n := |events|;
      rem := WrapUsesAnother(policy, publicKey, events[..m], events[m], k);
      assert events[..n] == events[..m] + [events[m]];
    } else {
      n, rem := AnotherUsed(policy, publicKey, events[..m], k);
      assert events[..m][..n] == events[..n];
    }
  }

  /** Over every run of the server: whatever part of it has passed and whichever of the forwarders
      of a key then leave, the one used is the one registered the longest, exactly if no
      forwarder index of that key wraps around in the run. */
  lemma OldestForwarderUsed(policy: DupPolicy, publicKey: NodeKey, events: seq<Server.Event>, k: NodeKey)
    ensures AlwaysOldestUsed(policy, publicKey, events, k) <==> NeverWraps(Server.OpsFor(events, k))
  {
    if NeverWraps(Server.OpsFor(events, k)) {
      forall n: nat, rems: seq<Server.Event> | n <= |events| && OnlyLeave(rems, k)
        ensures OldestUsed(policy, publicKey, events[..n] + rems, k)
      {
        PrefixOps(events, n, k);
        LeavingNeverWraps(events[..n], rems, k);
        OldestIfNoWrap(policy, publicKey, events[..n] + rems, k);
      }
    } else {
      var n, rem := AnotherUsed(policy, publicKey, events, k);
    }
  }

  /** Forwarders 0 to n - 1 register for `k` one after the other. */
  function Registrations(k: NodeKey, n: nat): seq<Server.Event> {
    seq(n, i requires 0 <= i < n => Server.AddForwarder(k, i))
  }

  lemma RegistrationsSnoc(k: NodeKey, n: nat)
    ensures Registrations(k, n + 1) == Registrations(k, n) + [Server.AddForwarder(k, n)]
  {
  }

  lemma RegistrationAdds(events: seq<Server.Event>, f: Fwd, k: NodeKey)
    ensures Server.OpsFor(events + [Server.AddForwarder(k, f)], k) == Server.OpsFor(events, k) + [AddOp(f)]
  {
    OpsSnoc(events, Server.AddForwarder(k, f), k);
  }

  lemma {:induction false} RegistrationsAdd(k: NodeKey, n: nat)
    ensures Server.OpsFor(Registrations(k, n), k) == Adds(n)
  {
    if n > 0 {
      RegistrationsAdd(k, n - 1);
      RegistrationAdds(Registrations(k, n - 1), n - 1, k);
      RegistrationsSnoc(k, n - 1);
      AddsSnoc(n - 1);
    }
  }

  /** A server that 257 forwarders registered with for one key does not always use the oldest. */
  lemma OldestNotAlwaysUsed(policy: DupPolicy, publicKey: NodeKey, k: NodeKey)
    ensures !AlwaysOldestUsed(policy, publicKey, Registrations(k, INDEX_RANGE + 1), k)
  {
    NotAlwaysUsed(policy, publicKey, k, INDEX_RANGE);
  }

  lemma NotAlwaysUsed(policy: DupPolicy, publicKey: NodeKey, k: NodeKey, n: nat)
    requires n == INDEX_RANGE
    ensures !AlwaysOldestUsed(policy, publicKey, Registrations(k, n + 1), k)
  {
    WrapReached(n);
    RegistrationsAdd(k, n + 1);
    AddsSnoc(n);
    RunSnoc(Adds(n), AddOp(n));
    OldestForwarderUsed(policy, publicKey, Registrations(k, n + 1), k);
  }
}
