/** Computing the state at an AUM from a store, and what compaction does to it. */
module TkaCompute {
  import opened Wrappers
  import opened TkaTypes
  import opened TkaState
  import opened TkaStore
  import opened TkaMark
  import opened TkaIntersect
  import opened TkaMeaning

  // ----- What is computed -----

  /** How many links lie between `h` and where its replay starts, or its chain breaks off. */
  ghost function Depth(info: Info, rank: AUMHash -> nat, h: AUMHash): nat
    requires WellFounded(info, rank)
    decreases rank(h)
  {
    if !Has(info, h) || IsStart(info, h) then 0 else 1 + Depth(info, rank, ParentOf(info, h).value)
  }

  /** The way back from `h` to where its replay starts breaks off at an AUM that is not stored. */
  ghost predicate Broken(info: Info, rank: AUMHash -> nat, h: AUMHash)
    requires WellFounded(info, rank)
    decreases rank(h)
  {
    !Has(info, h) || (!IsStart(info, h) && Broken(info, rank, ParentOf(info, h).value))
  }

  /** The state at `h`, going forward from where its replay starts: at each AUM before `h` all its
      children must be stored, or the next one on the way cannot be found. */
  ghost function Forward(hash: HashFn, info: Info, rank: AUMHash -> nat, h: AUMHash): Result<State, TkaError>
    requires WellFounded(info, rank)
    decreases rank(h)
  {
    if !Has(info, h) then Err(NotExist)
    else
      var a := Stored(info, h).value;
      if IsStart(info, h) then StartState(hash, a)
      else
        var p := ParentOf(info, h).value;
        var before := Forward(hash, info, rank, p);
        if before.Ok? && ChildAUMs(info, p).Err? then Err(ChildNotStored) else ApplyTo(hash, before, a)
  }

  /** What the program answers within `maxIter` iterations each way. */
  ghost function Computed(hash: HashFn, info: Info, rank: AUMHash -> nat, maxIter: nat, want: AUMHash): Result<State, TkaError>
    requires WellFounded(info, rank)
  {
    var depth := Depth(info, rank, want);
    if Broken(info, rank, want) then Err(if depth <= maxIter + 1 then NotExist else IterationLimit)
    else if depth > maxIter then Err(IterationLimit)
    else if depth == maxIter && Forward(hash, info, rank, want).Ok? then Err(IterationLimit)
    else Forward(hash, info, rank, want)
  }

  // ----- The way back -----

  /** `path` is the chain from `want` back to `start`, where its replay starts. */
  ghost predicate ReplayPath(info: Info, rank: AUMHash -> nat, want: AUMHash, start: AUMHash, path: set<AUMHash>)
    requires WellFounded(info, rank)
  {
    && Ancestor(info, rank, start, want) && Has(info, start)
    && (forall x :: x in path <==> Between(info, rank, start, x, want))
    && (forall x :: x in path && x != start ==> !IsStart(info, x))
  }

  lemma PathGrows(
      info: Info, rank: AUMHash -> nat, want: AUMHash, start: AUMHash, path: set<AUMHash>, p: AUMHash)
    requires WellFounded(info, rank) && ReplayPath(info, rank, want, start, path)
    requires ParentOf(info, start) == Some(p) && Has(info, p) && !IsStart(info, start)
    ensures ReplayPath(info, rank, want, p, path + {p})
  {
    AncestorParent(info, rank, start, want);
    assert Ancestor(info, rank, p, p) && Ancestor(info, rank, p, start);
    forall x ensures x in path + {p} <==> Between(info, rank, p, x, want) {
      if x in path {
        AncestorTransitive(info, rank, p, start, x);
      }
      if Between(info, rank, p, x, want) {
        AncestorLinear(info, rank, x, start, want);
        if Ancestor(info, rank, x, start) && x != start {
          AncestorRank(info, rank, x, p);
          AncestorRank(info, rank, p, x);
        }
      }
    }
  }

  /** Walks back from `want` to a place where a replay can start. */
  method FindStart(info: Info, ghost rank: AUMHash -> nat, maxIter: nat, want: AUMHash)
    returns (r: Result<AUMHash, TkaError>, path: set<AUMHash>)
    requires WellFounded(info, rank) && Has(info, want)
    ensures r.Ok? ==> ReplayPath(info, rank, want, r.value, path) && IsStart(info, r.value)
    ensures r.Ok? ==> Distance(info, rank, want, r.value) == Depth(info, rank, want) <= maxIter && !Broken(info, rank, want)
    ensures r.Err? ==> forall hash :: Computed(hash, info, rank, maxIter, want) == Err(r.error)
  {
    var curs := want;
    path := {want};
    var i := 0;
    PathStarts(info, rank, want);
    while true
      invariant i <= maxIter && ReplayPath(info, rank, want, curs, path)
      invariant Distance(info, rank, want, curs) == i && Depth(info, rank, want) == i + Depth(info, rank, curs)
      invariant Broken(info, rank, want) <==> Broken(info, rank, curs)
      decreases maxIter - i
    {
      if IsCheckpoint(info, curs) {
        return Ok(curs), path;
      }
      var parent := ParentOf(info, curs);
      if parent.None? {
        return Ok(curs), path;
      }
      var p := parent.value;
      if !Has(info, p) {
        return Err(NotExist), path;
      }
      PathGrows(info, rank, want, curs, path, p);
      DistanceAdds(info, rank, want, curs, p);
      path := path + {p};
      curs := p;
      i := i + 1;
      if i > maxIter {
        return Err(IterationLimit), path;
      }
    }
  }

  lemma PathStarts(info: Info, rank: AUMHash -> nat, want: AUMHash)
    requires WellFounded(info, rank) && Has(info, want)
    ensures ReplayPath(info, rank, want, want, {want})
  {
    assert Ancestor(info, rank, want, want);
    forall x ensures x in {want} <==> Between(info, rank, want, x, want) {
      if Between(info, rank, want, x, want) {
        AncestorRank(info, rank, x, want);
        AncestorRank(info, rank, want, x);
      }
    }
  }

  // ----- The way forward -----

  /** The one child of `curs` on the path to `want`. */
  lemma NextOnPath(
      info: Info, rank: AUMHash -> nat, want: AUMHash, start: AUMHash, path: set<AUMHash>, curs: AUMHash)
    returns (next: AUMHash)
    requires WellFounded(info, rank) && IndexAgrees(info) && ReplayPath(info, rank, want, start, path)
    requires curs in path && curs != want
    ensures next in path && next in Kids(info, curs) && next != start
    ensures ParentOf(info, next) == Some(curs)
    ensures Distance(info, rank, want, curs) == Distance(info, rank, want, next) + 1
    ensures forall c :: c in path && ParentOf(info, c) == Some(curs) ==> c == next
  {
    next := AncestorChild(info, rank, curs, want);
    assert Ancestor(info, rank, curs, next);
    AncestorTransitive(info, rank, start, curs, next);
    AncestorRank(info, rank, start, curs);
    DistanceAdds(info, rank, want, next, curs);
    assert Distance(info, rank, next, curs) == 1 + Distance(info, rank, curs, curs);
    forall c | c in path && ParentOf(info, c) == Some(curs) ensures c == next {
      OneChildOnChain(info, rank, want, c, next);
    }
  }

  method FirstIn(hs: seq<AUMHash>, path: set<AUMHash>) returns (c: Option<AUMHash>)
    ensures c.Some? ==> c.value in hs && c.value in path
    ensures c.None? ==> forall i :: 0 <= i < |hs| ==> hs[i] !in path
  {
    for i := 0 to |hs|
      invariant forall j :: 0 <= j < i ==> hs[j] !in path
    {
      if hs[i] in path {
        return Some(hs[i]);
      }
    }
    return None;
  }

  /** Computes the state at `want` the way the program does: back to a starting point while
      collecting the path, then forward again, taking at each AUM the child that is on the path. */
  method ComputeStateAt(hash: HashFn, info: Info, ghost rank: AUMHash -> nat, maxIter: nat, want: AUMHash)
    returns (r: Result<State, TkaError>)
    requires Coherent(hash, info) && WellFounded(info, rank)
    ensures r == Computed(hash, info, rank, maxIter, want)
  {
    if !Has(info, want) {
      return Err(NotExist);
    }
    CoherentIndexAgrees(hash, info);
    var found, path := FindStart(info, rank, maxIter, want);
    if found.Err? {
      return Err(found.error);
    }
    var start := found.value;
    var first := StartAt(hash, info, start);
    if first.Err? {
      FailsFrom(hash, info, rank, want, start, path, start);
      return first;
    }
    var curs, state := start, first.value;
    for i := 0 to maxIter
      invariant curs in path && Forward(hash, info, rank, curs) == Ok(state)
      invariant Distance(info, rank, want, curs) + i == Depth(info, rank, want)
    {
      if curs == want {
        return Ok(state);
      }
      ghost var next := NextOnPath(info, rank, want, start, path, curs);
      var children := ChildAUMs(info, curs);
      if children.Err? {
        FailsFrom(hash, info, rank, want, start, path, next);
        return Err(children.error);
      }
      var c := FirstIn(children.value, path);
      ChildFound(hash, info, curs, children.value, path, next, c);
      var applied := ApplyVerifiedAUM(hash, state, Stored(info, c.value).value);
      if applied.Err? {
        FailsFrom(hash, info, rank, want, start, path, c.value);
        return Err(applied.error);
      }
      curs, state := c.value, applied.value;
    }
    assert Distance(info, rank, want, curs) == 0 && curs == want;
    return Err(IterationLimit);
  }

  lemma ChildFound(
      hash: HashFn, info: Info, curs: AUMHash, children: seq<AUMHash>, path: set<AUMHash>, next: AUMHash, c: Option<AUMHash>)
    requires Coherent(hash, info) && ChildAUMs(info, curs) == Ok(children)
    requires next in path && next in Kids(info, curs)
    requires forall x :: x in path && ParentOf(info, x) == Some(curs) ==> x == next
    requires c.Some? ==> c.value in children && c.value in path
    requires c.None? ==> forall i :: 0 <= i < |children| ==> children[i] !in path
    ensures c == Some(next)
  {
    ChildAUMsIsScan(hash, info, curs);
    assert next in children;
  }

  method StartAt(hash: HashFn, info: Info, start: AUMHash) returns (r: Result<State, TkaError>)
    requires IsStart(info, start)
    ensures r == StartState(hash, Stored(info, start).value)
  {
    var a := Stored(info, start).value;
    if a.kind == Checkpoint {
      if a.state.None? {
        return Err(MissingState);
      }
      return Ok(a.state.value.(last := Some(hash(a))));
    }
    if a.kind == NoOp || a.kind == AddKey {
      r := ApplyVerifiedAUM(hash, EMPTY_STATE, a);
      return r;
    }
    return Err(InvalidGenesis);
  }

  /** An error on the path is the answer at its end. */
  lemma {:induction false} FailsFrom(
      hash: HashFn, info: Info, rank: AUMHash -> nat, want: AUMHash, start: AUMHash, path: set<AUMHash>, x: AUMHash)
    requires WellFounded(info, rank) && ReplayPath(info, rank, want, start, path)
    requires x in path && Forward(hash, info, rank, x).Err?
    ensures Forward(hash, info, rank, want) == Forward(hash, info, rank, x)
    decreases Distance(info, rank, want, x)
  {
    if x != want {
      var y := AncestorChild(info, rank, x, want);
      AncestorTransitive(info, rank, start, x, y);
      AncestorRank(info, rank, start, x);
      assert Ancestor(info, rank, x, y);
      DistanceAdds(info, rank, want, y, x);
      assert Between(info, rank, start, y, want) && y != start;
      FailsFrom(hash, info, rank, want, start, path, y);
    }
  }

  // ----- When a missing child stops it -----

  /** `x` is stored and lies on the way from where the replay of `h` starts to `h`, before `h`. */
  ghost predicate OnReplay(info: Info, rank: AUMHash -> nat, x: AUMHash, h: AUMHash)
    requires WellFounded(info, rank)
  {
    && Has(info, x) && x != h && Ancestor(info, rank, x, h)
    && forall y :: Between(info, rank, x, y, h) && y != x ==> !IsStart(info, y)
  }

  /** One step back along the way. */
  lemma OnReplayParent(info: Info, rank: AUMHash -> nat, x: AUMHash, h: AUMHash)
    requires WellFounded(info, rank) && Has(info, h)
    ensures OnReplay(info, rank, x, h) <==>
      && !IsStart(info, h) && Has(info, ParentOf(info, h).value)
      && (x == ParentOf(info, h).value || OnReplay(info, rank, x, ParentOf(info, h).value))
  {
    assert Ancestor(info, rank, h, h);
    if OnReplay(info, rank, x, h) {
      var p := ParentOf(info, h).value;
      assert Between(info, rank, x, h, h);
      AncestorStored(info, rank, x, p);
      forall y | Between(info, rank, x, y, p) && y != x ensures !IsStart(info, y) {
        assert Between(info, rank, x, y, h);
      }
    } else if !IsStart(info, h) && Has(info, ParentOf(info, h).value) {
      var p := ParentOf(info, h).value;
      if x == p || OnReplay(info, rank, x, p) {
        ReplayGoesOn(info, rank, x, h, p);
      }
    }
  }

  lemma ReplayGoesOn(info: Info, rank: AUMHash -> nat, x: AUMHash, h: AUMHash, p: AUMHash)
    requires WellFounded(info, rank) && ParentOf(info, h) == Some(p) && !IsStart(info, h) && Has(info, p)
    requires x == p || OnReplay(info, rank, x, p)
    ensures OnReplay(info, rank, x, h)
  {
    assert Ancestor(info, rank, p, p) && Ancestor(info, rank, x, p);
    AncestorRank(info, rank, x, p);
    forall y | Between(info, rank, x, y, h) && y != x ensures !IsStart(info, y) {
      if y != h && x == p {
        AncestorRank(info, rank, x, y);
        AncestorRank(info, rank, y, p);
      }
    }
  }

  /** Some AUM on the way to `h` has a child that is not stored. */
  ghost predicate Blocked(info: Info, rank: AUMHash -> nat, h: AUMHash)
    requires WellFounded(info, rank)
  {
    exists x :: OnReplay(info, rank, x, h) && ChildAUMs(info, x).Err?
  }

  lemma BlockedParent(info: Info, rank: AUMHash -> nat, h: AUMHash)
    requires WellFounded(info, rank) && Has(info, h) && !IsStart(info, h) && Has(info, ParentOf(info, h).value)
    ensures var p := ParentOf(info, h).value;
      Blocked(info, rank, h) <==> ChildAUMs(info, p).Err? || Blocked(info, rank, p)
  {
    var p := ParentOf(info, h).value;
    OnReplayParent(info, rank, p, h);
    if x :| OnReplay(info, rank, x, h) && ChildAUMs(info, x).Err? {
      OnReplayParent(info, rank, x, h);
    }
    if x :| OnReplay(info, rank, x, p) && ChildAUMs(info, x).Err? {
      OnReplayParent(info, rank, x, h);
    }
  }

  /** Going forward gives the state, errors included, unless a child is missing on the way; where
      there is a state, a missing child is exactly what stops it. */
  lemma {:induction false} ForwardExact(hash: HashFn, info: Info, rank: AUMHash -> nat, h: AUMHash)
    requires WellFounded(info, rank)
    ensures !Blocked(info, rank, h) ==> Forward(hash, info, rank, h) == StateAt(hash, info, rank, h)
    ensures StateAt(hash, info, rank, h).Ok? && Blocked(info, rank, h) ==> Forward(hash, info, rank, h) == Err(ChildNotStored)
    decreases rank(h)
  {
    if Has(info, h) {
      if IsStart(info, h) {
        if x :| OnReplay(info, rank, x, h) {
          OnReplayParent(info, rank, x, h);
        }
      } else {
        var p := ParentOf(info, h).value;
        ForwardExact(hash, info, rank, p);
        if Has(info, p) {
          BlockedParent(info, rank, h);
        }
      }
    }
  }

  /** For a state within the limit, the computation fails exactly when some AUM on the way to it
      has a child that is not stored. */
  lemma ComputedExact(hash: HashFn, info: Info, rank: AUMHash -> nat, maxIter: nat, h: AUMHash)
    requires WellFounded(info, rank) && StateAt(hash, info, rank, h).Ok? && Depth(info, rank, h) < maxIter
    ensures Computed(hash, info, rank, maxIter, h) ==
      if Blocked(info, rank, h) then Err(ChildNotStored) else StateAt(hash, info, rank, h)
  {
    StateNotBroken(hash, info, rank, h);
    ForwardExact(hash, info, rank, h);
  }

  lemma {:induction false} StateNotBroken(hash: HashFn, info: Info, rank: AUMHash -> nat, h: AUMHash)
    requires WellFounded(info, rank) && StateAt(hash, info, rank, h).Ok?
    ensures !Broken(info, rank, h)
    decreases rank(h)
  {
    if !IsStart(info, h) {
      StateNotBroken(hash, info, rank, ParentOf(info, h).value);
    }
  }
}
