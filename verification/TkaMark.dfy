/** The marking passes of compaction. Each pass ORs bits into a verdict per hash. */
module TkaMark {
  import opened Wrappers
  import opened TkaTypes
  import opened TkaStore

  /** The retention bits of one AUM. */
  datatype Retain = Retain(active: bool, young: bool, leaf: bool, ancestor: bool, candidate: bool)

  const NO_BITS := Retain(false, false, false, false, false)

  type Verdict = map<AUMHash, Retain>

  function At(v: Verdict, h: AUMHash): Retain {
    if h in v then v[h] else NO_BITS
  }

  /** Stores the bits of one hash. */
  function Put(v: Verdict, h: AUMHash, r: Retain): (v': Verdict)
    ensures v'.Keys == v.Keys + {h}
    ensures forall x {:trigger At(v', x)} :: At(v', x) == if x == h then r else At(v, x)
  {
    v[h := r]
  }

  /** Any bit but `candidate` prevents deletion. */
  predicate Retained(r: Retain) {
    r.active || r.young || r.leaf || r.ancestor
  }

  predicate Kept(v: Verdict, h: AUMHash) {
    Retained(At(v, h))
  }

  datatype CompactError =
    | MinChainUnset | MinAgeUnset | NotStored | NoCheckpoint | NoCommitTime | Children
    | GenesisWithoutIntersection | PurgeFailed

  // ----- The active chain -----

  function SetActive(v: Verdict, h: AUMHash): Verdict { Put(v, h, At(v, h).(active := true)) }

  function SetCandidate(v: Verdict, h: AUMHash): Verdict { Put(v, h, At(v, h).(candidate := true)) }

  function SetLeaf(v: Verdict, h: AUMHash): Verdict { Put(v, h, At(v, h).(leaf := true)) }

  function SetAncestor(v: Verdict, h: AUMHash): Verdict { Put(v, h, At(v, h).(ancestor := true)) }

  /** The stored chain ends at `h`: it names no parent, or one that is not stored. */
  ghost predicate EndsAt(info: Info, h: AUMHash) {
    ParentOf(info, h).None? || !Has(info, ParentOf(info, h).value)
  }

  /** Marking back over `n` AUMs: where that leads, whether the stored chain ended first,
      and the verdict. */
  ghost function Recent(info: Info, v: Verdict, n: int, h: AUMHash): (AUMHash, bool, Verdict)
    decreases n
  {
    if n <= 0 then (h, false, v)
    else if EndsAt(info, h) then (h, true, SetActive(v, h))
    else Recent(info, SetActive(v, h), n - 1, ParentOf(info, h).value)
  }

  /** Where marking back leads. */
  lemma {:induction false} RecentLeads(info: Info, rank: AUMHash -> nat, v: Verdict, n: int, h: AUMHash)
    requires WellFounded(info, rank) && Has(info, h)
    ensures var (next, ended, v') := Recent(info, v, n, h);
      && Has(info, next) && Ancestor(info, rank, next, h)
      && (if ended then EndsAt(info, next) && Distance(info, rank, h, next) < n
          else Distance(info, rank, h, next) == if n < 0 then 0 else n)
    decreases n
  {
    if n > 0 && !EndsAt(info, h) {
      var p := ParentOf(info, h).value;
      RecentLeads(info, rank, SetActive(v, h), n - 1, p);
      AncestorRank(info, rank, Recent(info, v, n, h).0, p);
    }
  }

  lemma {:induction false} RecentMarks(info: Info, rank: AUMHash -> nat, v: Verdict, n: int, h: AUMHash, x: AUMHash)
    requires WellFounded(info, rank) && Has(info, h)
    ensures var (next, ended, v') := Recent(info, v, n, h);
      && Has(info, next) && Ancestor(info, rank, next, h)
      && (if ended then EndsAt(info, next) && Distance(info, rank, h, next) < n
          else Distance(info, rank, h, next) == if n < 0 then 0 else n)
      && At(v', x) == At(v, x).(active := At(v, x).active ||
           (Between(info, rank, next, x, h) && (ended || x != next)))
      && (x in v' <==> x in v || (Between(info, rank, next, x, h) && (ended || x != next)))
    decreases n
  {
    RecentLeads(info, rank, v, n, h);
    if n > 0 && !EndsAt(info, h) {
      var p := ParentOf(info, h).value;
      RecentMarks(info, rank, SetActive(v, h), n - 1, p, x);
      AncestorRank(info, rank, Recent(info, v, n, h).0, p);
      if Ancestor(info, rank, x, p) {
        AncestorRank(info, rank, x, p);
      }
    } else if Between(info, rank, h, x, h) {
      AncestorRank(info, rank, x, h);
      AncestorRank(info, rank, h, x);
    }
  }

  /** Marking back from `h` to the first checkpoint. */
  ghost function ToCheckpoint(info: Info, rank: AUMHash -> nat, v: Verdict, h: AUMHash)
    : (Result<AUMHash, CompactError>, Verdict)
    requires WellFounded(info, rank)
    decreases rank(h)
  {
    var v1 := SetActive(v, h);
    if IsCheckpoint(info, h) then (Ok(h), v1)
    else if ParentOf(info, h).None? then (Err(NoCheckpoint), v1)
    else if !Has(info, ParentOf(info, h).value) then (Err(NotStored), v1)
    else ToCheckpoint(info, rank, v1, ParentOf(info, h).value)
  }

  /** The first checkpoint back from `h` was found, and exactly the chain down to it marked. */
  lemma {:induction false} ToCheckpointMarks(info: Info, rank: AUMHash -> nat, v: Verdict, h: AUMHash, x: AUMHash)
    requires WellFounded(info, rank) && Has(info, h)
    ensures var (r, v') := ToCheckpoint(info, rank, v, h);
      && (r.Ok? ==>
            && IsCheckpoint(info, r.value) && Ancestor(info, rank, r.value, h)
            && At(v', x) == At(v, x).(active := At(v, x).active || Between(info, rank, r.value, x, h))
            && (x in v' <==> x in v || Between(info, rank, r.value, x, h))
            && (Between(info, rank, r.value, x, h) && x != r.value ==> !IsCheckpoint(info, x)))
      && (r.Err? && Ancestor(info, rank, x, h) ==> !IsCheckpoint(info, x))
    decreases rank(h)
  {
    var (r, v') := ToCheckpoint(info, rank, v, h);
    if IsCheckpoint(info, h) {
      if Between(info, rank, h, x, h) {
        AncestorRank(info, rank, x, h);
        AncestorRank(info, rank, h, x);
      }
    } else if !EndsAt(info, h) {
      var p := ParentOf(info, h).value;
      ToCheckpointMarks(info, rank, SetActive(v, h), p, x);
      if r.Ok? {
        AncestorRank(info, rank, r.value, p);
        if Ancestor(info, rank, x, p) {
          AncestorRank(info, rank, x, p);
        }
      }
    } else if Ancestor(info, rank, x, h) && x != h {
      var p := ParentOf(info, h).value;
      assert Ancestor(info, rank, x, p) && ParentOf(info, p).None?;
    }
  }

  /** Marking everything behind `h` as a candidate, even a parent that is not stored. */
  ghost function Older(info: Info, rank: AUMHash -> nat, v: Verdict, h: AUMHash): Verdict
    requires WellFounded(info, rank)
    decreases rank(h)
  {
    if ParentOf(info, h).None? then v
    else Older(info, rank, SetCandidate(v, ParentOf(info, h).value), ParentOf(info, h).value)
  }

  lemma {:induction false} OlderMarks(info: Info, rank: AUMHash -> nat, v: Verdict, h: AUMHash, x: AUMHash)
    requires WellFounded(info, rank)
    ensures var behind := Ancestor(info, rank, x, h) && x != h;
      && At(Older(info, rank, v, h), x) == At(v, x).(candidate := At(v, x).candidate || behind)
      && (x in Older(info, rank, v, h) <==> x in v || behind)
    decreases rank(h)
  {
    if ParentOf(info, h).Some? {
      var p := ParentOf(info, h).value;
      OlderMarks(info, rank, SetCandidate(v, p), p, x);
      if Ancestor(info, rank, x, p) {
        AncestorRank(info, rank, x, p);
      }
    }
  }

  /** `laa` is where the active stretch of head's chain ends: where the stored chain ends,
      if that is nearer than `minChain` links, or else the first checkpoint at least that far. */
  ghost predicate ActiveEnd(info: Info, rank: AUMHash -> nat, minChain: int, head: AUMHash, laa: AUMHash)
    requires WellFounded(info, rank)
  {
    && Has(info, laa) && Ancestor(info, rank, laa, head)
    && (if Distance(info, rank, head, laa) >= minChain then IsCheckpoint(info, laa) else EndsAt(info, laa))
    && (forall x :: Between(info, rank, laa, x, head) && x != laa && IsCheckpoint(info, x) ==>
          Distance(info, rank, head, x) < minChain)
  }

  /** There is at most one such end. */
  lemma ActiveEndUnique(info: Info, rank: AUMHash -> nat, minChain: int, head: AUMHash, a: AUMHash, b: AUMHash)
    requires WellFounded(info, rank)
    requires ActiveEnd(info, rank, minChain, head, a) && ActiveEnd(info, rank, minChain, head, b)
    ensures a == b
  {
    AncestorLinear(info, rank, a, b, head);
    if Ancestor(info, rank, b, a) {
      NoEndBehind(info, rank, minChain, head, a, b);
    } else {
      NoEndBehind(info, rank, minChain, head, b, a);
    }
  }

  lemma NoEndBehind(info: Info, rank: AUMHash -> nat, minChain: int, head: AUMHash, a: AUMHash, b: AUMHash)
    requires WellFounded(info, rank) && Ancestor(info, rank, b, a)
    requires ActiveEnd(info, rank, minChain, head, a) && ActiveEnd(info, rank, minChain, head, b)
    ensures a == b
  {
    if a != b {
      AncestorStored(info, rank, b, ParentOf(info, a).value);
      assert Between(info, rank, b, a, head);
    }
  }

  /** The outcome of marking the active chain: everything from head back to `laa` is active.
      Either the stored chain ends at `laa` before `minChain` links, or `laa` is the first
      checkpoint at least `minChain` links back and all behind it are candidates. */
  ghost predicate ChainMarked(
      info: Info, rank: AUMHash -> nat, minChain: int, head: AUMHash, laa: AUMHash, v: Verdict, v': Verdict)
    requires WellFounded(info, rank)
  {
    && Has(info, laa) && Ancestor(info, rank, laa, head)
    && var long := Distance(info, rank, head, laa) >= minChain;
       && (if long then IsCheckpoint(info, laa) else EndsAt(info, laa))
       && (forall x :: Between(info, rank, laa, x, head) && x != laa && IsCheckpoint(info, x) ==>
             Distance(info, rank, head, x) < minChain)
       && (forall x {:trigger At(v', x)} :: At(v', x) == At(v, x).(
             active := At(v, x).active || Between(info, rank, laa, x, head),
             candidate := At(v, x).candidate || (long && x != laa && Ancestor(info, rank, x, laa))))
       && (forall x {:trigger x in v'} :: x in v' <==>
             x in v || Between(info, rank, laa, x, head) || (long && x != laa && Ancestor(info, rank, x, laa)))
  }

  lemma {:induction false} DistanceAdds(info: Info, rank: AUMHash -> nat, h: AUMHash, y: AUMHash, x: AUMHash)
    requires WellFounded(info, rank)
    requires Ancestor(info, rank, y, h) && Ancestor(info, rank, x, y)
    ensures Ancestor(info, rank, x, h)
    ensures Distance(info, rank, h, x) == Distance(info, rank, h, y) + Distance(info, rank, y, x)
    decreases rank(h)
  {
    if y != h {
      var p := ParentOf(info, h).value;
      DistanceAdds(info, rank, p, y, x);
      AncestorRank(info, rank, x, p);
    }
  }

  /** Joining the first two stretches of the active chain, seen from one hash. */
  lemma JoinStretches(info: Info, rank: AUMHash -> nat, head: AUMHash, next: AUMHash, laa: AUMHash, x: AUMHash)
    requires WellFounded(info, rank)
    requires Ancestor(info, rank, next, head) && Ancestor(info, rank, laa, next)
    ensures Ancestor(info, rank, laa, head)
    ensures Between(info, rank, laa, x, head) <==>
      (Between(info, rank, next, x, head) && x != next) || Between(info, rank, laa, x, next)
    ensures Between(info, rank, laa, x, head) && Distance(info, rank, head, x) >= Distance(info, rank, head, next) ==>
      Between(info, rank, laa, x, next)
  {
    AncestorTransitive(info, rank, laa, next, head);
    if Between(info, rank, laa, x, head) {
      AncestorLinear(info, rank, x, next, head);
      if Ancestor(info, rank, next, x) {
        DistanceAdds(info, rank, head, x, next);
        if x != next {
          assert Distance(info, rank, x, next) > 0;
        }
      }
    }
    if Between(info, rank, next, x, head) {
      AncestorTransitive(info, rank, laa, next, x);
    }
    if Between(info, rank, laa, x, next) {
      AncestorTransitive(info, rank, x, next, head);
    }
  }

  /** Marks `minChain` AUMs back from head, unless the stored chain ends before. */
  method MarkRecent(info: Info, v: Verdict, minChain: int, head: AUMHash)
    returns (next: AUMHash, ended: bool, v': Verdict)
    requires Has(info, head)
    ensures (next, ended, v') == Recent(info, v, minChain, head) && Has(info, next)
  {
    next, v' := head, v;
    var i := 0;
    while i < minChain
      invariant 0 <= i && Has(info, next)
      invariant Recent(info, v', minChain - i, next) == Recent(info, v, minChain, head)
    {
      v' := SetActive(v', next);
      var parent := ParentOf(info, next);
      if parent.None? || !Has(info, parent.value) {
        return next, true, v';
      }
      next := parent.value;
      i := i + 1;
    }
    return next, false, v';
  }

  /** Marks back to the first checkpoint. */
  method MarkToCheckpoint(info: Info, ghost rank: AUMHash -> nat, v: Verdict, from: AUMHash)
    returns (r: Result<AUMHash, CompactError>, v': Verdict)
    requires WellFounded(info, rank) && Has(info, from)
    ensures (r, v') == ToCheckpoint(info, rank, v, from)
  {
    var next := from;
    v' := v;
    while true
      invariant Has(info, next)
      invariant ToCheckpoint(info, rank, v', next) == ToCheckpoint(info, rank, v, from)
      decreases rank(next)
    {
      v' := SetActive(v', next);
      if IsCheckpoint(info, next) {
        return Ok(next), v';
      }
      var parent := ParentOf(info, next);
      if parent.None? {
        return Err(NoCheckpoint), v';
      }
      if !Has(info, parent.value) {
        return Err(NotStored), v';
      }
      next := parent.value;
    }
  }

  /** Marks everything behind as candidates. */
  method MarkOlder(info: Info, ghost rank: AUMHash -> nat, v: Verdict, from: AUMHash) returns (v': Verdict)
    requires WellFounded(info, rank)
    ensures v' == Older(info, rank, v, from)
  {
    var next := from;
    v' := v;
    while true
      invariant Older(info, rank, v', next) == Older(info, rank, v, from)
      decreases rank(next)
    {
      var parent := ParentOf(info, next);
      if parent.None? {
        break;
      }
      v' := SetCandidate(v', parent.value);
      next := parent.value;
      if !Has(info, next) {
        break;
      }
    }
  }

  method MarkActiveChain(info: Info, ghost rank: AUMHash -> nat, v: Verdict, minChain: int, head: AUMHash)
    returns (r: Result<AUMHash, CompactError>, v': Verdict)
    requires WellFounded(info, rank)
    ensures r.Ok? ==> ChainMarked(info, rank, minChain, head, r.value, v, v')
    ensures r.Err? ==> forall x :: !ActiveEnd(info, rank, minChain, head, x)
  {
    if !Has(info, head) {
      return Err(NotStored), v;
    }
    var next, ended, v1 := MarkRecent(info, v, minChain, head);
    if ended {
      ChainEndsEarly(info, rank, v, minChain, head);
      return Ok(next), v1;
    }
    var laa, v2 := MarkToCheckpoint(info, rank, v1, next);
    if laa.Err? {
      NoCheckpointFound(info, rank, v, minChain, head);
      return laa, v2;
    }
    v' := MarkOlder(info, rank, v2, laa.value);
    LongChain(info, rank, v, minChain, head);
    return laa, v';
  }

  lemma ChainEndsEarly(info: Info, rank: AUMHash -> nat, v: Verdict, minChain: int, head: AUMHash)
    requires WellFounded(info, rank) && Has(info, head)
    requires Recent(info, v, minChain, head).1
    ensures var (laa, _, v') := Recent(info, v, minChain, head); ChainMarked(info, rank, minChain, head, laa, v, v')
  {
    var (laa, _, v') := Recent(info, v, minChain, head);
    RecentMarks(info, rank, v, minChain, head, head);
    forall x {:trigger At(v', x)} {:trigger x in v'}
      ensures At(v', x) == At(v, x).(active := At(v, x).active || Between(info, rank, laa, x, head))
      ensures x in v' <==> x in v || Between(info, rank, laa, x, head)
    {
      RecentMarks(info, rank, v, minChain, head, x);
    }
    forall x | Between(info, rank, laa, x, head) ensures Distance(info, rank, head, x) < minChain {
      DistanceAdds(info, rank, head, x, laa);
    }
  }

  lemma NoCheckpointFound(info: Info, rank: AUMHash -> nat, v: Verdict, minChain: int, head: AUMHash)
    requires WellFounded(info, rank) && Has(info, head)
    requires var (next, ended, v1) := Recent(info, v, minChain, head);
      !ended && ToCheckpoint(info, rank, v1, next).0.Err?
    ensures forall x :: !ActiveEnd(info, rank, minChain, head, x)
  {
    var (next, ended, v1) := Recent(info, v, minChain, head);
    RecentMarks(info, rank, v, minChain, head, head);
    forall x | Has(info, x) && Ancestor(info, rank, x, head)
      ensures if Distance(info, rank, head, x) >= minChain then !IsCheckpoint(info, x) else !EndsAt(info, x)
    {
      AncestorLinear(info, rank, x, next, head);
      if Ancestor(info, rank, x, next) {
        ToCheckpointMarks(info, rank, v1, next, x);
        DistanceAdds(info, rank, head, next, x);
      } else {
        DistanceAdds(info, rank, head, x, next);
        AncestorStored(info, rank, next, ParentOf(info, x).value);
      }
    }
  }

  lemma LongChain(info: Info, rank: AUMHash -> nat, v: Verdict, minChain: int, head: AUMHash)
    requires WellFounded(info, rank) && Has(info, head)
    requires var (next, ended, v1) := Recent(info, v, minChain, head);
      !ended && ToCheckpoint(info, rank, v1, next).0.Ok?
    ensures var (next, _, v1) := Recent(info, v, minChain, head);
      var (r, v2) := ToCheckpoint(info, rank, v1, next);
      ChainMarked(info, rank, minChain, head, r.value, v, Older(info, rank, v2, r.value))
  {
    var (next, _, v1) := Recent(info, v, minChain, head);
    var (r, v2) := ToCheckpoint(info, rank, v1, next);
    var laa := r.value;
    var v' := Older(info, rank, v2, laa);
    RecentMarks(info, rank, v, minChain, head, head);
    ToCheckpointMarks(info, rank, v1, next, next);
    DistanceAdds(info, rank, head, next, laa);
    forall x {:trigger At(v', x)} {:trigger x in v'}
      ensures At(v', x) == At(v, x).(
        active := At(v, x).active || Between(info, rank, laa, x, head),
        candidate := At(v, x).candidate || (x != laa && Ancestor(info, rank, x, laa)))
      ensures x in v' <==> x in v || Between(info, rank, laa, x, head) || (x != laa && Ancestor(info, rank, x, laa))
    {
      RecentMarks(info, rank, v, minChain, head, x);
      ToCheckpointMarks(info, rank, v1, next, x);
      OlderMarks(info, rank, v2, laa, x);
      JoinStretches(info, rank, head, next, laa, x);
    }
    forall x | Between(info, rank, laa, x, head) && x != laa && IsCheckpoint(info, x)
      ensures Distance(info, rank, head, x) < minChain
    {
      JoinStretches(info, rank, head, next, laa, x);
      ToCheckpointMarks(info, rank, v1, next, x);
    }
  }

  // ----- Young AUMs -----

  predicate Young(info: Info, h: AUMHash, minTime: int) {
    CommitTime(info, h).Some? && CommitTime(info, h).value > minTime
  }

  method MarkYoungAUMs(info: Info, v: Verdict, minTime: int) returns (r: Result<(), CompactError>, v': Verdict)
    ensures r.Ok? <==> forall h :: h in v ==> CommitTime(info, h).Some?
    ensures r.Ok? ==> YoungMarked(info, v, v', minTime)
  {
    v' := v;
    var rest := v.Keys;
    while rest != {}
      invariant rest <= v.Keys && v'.Keys == v.Keys
      invariant forall h :: h in v && h !in rest ==> CommitTime(info, h).Some?
      invariant forall h {:trigger At(v', h)} ::
        At(v', h) == At(v, h).(young := At(v, h).young || (h in v && h !in rest && Young(info, h, minTime)))
    {
      var h :| h in rest;
      if CommitTime(info, h).None? {
        return Err(NoCommitTime), v';
      }
      if CommitTime(info, h).value > minTime {
        v' := Put(v', h, At(v', h).(young := true));
      }
      rest := rest - {h};
    }
    return Ok(()), v';
  }

  /** Exactly the young AUMs of the verdict gained the young bit. */
  ghost predicate YoungMarked(info: Info, v: Verdict, v': Verdict, minTime: int) {
    && v'.Keys == v.Keys
    && forall h {:trigger At(v', h)} ::
         At(v', h) == At(v, h).(young := At(v, h).young || (h in v && Young(info, h, minTime)))
  }

  // ----- Descendants -----

  /** With each AUM whose children are all stored, the set holds those children. */
  ghost predicate ChildClosed(info: Info, s: set<AUMHash>) {
    forall h, c :: h in s && ChildAUMs(info, h).Ok? && c in Kids(info, h) ==> c in s
  }

  function KeptSet(v: Verdict): set<AUMHash> {
    set h | h in v && Kept(v, h)
  }

  function LeafSet(v: Verdict): set<AUMHash> {
    set h | h in v && v[h].leaf
  }

  predicate Leaf(v: Verdict, h: AUMHash) {
    At(v, h).leaf
  }

  /** `h` is retained in `v` or descends from an AUM that is. */
  ghost predicate Descends(info: Info, rank: AUMHash -> nat, v: Verdict, h: AUMHash)
    requires WellFounded(info, rank)
  {
    exists k :: Kept(v, k) && Ancestor(info, rank, k, h)
  }

  ghost predicate LeafMarked(v: Verdict, v': Verdict) {
    && v.Keys <= v'.Keys
    && (forall h :: h in v' ==> h in v || Leaf(v', h))
    && forall h {:trigger At(v', h)} :: At(v', h) == At(v, h).(leaf := At(v', h).leaf)
  }

  /** What holds between two steps of the descendant scan: marked AUMs have their children
      marked or waiting, and everything marked or waiting lies within `goal`. */
  ghost predicate DescendantScan(info: Info, v: Verdict, v': Verdict, work: set<AUMHash>, goal: set<AUMHash>) {
    && LeafMarked(v, v')
    && (forall h :: Kept(v, h) ==> Leaf(v', h) || h in work)
    && (forall h, c :: Leaf(v', h) && c in Kids(info, h) ==> Leaf(v', c) || c in work)
    && (forall h :: Leaf(v', h) ==> h in goal && ChildAUMs(info, h).Ok?)
    && work <= goal
  }

  /** Scanning one AUM: it is marked and its children wait. */
  lemma DescendantStep(
      info: Info, v: Verdict, v1: Verdict, h: AUMHash, work: set<AUMHash>, work': set<AUMHash>, goal: set<AUMHash>)
    requires DescendantScan(info, v, v1, work, goal) && h in work && ChildAUMs(info, h).Ok? && ChildClosed(info, goal)
    requires var kids := Elems(Kids(info, h)); work - {h} + kids <= work' <= work + kids
    ensures DescendantScan(info, v, SetLeaf(v1, h), work', goal)
    ensures LeafSet(SetLeaf(v1, h)) == LeafSet(v1) + {h}
  {
    var v2 := SetLeaf(v1, h);
    assert forall x :: Leaf(v2, x) <==> Leaf(v1, x) || x == h;
    assert forall c :: c in Kids(info, h) ==> c in Elems(Kids(info, h));
  }

  /** What waits in the middle of a round. */
  ghost function Pending(toScan: seq<AUMHash>, i: nat, nextIterScan: seq<AUMHash>): set<AUMHash>
    requires i <= |toScan|
  {
    Elems(toScan[i..]) + Elems(nextIterScan)
  }

  lemma PendingNext(toScan: seq<AUMHash>, i: nat, next: seq<AUMHash>, more: seq<AUMHash>)
    requires i < |toScan|
    ensures var work, rest := Pending(toScan, i, next), Pending(toScan, i + 1, next);
      toScan[i] in work && work - {toScan[i]} <= rest <= work
    ensures Pending(toScan, i + 1, next + more) == Pending(toScan, i + 1, next) + Elems(more)
  {
    ElemsCons(toScan, i);
    ElemsJoin(next, more);
  }

  /** Takes the next AUM of the worklist, unless it is marked already. */
  method ScanDescendant(
      info: Info, ghost v: Verdict, v1: Verdict, toScan: seq<AUMHash>, i: nat, next: seq<AUMHash>, ghost goal: set<AUMHash>)
    returns (r: Result<seq<AUMHash>, CompactError>, v': Verdict)
    requires i < |toScan| && ChildClosed(info, goal)
    requires DescendantScan(info, v, v1, Pending(toScan, i, next), goal)
    ensures r.Ok? ==> DescendantScan(info, v, v', Pending(toScan, i + 1, r.value), goal)
    ensures r.Ok? ==> LeafSet(v1) < LeafSet(v') || (v' == v1 && r.value == next)
    ensures r.Err? ==> exists h :: h in goal && ChildAUMs(info, h).Err?
  {
    var h := toScan[i];
    PendingNext(toScan, i, next, []);
    if Leaf(v1, h) {
      return Ok(next), v1;
    }
    var children := ChildAUMs(info, h);
    if children.Err? {
      return Err(Children), v1;
    }
    PendingNext(toScan, i, next, children.value);
    DescendantStep(info, v, v1, h, Pending(toScan, i, next), Pending(toScan, i + 1, next + children.value), goal);
    assert h !in LeafSet(v1);
    return Ok(next + children.value), SetLeaf(v1, h);
  }

  /** One round of the scan: marks a worklist and collects the children. */
  method ScanDescendants(info: Info, ghost v: Verdict, v0: Verdict, toScan: seq<AUMHash>, ghost goal: set<AUMHash>)
    returns (r: Result<seq<AUMHash>, CompactError>, v': Verdict)
    requires DescendantScan(info, v, v0, Elems(toScan), goal) && ChildClosed(info, goal)
    ensures r.Ok? ==> DescendantScan(info, v, v', Elems(r.value), goal)
    ensures r.Ok? ==> LeafSet(v0) < LeafSet(v') || (v' == v0 && r.value == [])
    ensures r.Err? ==> exists h :: h in goal && ChildAUMs(info, h).Err?
  {
    v' := v0;
    var nextIterScan: seq<AUMHash> := [];
    assert Pending(toScan, 0, []) == Elems(toScan);
    for i := 0 to |toScan|
      invariant DescendantScan(info, v, v', Pending(toScan, i, nextIterScan), goal)
      invariant LeafSet(v0) < LeafSet(v') || (v' == v0 && nextIterScan == [])
    {
      var next, v1 := ScanDescendant(info, v, v', toScan, i, nextIterScan, goal);
      if next.Err? {
        return Err(next.error), v1;
      }
      nextIterScan, v' := next.value, v1;
    }
    assert Pending(toScan, |toScan|, nextIterScan) == Elems(nextIterScan);
    return Ok(nextIterScan), v';
  }

  /** Scans round after round until no AUM waits. */
  method ScanAllDescendants(info: Info, v: Verdict, start: seq<AUMHash>, ghost goal: set<AUMHash>)
    returns (r: Result<(), CompactError>, v': Verdict)
    requires DescendantScan(info, v, v, Elems(start), goal) && ChildClosed(info, goal)
    ensures r.Ok? ==> DescendantScan(info, v, v', {}, goal)
    ensures r.Err? ==> exists h :: h in goal && ChildAUMs(info, h).Err?
  {
    v' := v;
    var toScan := start;
    while toScan != []
      invariant DescendantScan(info, v, v', Elems(toScan), goal)
      decreases goal - LeafSet(v'), |toScan|
    {
      var next, v1 := ScanDescendants(info, v, v', toScan, goal);
      if next.Err? {
        return Err(next.error), v1;
      }
      LeavesWithin(info, v, v', Elems(toScan), goal);
      LeavesWithin(info, v, v1, Elems(next.value), goal);
      toScan, v' := next.value, v1;
    }
    return Ok(()), v';
  }

  /** Retains exactly what was retained before and all descendants of it. */
  method MarkDescendantAUMs(info: Info, ghost rank: AUMHash -> nat, v: Verdict)
    returns (r: Result<(), CompactError>, v': Verdict)
    requires WellFounded(info, rank) && IndexAgrees(info)
    requires forall h :: !Leaf(v, h)
    ensures r.Ok? ==> LeafMarked(v, v')
    ensures r.Ok? ==> forall h {:trigger Kept(v', h)} :: Kept(v', h) <==> Descends(info, rank, v, h)
    ensures r.Ok? ==> forall h :: Kept(v', h) ==> ChildAUMs(info, h).Ok?
    ensures r.Err? ==> exists h :: Descends(info, rank, v, h) && ChildAUMs(info, h).Err?
  {
    var toScan := KeptHashes(v);
    ghost var goal := Goal(info, rank, v);
    GoalClosed(info, rank, v);
    r, v' := ScanAllDescendants(info, v, toScan, goal);
    if r.Ok? {
      DescendantsDone(info, rank, v, v');
    }
  }

  /** The retained hashes of a verdict, in some order. */
  method KeptHashes(v: Verdict) returns (hs: seq<AUMHash>)
    ensures forall h :: h in hs <==> Kept(v, h)
  {
    hs := [];
    var rest := v.Keys;
    while rest != {}
      invariant rest <= v.Keys
      invariant forall h :: h in hs <==> h in v.Keys - rest && Kept(v, h)
    {
      var h :| h in rest;
      if Kept(v, h) {
        hs := hs + [h];
      }
      rest := rest - {h};
    }
    assert forall h :: Kept(v, h) ==> h in v;
  }

  /** The retained AUMs and their descendants. */
  ghost function Goal(info: Info, rank: AUMHash -> nat, v: Verdict): set<AUMHash>
    requires WellFounded(info, rank)
  {
    set h | h in v.Keys + info.Keys && Descends(info, rank, v, h)
  }

  lemma GoalClosed(info: Info, rank: AUMHash -> nat, v: Verdict)
    requires WellFounded(info, rank) && IndexAgrees(info)
    ensures ChildClosed(info, Goal(info, rank, v))
    ensures forall h :: Kept(v, h) ==> h in Goal(info, rank, v)
  {
    var goal := Goal(info, rank, v);
    forall h, c | h in goal && ChildAUMs(info, h).Ok? && c in Kids(info, h) ensures c in goal {
      var k :| Kept(v, k) && Ancestor(info, rank, k, h);
      var i :| 0 <= i < |Kids(info, h)| && Kids(info, h)[i] == c;
      assert Has(info, c) && ParentOf(info, c) == Some(h);
      assert Ancestor(info, rank, k, c);
    }
    forall h | Kept(v, h) ensures h in goal {
      assert Ancestor(info, rank, h, h);
    }
  }

  lemma LeavesWithin(info: Info, v: Verdict, v': Verdict, work: set<AUMHash>, goal: set<AUMHash>)
    requires DescendantScan(info, v, v', work, goal)
    ensures LeafSet(v') <= goal
  {
    forall h | h in LeafSet(v') ensures h in goal {
      assert Leaf(v', h);
    }
  }

  /** With nothing waiting, every descendant of a retained AUM is marked. */
  lemma {:induction false} DescendantMarked(
      info: Info, rank: AUMHash -> nat, v: Verdict, v': Verdict, goal: set<AUMHash>, k: AUMHash, h: AUMHash)
    requires WellFounded(info, rank) && IndexAgrees(info)
    requires DescendantScan(info, v, v', {}, goal)
    requires Kept(v, k) && Ancestor(info, rank, k, h)
    ensures Leaf(v', h)
    decreases rank(h)
  {
    if h != k {
      var p := ParentOf(info, h).value;
      DescendantMarked(info, rank, v, v', goal, k, p);
      assert h in Kids(info, p);
    }
  }

  lemma DescendantsDone(info: Info, rank: AUMHash -> nat, v: Verdict, v': Verdict)
    requires WellFounded(info, rank) && IndexAgrees(info)
    requires DescendantScan(info, v, v', {}, Goal(info, rank, v))
    ensures forall h {:trigger Kept(v', h)} :: Kept(v', h) <==> Descends(info, rank, v, h)
    ensures forall h :: Kept(v', h) ==> ChildAUMs(info, h).Ok?
  {
    var goal := Goal(info, rank, v);
    forall h {:trigger Kept(v', h)}
      ensures Kept(v', h) <==> Descends(info, rank, v, h)
      ensures Kept(v', h) ==> Leaf(v', h)
    {
      assert At(v', h) == At(v, h).(leaf := At(v', h).leaf);
      assert Kept(v, h) ==> Leaf(v', h);
      if Descends(info, rank, v, h) {
        var k :| Kept(v, k) && Ancestor(info, rank, k, h);
        DescendantMarked(info, rank, v, v', goal, k, h);
      }
      if Leaf(v', h) {
        assert h in goal;
      }
    }
  }
}
