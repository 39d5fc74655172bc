/** Compaction of AUM storage: what is kept, what is purged, and that no state is lost. */
module TkaCompact {
  import opened Wrappers
  import opened TkaTypes
  import opened TkaStore
  import opened TkaMark
  import opened TkaIntersect

  /** On the active stretch, or young. */
  ghost predicate Root(info: Info, rank: AUMHash -> nat, head: AUMHash, laa0: AUMHash, minTime: int, k: AUMHash)
    requires WellFounded(info, rank)
  {
    Between(info, rank, laa0, k, head) || (Has(info, k) && Young(info, k, minTime))
  }

  /** The AUMs that must stay: roots and all their descendants. */
  ghost function Base(info: Info, rank: AUMHash -> nat, head: AUMHash, laa0: AUMHash, minTime: int): set<AUMHash>
    requires WellFounded(info, rank)
  {
    set h | h in info && Has(info, h) && exists k :: Root(info, rank, head, laa0, minTime, k) && Ancestor(info, rank, k, h)
  }

  /** `x` lies on the chain from some AUM of `base` back to `laa`. */
  ghost predicate OnKeptChain(info: Info, rank: AUMHash -> nat, base: set<AUMHash>, laa: AUMHash, x: AUMHash)
    requires WellFounded(info, rank)
  {
    exists d :: d in base && Between(info, rank, laa, x, d)
  }

  /** What compaction from `info` to `info'` with new last active ancestor `laa` achieves:
      exactly the chains from `base` back to `laa` remain, and `laa` is the end of the active
      stretch or the newest checkpoint that some AUM of `base` allows. */
  ghost predicate Compacted(
      info: Info, rank: AUMHash -> nat, base: set<AUMHash>, laa0: AUMHash, info': Info, laa: AUMHash)
    requires WellFounded(info, rank)
  {
    && Has(info, laa) && Ancestor(info, rank, laa, laa0) && laa0 in base
    && Leaves(info, rank, base, info', laa) && FallsBack(info, rank, base, laa0, laa)
  }

  /** Of the chains from `base`, all stored, exactly the parts back to `laa` remain. */
  ghost predicate Leaves(info: Info, rank: AUMHash -> nat, base: set<AUMHash>, info': Info, laa: AUMHash)
    requires WellFounded(info, rank)
  {
    && (forall d :: d in base ==> Has(info, d) && Ancestor(info, rank, laa, d))
    && info'.Keys == info.Keys
    && (forall h :: Stored(info', h) == if OnKeptChain(info, rank, base, laa, h) then Stored(info, h) else None)
    && (forall h :: h in info ==> info'[h] == info[h].(purged := info'[h].purged))
  }

  /** Nothing moved, or `laa` is the newest checkpoint that some AUM of `base` allows. */
  ghost predicate FallsBack(info: Info, rank: AUMHash -> nat, base: set<AUMHash>, laa0: AUMHash, laa: AUMHash)
    requires WellFounded(info, rank)
  {
    laa != laa0 ==> IsCheckpoint(info, laa) && exists d :: d in base && NewestFor(info, rank, laa0, laa, d)
  }

  // ----- When compaction is possible -----

  /** Head's chain does not end within `minChain` links, so that there may be something to drop. */
  ghost predicate IsLong(info: Info, rank: AUMHash -> nat, minChain: int, head: AUMHash, laa0: AUMHash)
    requires WellFounded(info, rank) && Ancestor(info, rank, laa0, head)
  {
    Distance(info, rank, head, laa0) >= minChain
  }

  /** The commit times of `laa0` and of everything behind it are known, and if the last one behind
      is not stored it is not young. */
  ghost predicate TimesKnown(info: Info, rank: AUMHash -> nat, laa0: AUMHash, minTime: int)
    requires WellFounded(info, rank)
  {
    forall x :: Ancestor(info, rank, x, laa0) ==> CommitTime(info, x).Some? && (Young(info, x, minTime) ==> Has(info, x))
  }

  /** What must stay meets at `c`, which is stored: everything else of it properly descends from
      `c`. If `c` is behind `laa0`, the chain must be long, the children of everything between must
      be stored, and there must be a checkpoint at `c` or behind it. */
  ghost predicate MeetsAt(info: Info, rank: AUMHash -> nat, base: set<AUMHash>, laa0: AUMHash, long: bool, c: AUMHash)
    requires WellFounded(info, rank)
  {
    && Has(info, c) && Ancestor(info, rank, c, laa0)
    && (forall d :: d in base && d != laa0 ==> d != c && Ancestor(info, rank, c, d))
    && (c != laa0 ==> long && Lookups(info, rank, laa0, c) && exists k :: IsCheckpoint(info, k) && Ancestor(info, rank, k, c))
  }

  /** Everything that a compaction whose active stretch ends at `laa0` needs of the store. */
  ghost predicate CanCompactFrom(
      info: Info, rank: AUMHash -> nat, head: AUMHash, minChain: int, minTime: int, laa0: AUMHash)
    requires WellFounded(info, rank)
  {
    && ActiveEnd(info, rank, minChain, head, laa0)
    && var base, long := Base(info, rank, head, laa0, minTime), IsLong(info, rank, minChain, head, laa0);
       && (long ==> TimesKnown(info, rank, laa0, minTime))
       && (forall h :: h in base ==> ChildAUMs(info, h).Ok?)
       && exists c :: MeetsAt(info, rank, base, laa0, long, c)
  }

  ghost predicate CanCompact(info: Info, rank: AUMHash -> nat, head: AUMHash, minChain: int, minTime: int)
    requires WellFounded(info, rank)
  {
    exists laa0 :: CanCompactFrom(info, rank, head, minChain, minTime, laa0)
  }

  /** There is only one place to compact from. */
  lemma OnlyFrom(info: Info, rank: AUMHash -> nat, head: AUMHash, minChain: int, minTime: int, laa0: AUMHash)
    requires WellFounded(info, rank) && ActiveEnd(info, rank, minChain, head, laa0)
    ensures CanCompact(info, rank, head, minChain, minTime) <==> CanCompactFrom(info, rank, head, minChain, minTime, laa0)
  {
    if x :| CanCompactFrom(info, rank, head, minChain, minTime, x) {
      ActiveEndUnique(info, rank, minChain, head, laa0, x);
    }
  }

  // ----- The kept set, from the marks -----

  /** Retained AUMs reach `laa` by parents that are retained. */
  lemma {:induction false} KeptReaches(
      info: Info, rank: AUMHash -> nat, laa0: AUMHash, v: Verdict, v': Verdict, laa: AUMHash, x: AUMHash)
    requires WellFounded(info, rank) && Connected(info, rank, laa0, v, v', laa)
    requires Kept(v', x)
    ensures Ancestor(info, rank, laa, x) && Has(info, x)
    decreases rank(x)
  {
    if x != laa {
      assert HasParentIn(info, v', {}, x);
      KeptReaches(info, rank, laa0, v, v', laa, ParentOf(info, x).value);
    }
  }

  /** What lies between a retained AUM and `laa` is retained. */
  lemma {:induction false} BetweenKept(
      info: Info, rank: AUMHash -> nat, laa0: AUMHash, v: Verdict, v': Verdict, laa: AUMHash, x: AUMHash, d: AUMHash)
    requires WellFounded(info, rank) && Connected(info, rank, laa0, v, v', laa)
    requires Kept(v', d) && Between(info, rank, laa, x, d)
    ensures Kept(v', x)
    decreases rank(d)
  {
    if x != d {
      AncestorRank(info, rank, x, d);
      AncestorRank(info, rank, laa, x);
      assert HasParentIn(info, v', {}, d);
      BetweenKept(info, rank, laa0, v, v', laa, x, ParentOf(info, d).value);
    }
  }

  lemma KeptLiesOnChain(
      info: Info, rank: AUMHash -> nat, base: set<AUMHash>, laa0: AUMHash, v: Verdict, v': Verdict, laa: AUMHash, x: AUMHash)
    requires WellFounded(info, rank) && Connected(info, rank, laa0, v, v', laa) && Kept(v', x)
    requires forall h :: Kept(v, h) <==> h in base
    ensures OnKeptChain(info, rank, base, laa, x)
  {
    KeptReaches(info, rank, laa0, v, v', laa, x);
    assert LeadsTo(info, rank, v, x);
    var d :| Kept(v, d) && Ancestor(info, rank, x, d);
    assert d in base && Between(info, rank, laa, x, d);
  }

  lemma ChainIsKept(
      info: Info, rank: AUMHash -> nat, base: set<AUMHash>, laa0: AUMHash, v: Verdict, v': Verdict, laa: AUMHash, x: AUMHash)
    requires WellFounded(info, rank) && Connected(info, rank, laa0, v, v', laa) && OnKeptChain(info, rank, base, laa, x)
    requires forall h :: Kept(v, h) <==> h in base
    ensures Kept(v', x)
  {
    var d :| d in base && Between(info, rank, laa, x, d);
    assert Kept(v, d) && Kept(v', d);
    BetweenKept(info, rank, laa0, v, v', laa, x, d);
  }

  /** Purging the unretained AUMs leaves exactly the kept chains. */
  lemma PurgingLeaves(
      info: Info, rank: AUMHash -> nat, base: set<AUMHash>, laa0: AUMHash, v: Verdict, v': Verdict, laa: AUMHash, gone: set<AUMHash>)
    requires WellFounded(info, rank) && Connected(info, rank, laa0, v, v', laa)
    requires forall x :: Kept(v, x) <==> x in base
    requires forall h :: Has(info, h) ==> (h in gone <==> !Kept(v', h))
    ensures Leaves(info, rank, base, PurgeAll(info, gone), laa)
  {
    forall h
      ensures Stored(PurgeAll(info, gone), h) == if OnKeptChain(info, rank, base, laa, h) then Stored(info, h) else None
    {
      if Kept(v', h) {
        KeptLiesOnChain(info, rank, base, laa0, v, v', laa, h);
      } else if OnKeptChain(info, rank, base, laa, h) {
        ChainIsKept(info, rank, base, laa0, v, v', laa, h);
      }
    }
    forall d | d in base ensures Has(info, d) && Ancestor(info, rank, laa, d) {
      assert Kept(v, d) && Kept(v', d);
      KeptReaches(info, rank, laa0, v, v', laa, d);
    }
  }

  lemma MarksFallBack(
      info: Info, rank: AUMHash -> nat, base: set<AUMHash>, laa0: AUMHash, v: Verdict, v': Verdict, laa: AUMHash)
    requires WellFounded(info, rank) && Connected(info, rank, laa0, v, v', laa)
    requires forall x :: Kept(v, x) <==> x in base
    ensures FallsBack(info, rank, base, laa0, laa)
  {
  }

  /** The marks of the last pass, once the unretained AUMs are purged, give the outcome. */
  lemma MarksGiveOutcome(
      info: Info, rank: AUMHash -> nat, laa0: AUMHash, v: Verdict, v': Verdict, laa: AUMHash, gone: set<AUMHash>)
    requires WellFounded(info, rank) && Connected(info, rank, laa0, v, v', laa) && Kept(v, laa0)
    requires forall h :: Has(info, h) ==> (h in gone <==> !Kept(v', h))
    ensures Compacted(info, rank, KeptSet(v), laa0, PurgeAll(info, gone), laa)
  {
    assert forall h :: Kept(v, h) <==> h in KeptSet(v);
    PurgingLeaves(info, rank, KeptSet(v), laa0, v, v', laa, gone);
    MarksFallBack(info, rank, KeptSet(v), laa0, v, v', laa);
  }

  // ----- The three earlier passes -----

  ghost predicate Fresh(info: Info, v: Verdict) {
    v.Keys == AllAUMs(info) && forall h :: At(v, h) == NO_BITS
  }

  /** The roots are what the first two passes retain, except for a young AUM that is not stored. */
  lemma RootsKept(
      info: Info, rank: AUMHash -> nat, minChain: int, head: AUMHash, laa0: AUMHash, minTime: int,
      v0: Verdict, v1: Verdict, v2: Verdict, k: AUMHash)
    requires WellFounded(info, rank) && Fresh(info, v0)
    requires ChainMarked(info, rank, minChain, head, laa0, v0, v1)
    requires YoungMarked(info, v1, v2, minTime)
    ensures Root(info, rank, head, laa0, minTime, k) ==> Kept(v2, k) && Has(info, k)
    ensures Kept(v2, k) && !Root(info, rank, head, laa0, minTime, k) ==>
      IsLong(info, rank, minChain, head, laa0) && Ancestor(info, rank, k, laa0) && Young(info, k, minTime) && !Has(info, k)
  {
    assert At(v1, k) == NO_BITS.(active := Between(info, rank, laa0, k, head), candidate := At(v1, k).candidate);
    if Has(info, k) {
      assert k in AllAUMs(info);
      assert k in v1;
    }
    if Between(info, rank, laa0, k, head) {
      AncestorStored(info, rank, laa0, k);
    }
  }

  /** The commit times that the second pass asks for are known exactly if those behind `laa0` are. */
  lemma TimesAsked(info: Info, rank: AUMHash -> nat, minChain: int, head: AUMHash, laa0: AUMHash, v0: Verdict, v1: Verdict)
    requires WellFounded(info, rank) && Fresh(info, v0) && ChainMarked(info, rank, minChain, head, laa0, v0, v1)
    ensures (forall h :: h in v1 ==> CommitTime(info, h).Some?) <==>
      (IsLong(info, rank, minChain, head, laa0) ==> forall x :: Ancestor(info, rank, x, laa0) ==> CommitTime(info, x).Some?)
  {
    forall h | h in v1 && CommitTime(info, h).None?
      ensures IsLong(info, rank, minChain, head, laa0) && Ancestor(info, rank, h, laa0)
    {
      assert h !in v0;
      if Between(info, rank, laa0, h, head) {
        AncestorStored(info, rank, laa0, h);
      }
    }
    forall x | IsLong(info, rank, minChain, head, laa0) && Ancestor(info, rank, x, laa0) ensures x in v1 {
      assert Between(info, rank, laa0, laa0, head);
    }
  }

  /** The first three passes leave what the last one expects. */
  lemma PassesPrepare(
      info: Info, rank: AUMHash -> nat, minChain: int, head: AUMHash, laa0: AUMHash, minTime: int,
      v0: Verdict, v1: Verdict, v2: Verdict, v3: Verdict)
    requires WellFounded(info, rank) && IndexAgrees(info) && Fresh(info, v0)
    requires ChainMarked(info, rank, minChain, head, laa0, v0, v1)
    requires YoungMarked(info, v1, v2, minTime)
    requires LeafMarked(v2, v3)
    ensures Prepared(info, rank, laa0, v3)
    ensures forall x :: At(v3, x).candidate <==> IsLong(info, rank, minChain, head, laa0) && Behind(info, rank, laa0, x)
  {
    var long := IsLong(info, rank, minChain, head, laa0);
    forall x
      ensures !Marked(v3, x)
      ensures At(v3, x).active <==> Between(info, rank, laa0, x, head)
      ensures At(v3, x).candidate <==> long && Behind(info, rank, laa0, x)
    {
      assert At(v3, x) == At(v2, x).(leaf := At(v3, x).leaf);
      assert At(v2, x).active == At(v1, x).active && At(v2, x).candidate == At(v1, x).candidate;
      assert At(v1, x) == NO_BITS.(active := At(v1, x).active, candidate := At(v1, x).candidate);
    }
    forall x | At(v3, x).candidate ensures !At(v3, x).active {
      AncestorRank(info, rank, x, laa0);
      if Ancestor(info, rank, laa0, x) {
        AncestorRank(info, rank, laa0, x);
      }
    }
    assert Between(info, rank, laa0, laa0, head);
    assert At(v3, laa0).active;
  }

  /** If no young AUM that is not stored lies behind `laa0`, the third pass retains what must stay. */
  lemma KeptIsBase(
      info: Info, rank: AUMHash -> nat, minChain: int, head: AUMHash, laa0: AUMHash, minTime: int,
      v0: Verdict, v1: Verdict, v2: Verdict, h: AUMHash)
    requires WellFounded(info, rank) && Fresh(info, v0)
    requires ChainMarked(info, rank, minChain, head, laa0, v0, v1)
    requires YoungMarked(info, v1, v2, minTime)
    requires IsLong(info, rank, minChain, head, laa0) ==> TimesKnown(info, rank, laa0, minTime)
    ensures Descends(info, rank, v2, h) <==> h in Base(info, rank, head, laa0, minTime)
  {
    if Descends(info, rank, v2, h) {
      var k :| Kept(v2, k) && Ancestor(info, rank, k, h);
      RootsKept(info, rank, minChain, head, laa0, minTime, v0, v1, v2, k);
      AncestorStored(info, rank, k, h);
    }
    if h in Base(info, rank, head, laa0, minTime) {
      var k :| Root(info, rank, head, laa0, minTime, k) && Ancestor(info, rank, k, h);
      RootsKept(info, rank, minChain, head, laa0, minTime, v0, v1, v2, k);
    }
  }

  /** If everything retained is stored in the end, no young AUM was retained that is not. */
  lemma TimesWereKnown(
      info: Info, rank: AUMHash -> nat, minChain: int, head: AUMHash, laa0: AUMHash, minTime: int,
      v0: Verdict, v1: Verdict, v2: Verdict, v3: Verdict, v4: Verdict, laa: AUMHash)
    requires WellFounded(info, rank) && Fresh(info, v0)
    requires ChainMarked(info, rank, minChain, head, laa0, v0, v1)
    requires YoungMarked(info, v1, v2, minTime) && forall h :: h in v1 ==> CommitTime(info, h).Some?
    requires forall h {:trigger Kept(v3, h)} :: Kept(v3, h) <==> Descends(info, rank, v2, h)
    requires Connected(info, rank, laa0, v3, v4, laa)
    ensures IsLong(info, rank, minChain, head, laa0) ==> TimesKnown(info, rank, laa0, minTime)
  {
    if IsLong(info, rank, minChain, head, laa0) {
      TimesAsked(info, rank, minChain, head, laa0, v0, v1);
      forall x | Ancestor(info, rank, x, laa0) && Young(info, x, minTime) ensures Has(info, x) {
        assert Between(info, rank, laa0, laa0, head);
        assert x in v1;
        assert Kept(v2, x) && Ancestor(info, rank, x, x);
        assert Descends(info, rank, v2, x);
        assert Kept(v3, x) && Kept(v4, x);
        KeptReaches(info, rank, laa0, v3, v4, laa, x);
      }
    }
  }

  /** The last pass can settle exactly where what must stay meets. */
  lemma SettlesIffMeets(
      info: Info, rank: AUMHash -> nat, base: set<AUMHash>, laa0: AUMHash, long: bool, v: Verdict, c: AUMHash)
    requires WellFounded(info, rank)
    requires forall h {:trigger Kept(v, h)} :: Kept(v, h) <==> h in base
    requires forall x :: At(v, x).candidate <==> long && Behind(info, rank, laa0, x)
    ensures Settles(info, rank, v, laa0, c) <==> MeetsAt(info, rank, base, laa0, long, c)
  {
    forall d | d in base ensures Kept(v, d) {
      assert Kept(v, d) <==> d in base;
    }
  }

  /** The hashes of a verdict that nothing retains. */
  method ToDelete(v: Verdict) returns (hs: seq<AUMHash>)
    ensures forall h :: h in hs <==> h in v && !Kept(v, h)
  {
    hs := [];
    var rest := v.Keys;
    while rest != {}
      invariant rest <= v.Keys
      invariant forall h :: h in hs <==> h in v.Keys - rest && !Kept(v, h)
    {
      var h :| h in rest;
      if !Kept(v, h) {
        hs := hs + [h];
      }
      rest := rest - {h};
    }
  }

  /** The first three passes: what must stay is retained, or compaction is not possible. */
  method MarkBase(info: Info, ghost rank: AUMHash -> nat, head: AUMHash, minChain: int, minTime: int)
    returns (r: Result<AUMHash, CompactError>, v3: Verdict, ghost v0: Verdict, ghost v1: Verdict, ghost v2: Verdict)
    requires WellFounded(info, rank) && IndexAgrees(info)
    ensures r.Ok? ==> Fresh(info, v0) && ChainMarked(info, rank, minChain, head, r.value, v0, v1)
    ensures r.Ok? ==> YoungMarked(info, v1, v2, minTime) && forall h :: h in v1 ==> CommitTime(info, h).Some?
    ensures r.Ok? ==> LeafMarked(v2, v3) && forall h {:trigger Kept(v3, h)} :: Kept(v3, h) <==> Descends(info, rank, v2, h)
    ensures r.Ok? ==> forall h :: Kept(v3, h) ==> ChildAUMs(info, h).Ok?
    ensures r.Err? ==> !CanCompact(info, rank, head, minChain, minTime)
  {
    var start: Verdict := map h | h in AllAUMs(info) :: NO_BITS;
    v0, v1, v2, v3 := start, start, start, start;
    var active, chain := MarkActiveChain(info, rank, start, minChain, head);
    v1 := chain;
    if active.Err? {
      return Err(active.error), v3, v0, v1, v2;
    }
    ghost var laa0 := active.value;
    OnlyFrom(info, rank, head, minChain, minTime, laa0);
    TimesAsked(info, rank, minChain, head, laa0, v0, v1);
    var young, aged := MarkYoungAUMs(info, chain, minTime);
    v2 := aged;
    if young.Err? {
      return Err(young.error), v3, v0, v1, v2;
    }
    assert forall h :: !Leaf(aged, h);
    var leaves, all := MarkDescendantAUMs(info, rank, aged);
    v3 := all;
    if leaves.Err? {
      CannotLookUpChild(info, rank, minChain, head, laa0, minTime, v0, v1, v2);
      return Err(leaves.error), v3, v0, v1, v2;
    }
    return Ok(active.value), v3, v0, v1, v2;
  }

  lemma CannotLookUpChild(
      info: Info, rank: AUMHash -> nat, minChain: int, head: AUMHash, laa0: AUMHash, minTime: int,
      v0: Verdict, v1: Verdict, v2: Verdict)
    requires WellFounded(info, rank) && Fresh(info, v0)
    requires ChainMarked(info, rank, minChain, head, laa0, v0, v1)
    requires YoungMarked(info, v1, v2, minTime)
    requires exists h :: Descends(info, rank, v2, h) && ChildAUMs(info, h).Err?
    ensures !CanCompactFrom(info, rank, head, minChain, minTime, laa0)
  {
    var h :| Descends(info, rank, v2, h) && ChildAUMs(info, h).Err?;
    if CanCompactFrom(info, rank, head, minChain, minTime, laa0) {
      KeptIsBase(info, rank, minChain, head, laa0, minTime, v0, v1, v2, h);
    }
  }

  /** All four passes: the retention verdict and the new last active ancestor. */
  method Judge(info: Info, ghost rank: AUMHash -> nat, head: AUMHash, minChain: int, minTime: int)
    returns (r: Result<AUMHash, CompactError>, toDelete: seq<AUMHash>, ghost laa0: AUMHash)
    requires WellFounded(info, rank) && IndexAgrees(info)
    ensures r.Ok? <==> CanCompact(info, rank, head, minChain, minTime)
    ensures r.Ok? ==>
      && CanCompactFrom(info, rank, head, minChain, minTime, laa0)
      && Compacted(info, rank, Base(info, rank, head, laa0, minTime), laa0, PurgeAll(info, Elems(toDelete)), r.value)
    ensures r.Ok? ==> forall i :: 0 <= i < |toDelete| ==> toDelete[i] in info
  {
    toDelete, laa0 := [], head;
    var end, v3, v0, v1, v2 := MarkBase(info, rank, head, minChain, minTime);
    if end.Err? {
      return Err(end.error), toDelete, laa0;
    }
    laa0 := end.value;
    PassesPrepare(info, rank, minChain, head, laa0, minTime, v0, v1, v2, v3);
    var last, v4 := MarkAncestorIntersectionAUMs(info, rank, v3, end.value);
    if last.Err? {
      CannotSettle(info, rank, minChain, head, laa0, minTime, v0, v1, v2, v3);
      return Err(last.error), toDelete, laa0;
    }
    toDelete := ToDelete(v4);
    TimesWereKnown(info, rank, minChain, head, laa0, minTime, v0, v1, v2, v3, v4, last.value);
    CanSettle(info, rank, minChain, head, laa0, minTime, v0, v1, v2, v3);
    Deletable(info, v0, v1, v2, v3, v4, toDelete);
    MarksGiveOutcome(info, rank, laa0, v3, v4, last.value, Elems(toDelete));
    return Ok(last.value), toDelete, laa0;
  }

  /** What the first three passes leave in `v3`. */
  ghost predicate BaseMarked(
      info: Info, rank: AUMHash -> nat, minChain: int, head: AUMHash, laa0: AUMHash, minTime: int,
      v0: Verdict, v1: Verdict, v2: Verdict, v3: Verdict)
    requires WellFounded(info, rank)
  {
    && Fresh(info, v0) && ChainMarked(info, rank, minChain, head, laa0, v0, v1) && YoungMarked(info, v1, v2, minTime)
    && (forall h {:trigger Kept(v3, h)} :: Kept(v3, h) <==> Descends(info, rank, v2, h))
    && (forall x :: At(v3, x).candidate <==> IsLong(info, rank, minChain, head, laa0) && Behind(info, rank, laa0, x))
  }

  lemma BaseKept(
      info: Info, rank: AUMHash -> nat, minChain: int, head: AUMHash, laa0: AUMHash, minTime: int,
      v0: Verdict, v1: Verdict, v2: Verdict, v3: Verdict, c: AUMHash)
    requires WellFounded(info, rank) && BaseMarked(info, rank, minChain, head, laa0, minTime, v0, v1, v2, v3)
    requires IsLong(info, rank, minChain, head, laa0) ==> TimesKnown(info, rank, laa0, minTime)
    ensures var base := Base(info, rank, head, laa0, minTime);
      && (forall h {:trigger Kept(v3, h)} :: Kept(v3, h) <==> h in base) && KeptSet(v3) == base
      && (Settles(info, rank, v3, laa0, c) <==>
            MeetsAt(info, rank, base, laa0, IsLong(info, rank, minChain, head, laa0), c))
  {
    var base := Base(info, rank, head, laa0, minTime);
    forall h {:trigger Kept(v3, h)} ensures Kept(v3, h) <==> h in base {
      KeptIsBase(info, rank, minChain, head, laa0, minTime, v0, v1, v2, h);
    }
    assert forall h :: h in KeptSet(v3) <==> Kept(v3, h);
    SettlesIffMeets(info, rank, base, laa0, IsLong(info, rank, minChain, head, laa0), v3, c);
  }

  lemma CannotSettle(
      info: Info, rank: AUMHash -> nat, minChain: int, head: AUMHash, laa0: AUMHash, minTime: int,
      v0: Verdict, v1: Verdict, v2: Verdict, v3: Verdict)
    requires WellFounded(info, rank) && BaseMarked(info, rank, minChain, head, laa0, minTime, v0, v1, v2, v3)
    requires forall c :: !Settles(info, rank, v3, laa0, c)
    ensures !CanCompact(info, rank, head, minChain, minTime)
  {
    OnlyFrom(info, rank, head, minChain, minTime, laa0);
    if CanCompactFrom(info, rank, head, minChain, minTime, laa0) {
      var c :| MeetsAt(info, rank, Base(info, rank, head, laa0, minTime), laa0, IsLong(info, rank, minChain, head, laa0), c);
      BaseKept(info, rank, minChain, head, laa0, minTime, v0, v1, v2, v3, c);
    }
  }

  lemma CanSettle(
      info: Info, rank: AUMHash -> nat, minChain: int, head: AUMHash, laa0: AUMHash, minTime: int,
      v0: Verdict, v1: Verdict, v2: Verdict, v3: Verdict)
    requires WellFounded(info, rank) && BaseMarked(info, rank, minChain, head, laa0, minTime, v0, v1, v2, v3)
    requires IsLong(info, rank, minChain, head, laa0) ==> TimesKnown(info, rank, laa0, minTime)
    requires forall h :: Kept(v3, h) ==> ChildAUMs(info, h).Ok?
    requires exists c :: Settles(info, rank, v3, laa0, c)
    ensures CanCompactFrom(info, rank, head, minChain, minTime, laa0)
    ensures KeptSet(v3) == Base(info, rank, head, laa0, minTime)
  {
    var c :| Settles(info, rank, v3, laa0, c);
    BaseKept(info, rank, minChain, head, laa0, minTime, v0, v1, v2, v3, c);
  }

  /** The deleted hashes are recorded, and among stored AUMs they are the unretained ones. */
  lemma Deletable(
      info: Info, v0: Verdict, v1: Verdict, v2: Verdict, v3: Verdict, v4: Verdict, toDelete: seq<AUMHash>)
    requires Fresh(info, v0) && v0.Keys <= v1.Keys == v2.Keys && LeafMarked(v2, v3)
    requires forall h :: h in v1 ==> CommitTime(info, h).Some?
    requires v3.Keys <= v4.Keys && (forall x :: Kept(v3, x) ==> Kept(v4, x))
    requires forall x :: x in v4 ==> x in v3 || Kept(v4, x)
    requires forall h :: h in toDelete <==> h in v4 && !Kept(v4, h)
    ensures forall h :: Has(info, h) ==> (h in Elems(toDelete) <==> !Kept(v4, h))
    ensures forall i :: 0 <= i < |toDelete| ==> toDelete[i] in info
  {
    forall h | Has(info, h) ensures h in Elems(toDelete) <==> !Kept(v4, h) {
      assert h in v0;
    }
    forall i | 0 <= i < |toDelete| ensures toDelete[i] in info {
      var h := toDelete[i];
      assert h in v4 && !Kept(v4, h);
      assert Leaf(v3, h) ==> Kept(v3, h);
    }
  }

  // ----- Compaction -----

  /** Deletes old AUMs. It succeeds exactly when its options are set and the store allows it; a
      failed compaction changes nothing. */
  method Compact(fs: FS, ghost rank: AUMHash -> nat, head: AUMHash, minChain: int, minAge: int, now: int)
    returns (r: Result<AUMHash, CompactError>, ghost laa0: AUMHash)
    requires fs.Valid() && WellFounded(fs.info, rank)
    modifies fs
    ensures fs.Valid()
    ensures r.Ok? <==> minChain != 0 && minAge != 0 && CanCompact(old(fs.info), rank, head, minChain, now - minAge)
    ensures r.Err? ==> fs.info == old(fs.info) && fs.lastActiveAncestor == old(fs.lastActiveAncestor)
    ensures r.Ok? ==>
      && CanCompactFrom(old(fs.info), rank, head, minChain, now - minAge, laa0)
      && Compacted(old(fs.info), rank, Base(old(fs.info), rank, head, laa0, now - minAge), laa0, fs.info, r.value)
      && fs.lastActiveAncestor == Some(r.value)
  {
    laa0 := head;
    if minChain == 0 {
      return Err(MinChainUnset), laa0;
    }
    if minAge == 0 {
      return Err(MinAgeUnset), laa0;
    }
    CoherentIndexAgrees(fs.hash, fs.info);
    var verdict, toDelete, end := Judge(fs.info, rank, head, minChain, now - minAge);
    if verdict.Err? {
      return Err(verdict.error), laa0;
    }
    PurgeKeepsCoherent(fs.hash, fs.info, Elems(toDelete));
    fs.SetLastActiveAncestor(verdict.value);
    var purged := fs.PurgeAUMs(toDelete);
    assert purged.Ok?;
    return Ok(verdict.value), end;
  }
}
