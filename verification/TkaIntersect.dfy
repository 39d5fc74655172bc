/** The last marking pass of compaction: every retained AUM is connected back to the
    candidate ancestor, which moves to an older checkpoint when some retained AUM does
    not descend from it. */
module TkaIntersect {
  import opened Wrappers
  import opened TkaTypes
  import opened TkaStore
  import opened TkaMark

  predicate Marked(v: Verdict, h: AUMHash) {
    At(v, h).ancestor
  }

  predicate Candidate(v: Verdict, h: AUMHash) {
    At(v, h).candidate && !At(v, h).active
  }

  /** `h` is a proper ancestor of the old candidate ancestor `laa`. */
  ghost predicate Behind(info: Info, rank: AUMHash -> nat, laa: AUMHash, h: AUMHash)
    requires WellFounded(info, rank)
  {
    h != laa && Ancestor(info, rank, h, laa)
  }

  /** What the earlier passes leave: no ancestor marks yet, and the candidates are the
      AUMs behind `laa`, if any. */
  ghost predicate Prepared(info: Info, rank: AUMHash -> nat, laa: AUMHash, v: Verdict)
    requires WellFounded(info, rank)
  {
    && IndexAgrees(info) && Has(info, laa) && Kept(v, laa)
    && (forall x :: !Marked(v, x))
    && (forall x :: At(v, x).candidate ==> Behind(info, rank, laa, x) && !At(v, x).active)
    && ((exists x :: At(v, x).candidate) ==> forall x :: Behind(info, rank, laa, x) ==> At(v, x).candidate)
  }

  /** Only ancestor marks were added. */
  ghost predicate AncestorMarks(v: Verdict, v': Verdict) {
    && v.Keys <= v'.Keys
    && (forall h :: h in v' ==> h in v || Marked(v', h))
    && forall h {:trigger At(v', h)} :: At(v', h) == At(v, h).(ancestor := At(v', h).ancestor)
  }

  ghost predicate HasParentIn(info: Info, v: Verdict, work: set<AUMHash>, x: AUMHash) {
    ParentOf(info, x).Some? && (Kept(v, ParentOf(info, x).value) || ParentOf(info, x).value in work)
  }

  ghost predicate ParentClosed(info: Info, s: set<AUMHash>) {
    forall x :: x in s && ParentOf(info, x).Some? ==> ParentOf(info, x).value in s
  }

  /** What holds between two steps of the ancestor scan with candidate ancestor `cur`:
      a marked AUM other than `cur` has its parent retained or waiting, a retained unmarked
      one waits, all AUMs from `laa` back to `cur` are retained, and only ancestors of what
      was retained are met (`up`). */
  ghost predicate AncestorScan(
      info: Info, rank: AUMHash -> nat, laa: AUMHash, v: Verdict, v': Verdict,
      work: set<AUMHash>, cur: AUMHash, up: set<AUMHash>)
    requires WellFounded(info, rank)
  {
    && AncestorMarks(v, v')
    && Ancestor(info, rank, cur, laa) && (cur == laa || At(v, cur).candidate)
    && (forall x :: Marked(v', x) ==> x == cur || HasParentIn(info, v', work, x))
    && (forall x :: Kept(v, x) && !Marked(v', x) ==> x == laa || x in work)
    && (forall x :: Behind(info, rank, laa, x) && Ancestor(info, rank, cur, x) ==> Marked(v', x))
    && (forall x :: Marked(v', x) ==> x in up)
    && work <= up && laa !in work
    && (forall x :: x in work && At(v, x).candidate ==> Kept(v, x) || Marked(v', x))
  }

  /** `d` forces the candidate ancestor back to `cur`: it was retained, and nothing from `laa`
      down to just before `cur` is a proper ancestor of it. */
  ghost predicate Forces(info: Info, rank: AUMHash -> nat, laa: AUMHash, v: Verdict, cur: AUMHash, d: AUMHash)
    requires WellFounded(info, rank)
  {
    && Kept(v, d) && d != cur && Ancestor(info, rank, cur, d)
    && forall x :: x != cur && Between(info, rank, cur, x, laa) && Ancestor(info, rank, x, d) ==> x == d
  }

  lemma StaysKept(v: Verdict, v': Verdict, h: AUMHash)
    requires AncestorMarks(v, v') && Kept(v, h) && !Marked(v, h)
    ensures Kept(v', h)
  {
    assert At(v', h) == At(v, h).(ancestor := At(v', h).ancestor);
  }

  lemma SteppedParent(
      info: Info, v1: Verdict, h: AUMHash, work: set<AUMHash>, work': set<AUMHash>, x: AUMHash)
    requires HasParentIn(info, v1, work, x) || x == h
    requires ParentOf(info, h).Some? && work - {h} <= work'
    requires Kept(v1, ParentOf(info, h).value) || ParentOf(info, h).value in work'
    ensures HasParentIn(info, SetAncestor(v1, h), work', x)
  {
    var v2 := SetAncestor(v1, h);
    assert Kept(v2, h);
    var q := ParentOf(info, x).value;
    assert Kept(v1, q) ==> Kept(v2, q);
  }

  lemma SteppedParents(
      info: Info, v1: Verdict, h: AUMHash, p: AUMHash, work: set<AUMHash>, work': set<AUMHash>, cur: AUMHash)
    requires forall x :: Marked(v1, x) ==> x == cur || HasParentIn(info, v1, work, x)
    requires ParentOf(info, h) == Some(p) && work - {h} <= work' && (Kept(v1, p) || p in work')
    ensures forall x :: Marked(SetAncestor(v1, h), x) ==> x == cur || HasParentIn(info, SetAncestor(v1, h), work', x)
  {
    var v2 := SetAncestor(v1, h);
    forall x | Marked(v2, x) && x != cur ensures HasParentIn(info, v2, work', x) {
      assert x != h ==> Marked(v1, x);
      SteppedParent(info, v1, h, work, work', x);
    }
  }

  lemma SteppedMarks(v: Verdict, v1: Verdict, h: AUMHash)
    requires AncestorMarks(v, v1)
    ensures AncestorMarks(v, SetAncestor(v1, h))
    ensures forall x :: Marked(SetAncestor(v1, h), x) <==> Marked(v1, x) || x == h
  {
  }

  lemma ScanStep(
      info: Info, rank: AUMHash -> nat, laa: AUMHash, v: Verdict, v1: Verdict, h: AUMHash, p: AUMHash,
      work: set<AUMHash>, work': set<AUMHash>, cur: AUMHash, up: set<AUMHash>)
    requires WellFounded(info, rank) && Prepared(info, rank, laa, v) && ParentClosed(info, up)
    requires AncestorScan(info, rank, laa, v, v1, work, cur, up) && h in work && ParentOf(info, h) == Some(p)
    requires work - {h} <= work'
    requires if Kept(v1, p) then work' <= work else !At(v, p).candidate && p in work' && work' <= work + {p}
    ensures AncestorScan(info, rank, laa, v, SetAncestor(v1, h), work', cur, up)
  {
    SteppedMarks(v, v1, h);
    SteppedParents(info, v1, h, p, work, work', cur);
    StaysKept(v, v1, laa);
  }

  lemma ScanSkip(
      info: Info, rank: AUMHash -> nat, laa: AUMHash, v: Verdict, v1: Verdict, h: AUMHash,
      work: set<AUMHash>, work': set<AUMHash>, cur: AUMHash, up: set<AUMHash>)
    requires WellFounded(info, rank)
    requires AncestorScan(info, rank, laa, v, v1, work, cur, up) && Marked(v1, h)
    requires work - {h} <= work' <= work
    ensures AncestorScan(info, rank, laa, v, v1, work', cur, up)
  {
    assert Kept(v1, h);
    forall x | Marked(v1, x) ensures x == cur || HasParentIn(info, v1, work', x) {
    }
  }

  /** Two AUMs behind `laa` with one parent are the same. */
  lemma OneChildOnChain(info: Info, rank: AUMHash -> nat, laa: AUMHash, x: AUMHash, y: AUMHash)
    requires WellFounded(info, rank)
    requires Ancestor(info, rank, x, laa) && Ancestor(info, rank, y, laa)
    requires ParentOf(info, x).Some? && ParentOf(info, x) == ParentOf(info, y)
    ensures x == y
  {
    AncestorLinear(info, rank, x, y, laa);
    var p := ParentOf(info, x).value;
    if x != y {
      if Ancestor(info, rank, x, y) {
        AncestorRank(info, rank, x, p);
      } else {
        AncestorRank(info, rank, y, p);
      }
    }
  }

  method FindCandidate(v: Verdict, children: seq<AUMHash>) returns (c: Option<AUMHash>)
    ensures c.Some? ==> c.value in children && Candidate(v, c.value)
    ensures c.None? ==> forall i :: 0 <= i < |children| ==> !Candidate(v, children[i])
  {
    for i := 0 to |children|
      invariant forall j :: 0 <= j < i ==> !Candidate(v, children[j])
    {
      if Candidate(v, children[i]) {
        return Some(children[i]);
      }
    }
    return None;
  }

  /** The children of everything on the chain from `c` up to just before `laa` can be looked up. */
  ghost predicate Lookups(info: Info, rank: AUMHash -> nat, laa: AUMHash, c: AUMHash)
    requires WellFounded(info, rank)
  {
    forall x :: Behind(info, rank, laa, x) && Ancestor(info, rank, c, x) ==> ChildAUMs(info, x).Ok?
  }

  /** The children of everything from `p` up to just before `next` were looked up. */
  ghost predicate LookedUp(info: Info, rank: AUMHash -> nat, p: AUMHash, next: AUMHash)
    requires WellFounded(info, rank)
    decreases rank(next)
  {
    next == p || (ParentOf(info, next).Some?
                  && ChildAUMs(info, ParentOf(info, next).value).Ok? && LookedUp(info, rank, p, ParentOf(info, next).value))
  }

  lemma {:induction false} LookedUpAt(info: Info, rank: AUMHash -> nat, p: AUMHash, next: AUMHash, x: AUMHash)
    requires WellFounded(info, rank) && LookedUp(info, rank, p, next) && Between(info, rank, p, x, next) && x != next
    ensures ChildAUMs(info, x).Ok?
    decreases rank(next)
  {
    if next == p {
      AncestorRank(info, rank, x, p);
      AncestorRank(info, rank, p, x);
    } else if x != ParentOf(info, next).value {
      LookedUpAt(info, rank, p, ParentOf(info, next).value, x);
    }
  }

  lemma AllLookedUp(info: Info, rank: AUMHash -> nat, laa: AUMHash, p: AUMHash, next: AUMHash)
    requires WellFounded(info, rank) && LookedUp(info, rank, p, next) && ChildAUMs(info, next).Ok?
    requires ParentOf(info, laa) == Some(next)
    ensures Lookups(info, rank, laa, p)
  {
    forall x | Behind(info, rank, laa, x) && Ancestor(info, rank, p, x) ensures ChildAUMs(info, x).Ok? {
      if x != next {
        LookedUpAt(info, rank, p, next, x);
      }
    }
  }

  /** Marks everything on the active chain from the candidate `p` forward to just before
      `laa`, following the one child of each AUM that is a candidate. */
  method MarkForward(info: Info, ghost rank: AUMHash -> nat, ghost laa: AUMHash, v: Verdict, p: AUMHash)
    returns (r: Result<(), CompactError>, v': Verdict)
    requires WellFounded(info, rank) && IndexAgrees(info)
    requires forall x :: Candidate(v, x) <==> Behind(info, rank, laa, x)
    requires Candidate(v, p)
    ensures r.Ok? <==> Lookups(info, rank, laa, p)
    ensures r.Ok? ==> v.Keys <= v'.Keys && forall x :: x in v' ==> x in v || Marked(v', x)
    ensures r.Ok? ==> forall x {:trigger At(v', x)} :: At(v', x) == At(v, x).(ancestor := At(v, x).ancestor
      || (Behind(info, rank, laa, x) && Ancestor(info, rank, p, x)))
  {
    var next := p;
    v' := SetAncestor(v, p);
    ChainPoint(info, rank, p);
    while true
      invariant Behind(info, rank, laa, next) && Ancestor(info, rank, p, next)
      invariant v.Keys <= v'.Keys && forall x :: x in v' ==> x in v || Marked(v', x)
      invariant forall x {:trigger At(v', x)} :: At(v', x) == At(v, x).(ancestor := At(v, x).ancestor
        || Between(info, rank, p, x, next))
      invariant LookedUp(info, rank, p, next)
      decreases rank(laa) - rank(next)
    {
      AncestorRank(info, rank, next, laa);
      var children := ChildAUMs(info, next);
      if children.Err? {
        return Err(Children), v';
      }
      var c := FindCandidate(v', children.value);
      if c.None? {
        LastCandidate(info, rank, laa, v, v', next, children.value);
        AllLookedUp(info, rank, laa, p, next);
        ForwardDone(info, rank, laa, p, next);
        break;
      }
      CandidateChild(info, rank, laa, p, next, children.value, c.value);
      v' := SetAncestor(v', c.value);
      next := c.value;
    }
    return Ok(()), v';
  }

  lemma ChainPoint(info: Info, rank: AUMHash -> nat, p: AUMHash)
    requires WellFounded(info, rank)
    ensures forall x {:trigger Between(info, rank, p, x, p)} :: Between(info, rank, p, x, p) <==> x == p
  {
    forall x {:trigger Between(info, rank, p, x, p)} ensures Between(info, rank, p, x, p) <==> x == p {
      if Between(info, rank, p, x, p) {
        AncestorRank(info, rank, x, p);
        AncestorRank(info, rank, p, x);
      }
    }
  }

  lemma CandidateChild(
      info: Info, rank: AUMHash -> nat, laa: AUMHash, p: AUMHash, next: AUMHash, children: seq<AUMHash>, c: AUMHash)
    requires WellFounded(info, rank) && IndexAgrees(info)
    requires Ancestor(info, rank, p, next)
    requires ChildAUMs(info, next) == Ok(children) && c in children
    ensures ParentOf(info, c) == Some(next) && Ancestor(info, rank, p, c) && rank(next) < rank(c)
    ensures forall x {:trigger Between(info, rank, p, x, c)} ::
      Between(info, rank, p, x, c) <==> x == c || Between(info, rank, p, x, next)
  {
    var i :| 0 <= i < |children| && children[i] == c;
    assert Has(info, Kids(info, next)[i]);
    assert c in Kids(info, next);
  }

  lemma LastCandidate(
      info: Info, rank: AUMHash -> nat, laa: AUMHash, v: Verdict, v': Verdict, next: AUMHash, children: seq<AUMHash>)
    requires WellFounded(info, rank) && IndexAgrees(info)
    requires forall x :: Candidate(v, x) <==> Behind(info, rank, laa, x)
    requires forall x {:trigger At(v', x)} :: At(v', x) == At(v, x).(ancestor := At(v', x).ancestor)
    requires Behind(info, rank, laa, next) && ChildAUMs(info, next) == Ok(children)
    requires forall i :: 0 <= i < |children| ==> !Candidate(v', children[i])
    ensures ParentOf(info, laa) == Some(next)
  {
    var y := AncestorChild(info, rank, next, laa);
    assert y in Kids(info, next);
    var i :| 0 <= i < |children| && children[i] == y;
    assert !Candidate(v', y) && At(v', y) == At(v, y).(ancestor := At(v', y).ancestor);
    assert !Candidate(v, y);
    assert y == laa;
  }

  lemma ForwardDone(info: Info, rank: AUMHash -> nat, laa: AUMHash, p: AUMHash, next: AUMHash)
    requires WellFounded(info, rank)
    requires ParentOf(info, laa) == Some(next)
    ensures forall x {:trigger Between(info, rank, p, x, next)} ::
      Between(info, rank, p, x, next) <==> Behind(info, rank, laa, x) && Ancestor(info, rank, p, x)
  {
    forall x {:trigger Between(info, rank, p, x, next)}
      ensures Between(info, rank, p, x, next) <==> Behind(info, rank, laa, x) && Ancestor(info, rank, p, x)
    {
      if Ancestor(info, rank, x, next) {
        AncestorRank(info, rank, x, next);
      }
    }
  }

  /** `v3` is `v1` with `h` and everything from `laa` back to `p` marked. */
  ghost predicate Adjusted(
      info: Info, rank: AUMHash -> nat, laa: AUMHash, v1: Verdict, v3: Verdict, h: AUMHash, p: AUMHash)
    requires WellFounded(info, rank)
  {
    && v1.Keys <= v3.Keys
    && (forall x :: x in v3 ==> x in v1 || Marked(v3, x))
    && forall x {:trigger At(v3, x)} :: At(v3, x) == At(v1, x).(ancestor := At(v1, x).ancestor || x == h
         || (Behind(info, rank, laa, x) && Ancestor(info, rank, p, x)))
  }

  lemma AdjustedParent(
      info: Info, rank: AUMHash -> nat, laa: AUMHash, v1: Verdict, v3: Verdict, h: AUMHash, p: AUMHash,
      work: set<AUMHash>, work': set<AUMHash>, cur: AUMHash, x: AUMHash)
    requires WellFounded(info, rank) && Adjusted(info, rank, laa, v1, v3, h, p)
    requires ParentOf(info, h) == Some(p) && Behind(info, rank, laa, p) && Ancestor(info, rank, p, cur)
    requires cur == laa || Behind(info, rank, laa, cur)
    requires Marked(v1, x) ==> x == cur || HasParentIn(info, v1, work, x)
    requires Marked(v3, x) && x != p && work - {h} <= work'
    ensures HasParentIn(info, v3, work', x)
  {
    assert Marked(v3, p) && Marked(v3, h);
    if x == h {
    } else if (Behind(info, rank, laa, x) && Ancestor(info, rank, p, x)) || x == cur {
      ParentStaysBehind(info, rank, laa, p, x);
      assert Marked(v3, ParentOf(info, x).value);
    } else {
      assert At(v3, x) == At(v1, x);
      var q := ParentOf(info, x).value;
      assert Kept(v1, q) ==> Kept(v3, q);
    }
  }

  /** Moving the candidate ancestor back to the unretained candidate `p`, the parent of `h`. */
  lemma ScanAdjust(
      info: Info, rank: AUMHash -> nat, laa: AUMHash, v: Verdict, v1: Verdict, v3: Verdict, h: AUMHash, p: AUMHash,
      work: set<AUMHash>, work': set<AUMHash>, cur: AUMHash, up: set<AUMHash>)
    requires WellFounded(info, rank) && Prepared(info, rank, laa, v) && ParentClosed(info, up)
    requires AncestorScan(info, rank, laa, v, v1, work, cur, up) && h in work
    requires ParentOf(info, h) == Some(p) && UpHoldsAncestors(info, rank, up, laa)
    requires !Kept(v1, p) && At(v, p).candidate && Adjusted(info, rank, laa, v1, v3, h, p)
    requires work - {h} <= work' <= work + {p}
    ensures AncestorScan(info, rank, laa, v, v3, work', p, up)
  {
    NewCandidateIsOlder(info, rank, laa, v, v1, work, cur, up, p);
    assert AncestorMarks(v, v3);
    forall x | Marked(v3, x) && x != p ensures HasParentIn(info, v3, work', x) {
      AdjustedParent(info, rank, laa, v1, v3, h, p, work, work', cur, x);
    }
    assert forall x :: Marked(v1, x) ==> Marked(v3, x);
    assert Marked(v3, h) && Marked(v3, p);
  }

  /** Every ancestor of `laa` is in `up`. */
  ghost predicate UpHoldsAncestors(info: Info, rank: AUMHash -> nat, up: set<AUMHash>, laa: AUMHash)
    requires WellFounded(info, rank)
  {
    forall x :: Ancestor(info, rank, x, laa) ==> x in up
  }

  lemma ParentStaysBehind(info: Info, rank: AUMHash -> nat, laa: AUMHash, p: AUMHash, x: AUMHash)
    requires WellFounded(info, rank)
    requires Ancestor(info, rank, x, laa) && Ancestor(info, rank, p, x) && p != x
    ensures ParentOf(info, x).Some?
    ensures Behind(info, rank, laa, ParentOf(info, x).value) && Ancestor(info, rank, p, ParentOf(info, x).value)
  {
    var q := ParentOf(info, x).value;
    AncestorParent(info, rank, x, laa);
    AncestorRank(info, rank, x, laa);
  }

  /** An unretained candidate lies behind the current candidate ancestor. */
  lemma NewCandidateIsOlder(
      info: Info, rank: AUMHash -> nat, laa: AUMHash, v: Verdict, v1: Verdict,
      work: set<AUMHash>, cur: AUMHash, up: set<AUMHash>, p: AUMHash)
    requires WellFounded(info, rank) && Prepared(info, rank, laa, v)
    requires AncestorScan(info, rank, laa, v, v1, work, cur, up)
    requires !Kept(v1, p) && At(v, p).candidate
    ensures Behind(info, rank, laa, p) && Ancestor(info, rank, p, cur) && p != cur
  {
    AncestorLinear(info, rank, p, cur, laa);
    StaysKept(v, v1, laa);
    assert Ancestor(info, rank, cur, p) ==> Marked(v1, p);
  }

  /** The AUM that made the candidate ancestor move, or one it leads back from, forces the move. */
  lemma AdjustIsForced(
      info: Info, rank: AUMHash -> nat, laa: AUMHash, v: Verdict, v1: Verdict, h: AUMHash,
      work: set<AUMHash>, cur: AUMHash, up: set<AUMHash>, d: AUMHash) returns (d': AUMHash)
    requires WellFounded(info, rank) && Prepared(info, rank, laa, v)
    requires AncestorScan(info, rank, laa, v, v1, work, cur, up) && h in work && !Marked(v1, h)
    requires ParentOf(info, h).Some?
    requires !Kept(v1, ParentOf(info, h).value) && At(v, ParentOf(info, h).value).candidate
    requires Kept(v, d) && Ancestor(info, rank, h, d)
    ensures Forces(info, rank, laa, v, ParentOf(info, h).value, d')
  {
    var p := ParentOf(info, h).value;
    NewCandidateIsOlder(info, rank, laa, v, v1, work, cur, up, p);
    if Behind(info, rank, laa, h) {
      assert At(v, h).candidate;
      d' := h;
    } else {
      d' := d;
    }
    AncestorParent(info, rank, h, d');
    AncestorRank(info, rank, p, h);
    AncestorRank(info, rank, h, d');
    forall x | x != p && Between(info, rank, p, x, laa) && Ancestor(info, rank, x, d') ensures x == d' {
      OnlyAbove(info, rank, laa, h, p, d', x);
    }
  }

  lemma OnlyAbove(
      info: Info, rank: AUMHash -> nat, laa: AUMHash, h: AUMHash, p: AUMHash, d: AUMHash, x: AUMHash)
    requires WellFounded(info, rank)
    requires ParentOf(info, h) == Some(p) && Ancestor(info, rank, h, d)
    requires x != p && Between(info, rank, p, x, laa) && Ancestor(info, rank, x, d)
    requires h != laa && (d == h || !Ancestor(info, rank, h, laa))
    ensures x == d
  {
    AncestorLinear(info, rank, x, h, d);
    if Ancestor(info, rank, x, h) && x != h {
      AncestorRank(info, rank, x, p);
      AncestorRank(info, rank, p, x);
    } else {
      AncestorTransitive(info, rank, h, x, laa);
      AncestorRank(info, rank, x, d);
      AncestorRank(info, rank, h, x);
    }
  }

  // ----- The scan -----

  function MarkedSet(v: Verdict): set<AUMHash> {
    set h | h in v && v[h].ancestor
  }

  /** `x` is an ancestor of something retained. */
  ghost predicate LeadsTo(info: Info, rank: AUMHash -> nat, v: Verdict, x: AUMHash)
    requires WellFounded(info, rank)
  {
    exists d :: Kept(v, d) && Ancestor(info, rank, x, d)
  }

  /** The ancestors of retained AUMs. */
  ghost function Up(info: Info, rank: AUMHash -> nat, v: Verdict): set<AUMHash>
    requires WellFounded(info, rank)
  {
    var parents := set h | h in info && ParentOf(info, h).Some? :: ParentOf(info, h).value;
    set x | x in v.Keys + info.Keys + parents && LeadsTo(info, rank, v, x)
  }

  lemma UpClosed(info: Info, rank: AUMHash -> nat, v: Verdict, laa: AUMHash)
    requires WellFounded(info, rank) && Kept(v, laa)
    ensures ParentClosed(info, Up(info, rank, v))
    ensures UpHoldsAncestors(info, rank, Up(info, rank, v), laa)
    ensures forall x :: Kept(v, x) ==> x in Up(info, rank, v)
  {
    var up := Up(info, rank, v);
    forall x | x in up && ParentOf(info, x).Some? ensures ParentOf(info, x).value in up {
      var d :| Kept(v, d) && Ancestor(info, rank, x, d);
      AncestorParent(info, rank, x, d);
    }
    forall x | Kept(v, x) ensures x in up {
      assert Ancestor(info, rank, x, x);
    }
    forall x | Ancestor(info, rank, x, laa) ensures x in up {
      if x != laa {
        var y := AncestorChild(info, rank, x, laa);
        assert y in info;
      }
    }
  }

  /** The standing facts of one scan: `up` holds the ancestors of what was retained. */
  ghost predicate Setting(info: Info, rank: AUMHash -> nat, laa: AUMHash, v: Verdict, up: set<AUMHash>) {
    && WellFounded(info, rank) && Prepared(info, rank, laa, v)
    && ParentClosed(info, up) && UpHoldsAncestors(info, rank, up, laa)
    && forall x :: x in up ==> LeadsTo(info, rank, v, x)
  }

  /** The scan invariant, with the AUM `d` that made the candidate ancestor move, if it did. */
  ghost predicate Scanning(
      info: Info, rank: AUMHash -> nat, laa: AUMHash, v: Verdict, v': Verdict,
      work: set<AUMHash>, cur: AUMHash, up: set<AUMHash>, d: AUMHash)
    requires WellFounded(info, rank)
  {
    && AncestorScan(info, rank, laa, v, v', work, cur, up)
    && (cur != laa ==> Forces(info, rank, laa, v, cur, d) && !Kept(v, cur) && Lookups(info, rank, laa, cur))
  }

  // ----- When the scan succeeds -----

  /** `c` is `laa` or behind it, and everything else retained properly descends from it. */
  ghost predicate Meets(info: Info, rank: AUMHash -> nat, v: Verdict, laa: AUMHash, c: AUMHash)
    requires WellFounded(info, rank)
  {
    Ancestor(info, rank, c, laa) && forall d :: Kept(v, d) && d != laa ==> d != c && Ancestor(info, rank, c, d)
  }

  /** The pass can settle on `c`: it is stored, everything retained meets there, and if that is
      behind `laa`, where only candidates count, the chain between can be walked forward and there
      is a checkpoint to fall back to. */
  ghost predicate Settles(info: Info, rank: AUMHash -> nat, v: Verdict, laa: AUMHash, c: AUMHash)
    requires WellFounded(info, rank)
  {
    && Has(info, c) && Meets(info, rank, v, laa, c)
    && (c != laa ==>
          && At(v, c).candidate && Lookups(info, rank, laa, c)
          && exists k :: IsCheckpoint(info, k) && Ancestor(info, rank, k, c))
  }

  /** What waits is scanned already or properly descends from `g`, and so does `cur`, if not `g`. */
  ghost predicate TowardOne(info: Info, rank: AUMHash -> nat, v': Verdict, work: set<AUMHash>, cur: AUMHash, g: AUMHash)
    requires WellFounded(info, rank)
  {
    Ancestor(info, rank, g, cur) && forall x :: x in work ==> Marked(v', x) || (x != g && Ancestor(info, rank, g, x))
  }

  ghost predicate Toward(
      info: Info, rank: AUMHash -> nat, laa: AUMHash, v: Verdict, v': Verdict, work: set<AUMHash>, cur: AUMHash)
    requires WellFounded(info, rank)
  {
    forall g :: Settles(info, rank, v, laa, g) ==> TowardOne(info, rank, v', work, cur, g)
  }

  /** An AUM that waits has a parent, which descends from where the scan settles. */
  lemma WaitingHasParent(
      info: Info, rank: AUMHash -> nat, laa: AUMHash, v: Verdict, v1: Verdict, h: AUMHash, work: set<AUMHash>, cur: AUMHash, g: AUMHash)
    requires WellFounded(info, rank) && Toward(info, rank, laa, v, v1, work, cur) && Settles(info, rank, v, laa, g)
    requires h in work && !Marked(v1, h)
    ensures ParentOf(info, h).Some? && Ancestor(info, rank, g, ParentOf(info, h).value)
  {
    assert TowardOne(info, rank, v1, work, cur, g);
  }

  lemma NotStuck(
      info: Info, rank: AUMHash -> nat, laa: AUMHash, v: Verdict, v1: Verdict, h: AUMHash, work: set<AUMHash>, cur: AUMHash)
    requires WellFounded(info, rank) && Toward(info, rank, laa, v, v1, work, cur)
    requires h in work && !Marked(v1, h) && ParentOf(info, h).None?
    ensures forall g :: !Settles(info, rank, v, laa, g)
  {
    if g :| Settles(info, rank, v, laa, g) {
      WaitingHasParent(info, rank, laa, v, v1, h, work, cur, g);
    }
  }

  /** Moving back to the candidate `p` stays within what the scan can settle on. */
  lemma BackToward(
      info: Info, rank: AUMHash -> nat, laa: AUMHash, v: Verdict, v1: Verdict, h: AUMHash, p: AUMHash,
      work: set<AUMHash>, cur: AUMHash, g: AUMHash)
    requires WellFounded(info, rank) && Toward(info, rank, laa, v, v1, work, cur) && Settles(info, rank, v, laa, g)
    requires h in work && !Marked(v1, h) && ParentOf(info, h) == Some(p) && Behind(info, rank, laa, p)
    ensures g != laa && Ancestor(info, rank, g, p) && Lookups(info, rank, laa, p)
  {
    WaitingHasParent(info, rank, laa, v, v1, h, work, cur, g);
    AncestorRank(info, rank, p, laa);
    AncestorRank(info, rank, g, p);
    forall x | Behind(info, rank, laa, x) && Ancestor(info, rank, p, x) ensures ChildAUMs(info, x).Ok? {
      AncestorTransitive(info, rank, g, p, x);
    }
  }

  lemma CannotLookUp(
      info: Info, rank: AUMHash -> nat, laa: AUMHash, v: Verdict, v1: Verdict, h: AUMHash, p: AUMHash,
      work: set<AUMHash>, cur: AUMHash)
    requires WellFounded(info, rank) && Toward(info, rank, laa, v, v1, work, cur)
    requires h in work && !Marked(v1, h) && ParentOf(info, h) == Some(p) && Behind(info, rank, laa, p)
    requires !Lookups(info, rank, laa, p)
    ensures forall g :: !Settles(info, rank, v, laa, g)
  {
    if g :| Settles(info, rank, v, laa, g) {
      BackToward(info, rank, laa, v, v1, h, p, work, cur, g);
    }
  }

  lemma TowardAdjusted(
      info: Info, rank: AUMHash -> nat, laa: AUMHash, v: Verdict, v1: Verdict, v3: Verdict, h: AUMHash, p: AUMHash,
      work: set<AUMHash>, work': set<AUMHash>, cur: AUMHash)
    requires WellFounded(info, rank) && Toward(info, rank, laa, v, v1, work, cur) && work' <= work + {p}
    requires h in work && !Marked(v1, h) && ParentOf(info, h) == Some(p) && Behind(info, rank, laa, p)
    requires Marked(v3, p) && forall x :: Marked(v1, x) ==> Marked(v3, x)
    ensures Toward(info, rank, laa, v, v3, work', p)
  {
    forall g | Settles(info, rank, v, laa, g) ensures TowardOne(info, rank, v3, work', p, g) {
      BackToward(info, rank, laa, v, v1, h, p, work, cur, g);
      assert TowardOne(info, rank, v1, work, cur, g);
    }
  }

  lemma TowardStep(
      info: Info, rank: AUMHash -> nat, laa: AUMHash, v: Verdict, v1: Verdict, v2: Verdict, h: AUMHash, p: AUMHash,
      work: set<AUMHash>, work': set<AUMHash>, cur: AUMHash)
    requires WellFounded(info, rank) && Toward(info, rank, laa, v, v1, work, cur) && work' <= work + {p}
    requires h in work && !Marked(v1, h) && ParentOf(info, h) == Some(p)
    requires p in work' ==> p in work || (p != laa && !At(v, p).candidate)
    requires forall x :: Marked(v1, x) ==> Marked(v2, x)
    ensures Toward(info, rank, laa, v, v2, work', cur)
  {
    forall g | Settles(info, rank, v, laa, g) ensures TowardOne(info, rank, v2, work', cur, g) {
      WaitingHasParent(info, rank, laa, v, v1, h, work, cur, g);
      assert TowardOne(info, rank, v1, work, cur, g);
    }
  }

  lemma TowardLess(
      info: Info, rank: AUMHash -> nat, laa: AUMHash, v: Verdict, v1: Verdict, work: set<AUMHash>, work': set<AUMHash>, cur: AUMHash)
    requires WellFounded(info, rank) && Toward(info, rank, laa, v, v1, work, cur) && work' <= work
    ensures Toward(info, rank, laa, v, v1, work', cur)
  {
    forall g | Settles(info, rank, v, laa, g) ensures TowardOne(info, rank, v1, work', cur, g) {
      assert TowardOne(info, rank, v1, work, cur, g);
    }
  }

  lemma TowardStart(info: Info, rank: AUMHash -> nat, laa: AUMHash, v: Verdict, work: set<AUMHash>)
    requires WellFounded(info, rank) && forall x :: x in work ==> Kept(v, x) && x != laa
    ensures Toward(info, rank, laa, v, v, work, laa)
  {
    forall g | Settles(info, rank, v, laa, g) ensures TowardOne(info, rank, v, work, laa, g) {
    }
  }

  /** Moves the candidate ancestor back to the candidate `p`, the unretained parent of `h`. */
  method Adjust(
      info: Info, ghost rank: AUMHash -> nat, ghost laa: AUMHash, ghost v: Verdict, v1: Verdict, h: AUMHash, p: AUMHash,
      ghost cur: AUMHash, ghost d: AUMHash, ghost work: set<AUMHash>, ghost work': set<AUMHash>, ghost up: set<AUMHash>)
    returns (r: Result<(), CompactError>, v3: Verdict, ghost d': AUMHash)
    requires Setting(info, rank, laa, v, up) && Scanning(info, rank, laa, v, v1, work, cur, up, d)
    requires h in work && !Marked(v1, h) && work - {h} <= work' <= work + {p}
    requires ParentOf(info, h) == Some(p) && !Kept(v1, p) && At(v, p).candidate
    requires Toward(info, rank, laa, v, v1, work, cur)
    ensures r.Ok? ==> Scanning(info, rank, laa, v, v3, work', p, up, d') && Adjusted(info, rank, laa, v1, v3, h, p)
    ensures r.Ok? ==> Toward(info, rank, laa, v, v3, work', p)
    ensures r.Err? ==> forall g :: !Settles(info, rank, v, laa, g)
  {
    ghost var base :| Kept(v, base) && Ancestor(info, rank, h, base);
    d' := AdjustIsForced(info, rank, laa, v, v1, h, work, cur, up, base);
    StillCandidates(info, rank, laa, v, v1, h, p, up);
    r, v3 := MarkForward(info, rank, laa, SetAncestor(v1, h), p);
    assert Behind(info, rank, laa, p);
    if r.Ok? {
      ScanAdjust(info, rank, laa, v, v1, v3, h, p, work, work', cur, up);
      NeverKept(v, v1, p);
      AdjustedMarks(info, rank, laa, v1, v3, h, p);
      TowardAdjusted(info, rank, laa, v, v1, v3, h, p, work, work', cur);
    } else {
      CannotLookUp(info, rank, laa, v, v1, h, p, work, cur);
    }
  }

  lemma NeverKept(v: Verdict, v': Verdict, h: AUMHash)
    requires AncestorMarks(v, v') && !Kept(v', h) && !Marked(v, h)
    ensures !Kept(v, h)
  {
    assert At(v', h) == At(v, h).(ancestor := At(v', h).ancestor);
  }

  lemma AdjustedMarks(
      info: Info, rank: AUMHash -> nat, laa: AUMHash, v1: Verdict, v3: Verdict, h: AUMHash, p: AUMHash)
    requires WellFounded(info, rank) && Adjusted(info, rank, laa, v1, v3, h, p) && Behind(info, rank, laa, p)
    ensures Marked(v3, h) && Marked(v3, p) && forall x :: Marked(v1, x) ==> Marked(v3, x)
  {
  }

  /** Marking an AUM whose parent is already retained or is made to wait. */
  lemma WalkStep(
      info: Info, rank: AUMHash -> nat, laa: AUMHash, v: Verdict, v1: Verdict, h: AUMHash, p: AUMHash,
      work: set<AUMHash>, work': set<AUMHash>, cur: AUMHash, up: set<AUMHash>, d: AUMHash)
    requires Setting(info, rank, laa, v, up) && Scanning(info, rank, laa, v, v1, work, cur, up, d)
    requires Toward(info, rank, laa, v, v1, work, cur)
    requires h in work && !Marked(v1, h) && ParentOf(info, h) == Some(p) && work - {h} <= work'
    requires if Kept(v1, p) then work' <= work else !At(v, p).candidate && p in work' && work' <= work + {p}
    ensures Scanning(info, rank, laa, v, SetAncestor(v1, h), work', cur, up, d)
    ensures Toward(info, rank, laa, v, SetAncestor(v1, h), work', cur)
  {
    ScanStep(info, rank, laa, v, v1, h, p, work, work', cur, up);
    StaysKept(v, v1, laa);
    TowardStep(info, rank, laa, v, v1, SetAncestor(v1, h), h, p, work, work', cur);
  }

  /** Scans one waiting AUM: returns the candidate ancestor and what has to wait next. */
  method ScanOne(
      info: Info, ghost rank: AUMHash -> nat, ghost laa: AUMHash, ghost v: Verdict, v1: Verdict, h: AUMHash,
      cur: AUMHash, ghost d: AUMHash, ghost work: set<AUMHash>, ghost rest: set<AUMHash>, ghost up: set<AUMHash>)
    returns (r: Result<(AUMHash, Option<AUMHash>), CompactError>, v': Verdict, ghost d': AUMHash)
    requires Setting(info, rank, laa, v, up) && Scanning(info, rank, laa, v, v1, work, cur, up, d)
    requires h in work && !Marked(v1, h) && work - {h} <= rest <= work && Toward(info, rank, laa, v, v1, work, cur)
    ensures r.Ok? ==>
      var work' := if r.value.1.Some? then rest + {r.value.1.value} else rest;
      Scanning(info, rank, laa, v, v', work', r.value.0, up, d') && Toward(info, rank, laa, v, v', work', r.value.0)
    ensures r.Err? ==> forall g :: !Settles(info, rank, v, laa, g)
    ensures r.Ok? ==> Marked(v', h) && forall x :: Marked(v1, x) ==> Marked(v', x)
  {
    d' := d;
    v' := SetAncestor(v1, h);
    if !Has(info, h) {
      NotStuck(info, rank, laa, v, v1, h, work, cur);
      return Err(NotStored), v', d';
    }
    var parent := ParentOf(info, h);
    if parent.None? {
      NotStuck(info, rank, laa, v, v1, h, work, cur);
      return Err(GenesisWithoutIntersection), v', d';
    }
    var p := parent.value;
    assert p != h && At(v', p) == At(v1, p) == At(v, p).(ancestor := At(v1, p).ancestor);
    if Kept(v', p) {
      WalkStep(info, rank, laa, v, v1, h, p, work, rest, cur, up, d);
      return Ok((cur, None)), v', d';
    }
    if At(v', p).candidate {
      var done, v3, d3 := Adjust(info, rank, laa, v, v1, h, p, cur, d, work, rest + {p}, up);
      if done.Err? {
        return Err(done.error), v3, d';
      }
      return Ok((p, Some(p))), v3, d3;
    }
    WalkStep(info, rank, laa, v, v1, h, p, work, rest + {p}, cur, up, d);
    return Ok((cur, Some(p))), v', d';
  }

  lemma StillCandidates(
      info: Info, rank: AUMHash -> nat, laa: AUMHash, v: Verdict, v1: Verdict, h: AUMHash, p: AUMHash, up: set<AUMHash>)
    requires Setting(info, rank, laa, v, up) && AncestorMarks(v, v1) && At(v, p).candidate
    ensures forall x :: Candidate(SetAncestor(v1, h), x) <==> Behind(info, rank, laa, x)
  {
    var v2 := SetAncestor(v1, h);
    forall x ensures Candidate(v2, x) <==> Behind(info, rank, laa, x) {
      assert At(v1, x) == At(v, x).(ancestor := At(v1, x).ancestor);
      assert At(v2, x) == At(v, x).(ancestor := At(v2, x).ancestor);
    }
  }

  lemma MoreMarks(v: Verdict, v': Verdict, h: AUMHash)
    requires !Marked(v, h) && Marked(v', h) && forall x :: Marked(v, x) ==> Marked(v', x)
    ensures MarkedSet(v) < MarkedSet(v')
  {
    forall x | x in MarkedSet(v) ensures x in MarkedSet(v') {
      assert Marked(v, x);
    }
    assert h in MarkedSet(v') && h !in MarkedSet(v);
  }

  /** Takes the next AUM of the worklist, unless it is marked already. */
  method ScanNext(
      info: Info, ghost rank: AUMHash -> nat, ghost laa: AUMHash, ghost v: Verdict, v1: Verdict,
      toScan: seq<AUMHash>, i: nat, next: seq<AUMHash>, cur: AUMHash, ghost d: AUMHash, ghost up: set<AUMHash>)
    returns (r: Result<(AUMHash, seq<AUMHash>), CompactError>, v': Verdict, ghost d': AUMHash)
    requires Setting(info, rank, laa, v, up) && i < |toScan|
    requires Scanning(info, rank, laa, v, v1, Pending(toScan, i, next), cur, up, d)
    requires Toward(info, rank, laa, v, v1, Pending(toScan, i, next), cur)
    ensures r.Ok? ==> Scanning(info, rank, laa, v, v', Pending(toScan, i + 1, r.value.1), r.value.0, up, d')
    ensures r.Ok? ==> Toward(info, rank, laa, v, v', Pending(toScan, i + 1, r.value.1), r.value.0)
    ensures r.Err? ==> forall g :: !Settles(info, rank, v, laa, g)
    ensures r.Ok? ==> (MarkedSet(v1) < MarkedSet(v')) || (v' == v1 && r.value.1 == next)
  {
    var h := toScan[i];
    ghost var work, rest := Pending(toScan, i, next), Pending(toScan, i + 1, next);
    PendingNext(toScan, i, next, []);
    if Marked(v1, h) {
      ScanSkip(info, rank, laa, v, v1, h, work, rest, cur, up);
      TowardLess(info, rank, laa, v, v1, work, rest, cur);
      return Ok((cur, next)), v1, d;
    }
    var one, v2, d2 := ScanOne(info, rank, laa, v, v1, h, cur, d, work, rest, up);
    if one.Err? {
      return Err(one.error), v2, d2;
    }
    MoreMarks(v1, v2, h);
    if one.value.1.None? {
      return Ok((one.value.0, next)), v2, d2;
    }
    var p := one.value.1.value;
    PendingWith(toScan, i, next, p);
    return Ok((one.value.0, next + [p])), v2, d2;
  }

  lemma PendingWith(toScan: seq<AUMHash>, i: nat, next: seq<AUMHash>, p: AUMHash)
    requires i < |toScan|
    ensures Pending(toScan, i + 1, next + [p]) == Pending(toScan, i + 1, next) + {p}
  {
    PendingNext(toScan, i, next, [p]);
  }

  /** One round: scans a worklist in order and collects the next one. */
  method ScanRound(
      info: Info, ghost rank: AUMHash -> nat, ghost laa: AUMHash, ghost v: Verdict, v0: Verdict, toScan: seq<AUMHash>,
      cur0: AUMHash, ghost d0: AUMHash, ghost up: set<AUMHash>)
    returns (r: Result<(AUMHash, seq<AUMHash>), CompactError>, v': Verdict, ghost d: AUMHash)
    requires Setting(info, rank, laa, v, up) && Scanning(info, rank, laa, v, v0, Elems(toScan), cur0, up, d0)
    requires Toward(info, rank, laa, v, v0, Elems(toScan), cur0)
    ensures r.Ok? ==> Scanning(info, rank, laa, v, v', Elems(r.value.1), r.value.0, up, d)
    ensures r.Ok? ==> Toward(info, rank, laa, v, v', Elems(r.value.1), r.value.0)
    ensures r.Err? ==> forall g :: !Settles(info, rank, v, laa, g)
    ensures r.Ok? ==> MarkedSet(v0) < MarkedSet(v') || (v' == v0 && r.value.1 == [])
  {
    v', d := v0, d0;
    var cur := cur0;
    var nextIterScan: seq<AUMHash> := [];
    assert Pending(toScan, 0, []) == Elems(toScan);
    for i := 0 to |toScan|
      invariant Scanning(info, rank, laa, v, v', Pending(toScan, i, nextIterScan), cur, up, d)
      invariant Toward(info, rank, laa, v, v', Pending(toScan, i, nextIterScan), cur)
      invariant MarkedSet(v0) < MarkedSet(v') || (v' == v0 && nextIterScan == [])
    {
      var one, v1, d1 := ScanNext(info, rank, laa, v, v', toScan, i, nextIterScan, cur, d, up);
      if one.Err? {
        return Err(one.error), v1, d1;
      }
      v', d, cur, nextIterScan := v1, d1, one.value.0, one.value.1;
    }
    assert Pending(toScan, |toScan|, nextIterScan) == Elems(nextIterScan);
    return Ok((cur, nextIterScan)), v', d;
  }

  /** Scans round after round until nothing waits. */
  method ScanAncestors(
      info: Info, ghost rank: AUMHash -> nat, laa: AUMHash, v: Verdict, start: seq<AUMHash>, ghost up: set<AUMHash>)
    returns (r: Result<AUMHash, CompactError>, v': Verdict, ghost d: AUMHash)
    requires Setting(info, rank, laa, v, up) && AncestorScan(info, rank, laa, v, v, Elems(start), laa, up)
    requires Toward(info, rank, laa, v, v, Elems(start), laa)
    ensures r.Ok? ==> Scanning(info, rank, laa, v, v', {}, r.value, up, d)
    ensures r.Ok? ==> Toward(info, rank, laa, v, v', {}, r.value)
    ensures r.Err? ==> forall g :: !Settles(info, rank, v, laa, g)
  {
    v', d := v, laa;
    var cur := laa;
    var toScan := start;
    while toScan != []
      invariant Scanning(info, rank, laa, v, v', Elems(toScan), cur, up, d)
      invariant Toward(info, rank, laa, v, v', Elems(toScan), cur)
      decreases up - MarkedSet(v'), |toScan|
    {
      var round, v1, d1 := ScanRound(info, rank, laa, v, v', toScan, cur, d, up);
      if round.Err? {
        return Err(round.error), v1, d1;
      }
      MarksWithin(v1, up);
      v', d, cur, toScan := v1, d1, round.value.0, round.value.1;
    }
    assert Elems(toScan) == {};
    return Ok(cur), v', d;
  }

  lemma MarksWithin(v: Verdict, up: set<AUMHash>)
    requires forall x :: Marked(v, x) ==> x in up
    ensures MarkedSet(v) <= up
  {
    forall x | x in MarkedSet(v) ensures x in up {
      assert Marked(v, x);
    }
  }

  // ----- The whole pass -----

  /** No newer checkpoint of the active chain than `laa` is a proper ancestor of `d`. */
  ghost predicate NewestFor(info: Info, rank: AUMHash -> nat, laa0: AUMHash, laa: AUMHash, d: AUMHash)
    requires WellFounded(info, rank)
  {
    && d != laa && Ancestor(info, rank, laa, d)
    && forall x :: x != laa && Between(info, rank, laa, x, laa0) && IsCheckpoint(info, x) && Ancestor(info, rank, x, d)
         ==> x == d
  }

  /** The outcome: every retained AUM but `laa` has its parent retained, nothing is retained
      that is not an ancestor of what was retained before, and `laa` moved only as far back
      as some retained AUM required. */
  ghost predicate Connected(
      info: Info, rank: AUMHash -> nat, laa0: AUMHash, v: Verdict, v': Verdict, laa: AUMHash)
    requires WellFounded(info, rank)
  {
    && Has(info, laa) && Kept(v', laa) && Ancestor(info, rank, laa, laa0)
    && v.Keys <= v'.Keys && (forall x :: x in v' ==> x in v || Kept(v', x))
    && (forall x :: Kept(v', x) && x != laa ==> HasParentIn(info, v', {}, x))
    && (forall x :: Kept(v, x) ==> Kept(v', x))
    && (forall x :: Kept(v', x) ==> LeadsTo(info, rank, v, x))
    && (laa != laa0 ==> IsCheckpoint(info, laa) && exists d :: Kept(v, d) && NewestFor(info, rank, laa0, laa, d))
  }

  lemma ScannedParents(
      info: Info, rank: AUMHash -> nat, laa: AUMHash, v: Verdict, v1: Verdict, cur: AUMHash, up: set<AUMHash>, x: AUMHash)
    requires Setting(info, rank, laa, v, up) && AncestorScan(info, rank, laa, v, v1, {}, cur, up)
    requires Kept(v1, x) && x != cur
    ensures HasParentIn(info, v1, {}, x)
  {
    assert At(v1, x) == At(v, x).(ancestor := At(v1, x).ancestor);
    if !Marked(v1, x) {
      assert x == laa;
      ParentStaysBehind(info, rank, laa, cur, laa);
    }
  }

  lemma ScannedLeads(
      info: Info, rank: AUMHash -> nat, laa: AUMHash, v: Verdict, v1: Verdict, cur: AUMHash, up: set<AUMHash>, x: AUMHash)
    requires Setting(info, rank, laa, v, up) && AncestorScan(info, rank, laa, v, v1, {}, cur, up)
    requires Kept(v1, x)
    ensures LeadsTo(info, rank, v, x)
  {
    assert At(v1, x) == At(v, x).(ancestor := At(v1, x).ancestor);
    if !Marked(v1, x) {
      assert Kept(v, x) && Ancestor(info, rank, x, x);
    }
  }

  lemma Unmoved(
      info: Info, rank: AUMHash -> nat, laa: AUMHash, v: Verdict, v1: Verdict, up: set<AUMHash>)
    requires Setting(info, rank, laa, v, up) && AncestorScan(info, rank, laa, v, v1, {}, laa, up)
    ensures Connected(info, rank, laa, v, v1, laa)
  {
    forall x | Kept(v, x) ensures Kept(v1, x) {
      StaysKept(v, v1, x);
    }
    forall x | Kept(v1, x) ensures LeadsTo(info, rank, v, x) && (x != laa ==> HasParentIn(info, v1, {}, x)) {
      ScannedLeads(info, rank, laa, v, v1, laa, up, x);
      if x != laa {
        ScannedParents(info, rank, laa, v, v1, laa, up, x);
      }
    }
  }

  lemma MovedParent(
      info: Info, rank: AUMHash -> nat, laa0: AUMHash, v: Verdict, v1: Verdict, cur: AUMHash, up: set<AUMHash>,
      laa: AUMHash, v': Verdict, x: AUMHash)
    requires Setting(info, rank, laa0, v, up) && AncestorScan(info, rank, laa0, v, v1, {}, cur, up)
    requires Has(info, cur) && ToCheckpoint(info, rank, v1, cur) == (Ok(laa), v')
    ensures Kept(v, x) ==> Kept(v', x)
    ensures Kept(v', x) ==> LeadsTo(info, rank, v, x)
    ensures Kept(v', x) && x != laa ==> HasParentIn(info, v', {}, x)
    ensures x in v ==> x in v'
    ensures x in v' ==> x in v || Kept(v', x)
  {
    ToCheckpointMarks(info, rank, v1, cur, x);
    if Kept(v, x) {
      StaysKept(v, v1, x);
    }
    if Between(info, rank, laa, x, cur) {
      AncestorTransitive(info, rank, x, cur, laa0);
      assert x in up;
      if x != laa {
        var p := ParentOf(info, x).value;
        AncestorParent(info, rank, x, cur);
        ToCheckpointMarks(info, rank, v1, cur, p);
      }
    } else if Kept(v1, x) {
      assert x != cur;
      ScannedParents(info, rank, laa0, v, v1, cur, up, x);
      ScannedLeads(info, rank, laa0, v, v1, cur, up, x);
      ToCheckpointMarks(info, rank, v1, cur, ParentOf(info, x).value);
    }
  }

  lemma MovedNewest(
      info: Info, rank: AUMHash -> nat, laa0: AUMHash, v: Verdict, v1: Verdict, cur: AUMHash, d: AUMHash,
      laa: AUMHash, v': Verdict)
    requires WellFounded(info, rank) && Has(info, cur) && Ancestor(info, rank, cur, laa0)
    requires Forces(info, rank, laa0, v, cur, d) && ToCheckpoint(info, rank, v1, cur) == (Ok(laa), v')
    ensures NewestFor(info, rank, laa0, laa, d)
    ensures IsCheckpoint(info, laa) && Ancestor(info, rank, laa, laa0) && Kept(v', laa)
  {
    ToCheckpointMarks(info, rank, v1, cur, laa);
    AncestorTransitive(info, rank, laa, cur, d);
    AncestorTransitive(info, rank, laa, cur, laa0);
    AncestorRank(info, rank, laa, cur);
    AncestorRank(info, rank, cur, d);
    forall x | x != laa && Between(info, rank, laa, x, laa0) && IsCheckpoint(info, x) && Ancestor(info, rank, x, d)
      ensures x == d
    {
      AncestorLinear(info, rank, x, cur, laa0);
      ToCheckpointMarks(info, rank, v1, cur, x);
    }
  }

  lemma Moved(
      info: Info, rank: AUMHash -> nat, laa0: AUMHash, v: Verdict, v1: Verdict, cur: AUMHash, up: set<AUMHash>, d: AUMHash,
      laa: AUMHash, v': Verdict)
    requires Setting(info, rank, laa0, v, up) && Scanning(info, rank, laa0, v, v1, {}, cur, up, d) && cur != laa0
    requires Has(info, cur) && ToCheckpoint(info, rank, v1, cur) == (Ok(laa), v')
    ensures Connected(info, rank, laa0, v, v', laa)
  {
    MovedNewest(info, rank, laa0, v, v1, cur, d, laa, v');
    forall x | Kept(v, x) ensures Kept(v', x) {
      MovedParent(info, rank, laa0, v, v1, cur, up, laa, v', x);
    }
    forall x ensures (x in v ==> x in v') && (x in v' ==> x in v || Kept(v', x)) {
      MovedParent(info, rank, laa0, v, v1, cur, up, laa, v', x);
    }
    forall x | Kept(v', x) ensures LeadsTo(info, rank, v, x) {
      MovedParent(info, rank, laa0, v, v1, cur, up, laa, v', x);
    }
    forall x | Kept(v', x) && x != laa ensures HasParentIn(info, v', {}, x) {
      MovedParent(info, rank, laa0, v, v1, cur, up, laa, v', x);
    }
  }

  /** The retained hashes other than `laa`, in some order. */
  method KeptExcept(v: Verdict, laa: AUMHash) returns (toScan: seq<AUMHash>)
    ensures forall x :: x in Elems(toScan) <==> Kept(v, x) && x != laa
  {
    var kept := KeptHashes(v);
    toScan := [];
    for i := 0 to |kept|
      invariant forall x :: x in toScan <==> x in kept[..i] && x != laa
    {
      assert kept[..i + 1] == kept[..i] + [kept[i]];
      if kept[i] != laa {
        toScan := toScan + [kept[i]];
      }
    }
    assert kept[..|kept|] == kept;
  }

  /** Connects every retained AUM to the candidate ancestor, moving it back where needed. */
  method MarkAncestorIntersectionAUMs(info: Info, ghost rank: AUMHash -> nat, v: Verdict, candidateAncestor: AUMHash)
    returns (r: Result<AUMHash, CompactError>, v': Verdict)
    requires WellFounded(info, rank) && Prepared(info, rank, candidateAncestor, v)
    ensures r.Ok? ==> Connected(info, rank, candidateAncestor, v, v', r.value)
    ensures r.Ok? <==> exists c :: Settles(info, rank, v, candidateAncestor, c)
  {
    var toScan := KeptExcept(v, candidateAncestor);
    ghost var up := Up(info, rank, v);
    UpClosed(info, rank, v, candidateAncestor);
    StartScan(info, rank, candidateAncestor, v, Elems(toScan), up);
    TowardStart(info, rank, candidateAncestor, v, Elems(toScan));
    var scanned, v1, d := ScanAncestors(info, rank, candidateAncestor, v, toScan, up);
    if scanned.Err? {
      return Err(scanned.error), v1;
    }
    v' := v1;
    var cur := scanned.value;
    if cur == candidateAncestor {
      Unmoved(info, rank, candidateAncestor, v, v1, up);
      ScanMeets(info, rank, candidateAncestor, v, v1, cur, up, d);
      assert Settles(info, rank, v, candidateAncestor, cur);
      return Ok(cur), v';
    }
    if !Has(info, cur) {
      MustBeStored(info, rank, candidateAncestor, v, v1, cur);
      return Err(NotStored), v';
    }
    var laa, v2 := MarkToCheckpoint(info, rank, v1, cur);
    v' := v2;
    if laa.Err? {
      MustHaveCheckpoint(info, rank, candidateAncestor, v, v1, cur);
      return laa, v';
    }
    SettledOn(info, rank, candidateAncestor, v, v1, cur, up, d, laa.value);
    Moved(info, rank, candidateAncestor, v, v1, cur, up, d, laa.value, v');
    return laa, v';
  }

  /** After the scan every retained AUM leads back to the candidate ancestor. */
  lemma {:induction false} ScannedReaches(
      info: Info, rank: AUMHash -> nat, laa: AUMHash, v: Verdict, v1: Verdict, cur: AUMHash, up: set<AUMHash>, x: AUMHash)
    requires Setting(info, rank, laa, v, up) && AncestorScan(info, rank, laa, v, v1, {}, cur, up)
    requires Kept(v1, x)
    ensures Ancestor(info, rank, cur, x)
    decreases rank(x)
  {
    if x != cur {
      ScannedParents(info, rank, laa, v, v1, cur, up, x);
      ScannedReaches(info, rank, laa, v, v1, cur, up, ParentOf(info, x).value);
    }
  }

  lemma ScanMeets(
      info: Info, rank: AUMHash -> nat, laa: AUMHash, v: Verdict, v1: Verdict, cur: AUMHash, up: set<AUMHash>, d: AUMHash)
    requires Setting(info, rank, laa, v, up) && Scanning(info, rank, laa, v, v1, {}, cur, up, d)
    ensures Meets(info, rank, v, laa, cur)
  {
    forall x | Kept(v, x) && x != laa ensures x != cur && Ancestor(info, rank, cur, x) {
      StaysKept(v, v1, x);
      ScannedReaches(info, rank, laa, v, v1, cur, up, x);
    }
  }

  lemma SettledOn(
      info: Info, rank: AUMHash -> nat, laa: AUMHash, v: Verdict, v1: Verdict, cur: AUMHash, up: set<AUMHash>, d: AUMHash, k: AUMHash)
    requires Setting(info, rank, laa, v, up) && Scanning(info, rank, laa, v, v1, {}, cur, up, d) && cur != laa
    requires Has(info, cur) && ToCheckpoint(info, rank, v1, cur).0 == Ok(k)
    ensures Settles(info, rank, v, laa, cur)
  {
    ScanMeets(info, rank, laa, v, v1, cur, up, d);
    ToCheckpointMarks(info, rank, v1, cur, cur);
  }

  lemma MustBeStored(
      info: Info, rank: AUMHash -> nat, laa: AUMHash, v: Verdict, v1: Verdict, cur: AUMHash)
    requires WellFounded(info, rank) && Toward(info, rank, laa, v, v1, {}, cur) && !Has(info, cur)
    ensures forall g :: !Settles(info, rank, v, laa, g)
  {
    if g :| Settles(info, rank, v, laa, g) {
      assert TowardOne(info, rank, v1, {}, cur, g);
      AncestorStored(info, rank, g, cur);
    }
  }

  lemma MustHaveCheckpoint(
      info: Info, rank: AUMHash -> nat, laa: AUMHash, v: Verdict, v1: Verdict, cur: AUMHash)
    requires WellFounded(info, rank) && Toward(info, rank, laa, v, v1, {}, cur)
    requires Has(info, cur) && Behind(info, rank, laa, cur) && ToCheckpoint(info, rank, v1, cur).0.Err?
    ensures forall g :: !Settles(info, rank, v, laa, g)
  {
    if g :| Settles(info, rank, v, laa, g) {
      assert TowardOne(info, rank, v1, {}, cur, g);
      AncestorRank(info, rank, cur, laa);
      AncestorRank(info, rank, g, cur);
      var k :| IsCheckpoint(info, k) && Ancestor(info, rank, k, g);
      AncestorTransitive(info, rank, k, g, cur);
      ToCheckpointMarks(info, rank, v1, cur, k);
    }
  }

  lemma StartScan(
      info: Info, rank: AUMHash -> nat, laa: AUMHash, v: Verdict, work: set<AUMHash>, up: set<AUMHash>)
    requires Setting(info, rank, laa, v, up)
    requires forall x :: x in work <==> Kept(v, x) && x != laa
    requires forall x :: Kept(v, x) ==> x in up
    ensures AncestorScan(info, rank, laa, v, v, work, laa, up)
  {
    forall x | Behind(info, rank, laa, x) ensures !Ancestor(info, rank, laa, x) {
      AncestorRank(info, rank, x, laa);
      if Ancestor(info, rank, laa, x) {
        AncestorRank(info, rank, laa, x);
      }
    }
  }
}
