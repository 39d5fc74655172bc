/** Two small stores: one that can be compacted only once, and one where a state that could be
    computed before compaction cannot be computed after it. */
module TkaExamples {
  import opened Wrappers
  import opened TkaTypes
  import opened TkaState
  import opened TkaStore
  import opened TkaMark
  import opened TkaIntersect
  import opened TkaCompact
  import opened TkaMeaning
  import opened TkaCompute
  import opened TkaAfter

  function Blank(kind: AUMKind, prev: Option<AUMHash>): AUM {
    AUM(kind, if prev.Some? then Some(prev.value.bytes) else None, None, None, None, None, None, [])
  }

  function CheckpointOf(st: State, prev: Option<AUMHash>): AUM {
    Blank(Checkpoint, prev).(state := Some(st))
  }

  function Filed(a: AUM, children: seq<AUMHash>, created: int): HashInfo {
    HashInfo(children, Some(a), created, false)
  }

  /** `up` lists the ancestors of every hash. */
  ghost predicate ListsAncestors(info: Info, up: AUMHash -> set<AUMHash>) {
    forall h :: up(h) == {h} + if ParentOf(info, h).Some? then up(ParentOf(info, h).value) else {}
  }

  lemma {:induction false} AncestorsListed(info: Info, rank: AUMHash -> nat, up: AUMHash -> set<AUMHash>, x: AUMHash, h: AUMHash)
    requires WellFounded(info, rank) && ListsAncestors(info, up)
    ensures Ancestor(info, rank, x, h) <==> x in up(h)
    decreases rank(h)
  {
    if ParentOf(info, h).Some? {
      AncestorsListed(info, rank, up, x, ParentOf(info, h).value);
    }
  }

  lemma AllAncestorsListed(info: Info, rank: AUMHash -> nat, up: AUMHash -> set<AUMHash>)
    requires WellFounded(info, rank) && ListsAncestors(info, up)
    ensures forall x, h {:trigger Ancestor(info, rank, x, h)} :: Ancestor(info, rank, x, h) <==> x in up(h)
  {
    forall x, h {:trigger Ancestor(info, rank, x, h)} ensures Ancestor(info, rank, x, h) <==> x in up(h) {
      AncestorsListed(info, rank, up, x, h);
    }
  }

  // ----- A line of three -----

  /** Two checkpoints and a head, in a line. */
  datatype Line = Line(c0: AUM, c1: AUM, a2: AUM, h0: AUMHash, h1: AUMHash, h2: AUMHash)

  function LineOf(hash: HashFn, st: State): Line {
    var c0 := CheckpointOf(st, None);
    var c1 := CheckpointOf(st, Some(hash(c0)));
    var a2 := Blank(NoOp, Some(hash(c1)));
    Line(c0, c1, a2, hash(c0), hash(c1), hash(a2))
  }

  function LineStore(l: Line): Info {
    map[l.h0 := Filed(l.c0, [l.h1], 0), l.h1 := Filed(l.c1, [l.h2], 0), l.h2 := Filed(l.a2, [], 0)]
  }

  /** The store without its oldest AUM. */
  function CutStore(l: Line): Info {
    map[l.h0 := Filed(l.c0, [l.h1], 0).(purged := true), l.h1 := Filed(l.c1, [l.h2], 0), l.h2 := Filed(l.a2, [], 0)]
  }

  function LineRank(l: Line): AUMHash -> nat {
    (h: AUMHash) => if h == l.h0 then 0 else if h == l.h1 then 1 else 2
  }

  /** The hashes are those of the AUMs, which are linked, and differ. */
  ghost predicate IsLine(hash: HashFn, l: Line) {
    && hash(l.c0) == l.h0 && hash(l.c1) == l.h1 && hash(l.a2) == l.h2
    && l.h0 != l.h1 && l.h1 != l.h2 && l.h0 != l.h2
    && Parent(l.c0) == None && Parent(l.c1) == Some(l.h0) && Parent(l.a2) == Some(l.h1)
    && l.c0.kind == Checkpoint && l.c1.kind == Checkpoint && l.a2.kind == NoOp
  }

  lemma LineIsLine(hash: HashFn, st: State)
    requires var l := LineOf(hash, st); l.h0 != l.h1 && l.h1 != l.h2 && l.h0 != l.h2
    ensures IsLine(hash, LineOf(hash, st))
  {
  }

  lemma LineLinks(hash: HashFn, l: Line)
    requires IsLine(hash, l)
    ensures WellFounded(LineStore(l), LineRank(l)) && Coherent(hash, LineStore(l))
  {
    var info := LineStore(l);
    forall p, c ensures c in Kids(info, p) <==> ChildLink(info, p, c) {
    }
  }

  function LineUp(l: Line): AUMHash -> set<AUMHash> {
    (h: AUMHash) => if h == l.h1 then {l.h0, l.h1} else if h == l.h2 then {l.h0, l.h1, l.h2} else {h}
  }

  lemma LineAncestors(hash: HashFn, l: Line)
    requires IsLine(hash, l)
    ensures var info, rank := LineStore(l), LineRank(l);
      && WellFounded(info, rank) && Coherent(hash, info)
      && forall x, h {:trigger Ancestor(info, rank, x, h)} :: Ancestor(info, rank, x, h) <==> x in LineUp(l)(h)
  {
    LineLinks(hash, l);
    AllAncestorsListed(LineStore(l), LineRank(l), LineUp(l));
  }

  lemma LineBase(hash: HashFn, l: Line)
    requires IsLine(hash, l)
    ensures WellFounded(LineStore(l), LineRank(l))
    ensures Base(LineStore(l), LineRank(l), l.h2, l.h1, 0) == {l.h1, l.h2}
  {
    LineAncestors(hash, l);
    var info, rank := LineStore(l), LineRank(l);
    assert Root(info, rank, l.h2, l.h1, 0, l.h1) && Root(info, rank, l.h2, l.h1, 0, l.h2);
    forall k | Root(info, rank, l.h2, l.h1, 0, k) ensures k == l.h1 || k == l.h2 {
    }
    forall h ensures h in Base(info, rank, l.h2, l.h1, 0) <==> h == l.h1 || h == l.h2 {
    }
  }

  /** Keeping one ancestor, the line can be compacted, and then not again. */
  lemma CompactsOnce(hash: HashFn, st: State)
    requires var l := LineOf(hash, st); l.h0 != l.h1 && l.h1 != l.h2 && l.h0 != l.h2
    ensures var l := LineOf(hash, st);
      var info, info', rank := LineStore(l), CutStore(l), LineRank(l);
      && Coherent(hash, info) && WellFounded(info, rank) && CanCompactFrom(info, rank, l.h2, 1, 0, l.h1)
      && Compacted(info, rank, Base(info, rank, l.h2, l.h1, 0), l.h1, info', l.h1)
      && WellFounded(info', rank) && forall minTime :: !CanCompact(info', rank, l.h2, 1, minTime)
  {
    LineIsLine(hash, st);
    var l := LineOf(hash, st);
    var info, info', rank := LineStore(l), CutStore(l), LineRank(l);
    LineLinks(hash, l);
    LineCanCompact(hash, l);
    LineCompacted(hash, l);
    LineNotEnd(hash, l);
    NotAgain(hash, info, rank, 1, l.h2, 0, l.h1, info', l.h1);
  }

  lemma LineNotEnd(hash: HashFn, l: Line)
    requires IsLine(hash, l)
    ensures !EndsAt(LineStore(l), l.h1)
  {
    assert ParentOf(LineStore(l), l.h1) == Some(l.h0) && Has(LineStore(l), l.h0);
  }

  /** The same head, whatever counts as young then. */
  lemma NotAgain(
      hash: HashFn, info: Info, rank: AUMHash -> nat, minChain: int, head: AUMHash, minTime: int, laa0: AUMHash, info': Info, laa: AUMHash)
    requires WellFounded(info, rank) && CanCompactFrom(info, rank, head, minChain, minTime, laa0)
    requires Compacted(info, rank, Base(info, rank, head, laa0, minTime), laa0, info', laa) && !EndsAt(info, laa)
    ensures WellFounded(info', rank) && forall t :: !CanCompact(info', rank, head, minChain, t)
  {
    CannotCompactAgain(hash, info, rank, minChain, head, minTime, laa0, info', laa, []);
    assert CommitEach(hash, info', []) == info';
    assert Ancestor(info', rank, head, head);
  }

  /** Committing the purged AUM again undoes the purge, and the line can be compacted again. */
  lemma RecommitRestores(hash: HashFn, st: State, now: int)
    requires var l := LineOf(hash, st); l.h0 != l.h1 && l.h1 != l.h2 && l.h0 != l.h2
    ensures var l := LineOf(hash, st);
      var again, rank := CommitOne(hash, CutStore(l), l.c0, now), LineRank(l);
      && again == LineStore(l) && WellFounded(again, rank) && CanCompact(again, rank, l.h2, 1, 0)
  {
    LineIsLine(hash, st);
    var l := LineOf(hash, st);
    assert CommitOne(hash, CutStore(l), l.c0, now) == LineStore(l);
    LineCanCompact(hash, l);
  }

  lemma LineEnd(hash: HashFn, l: Line)
    requires IsLine(hash, l)
    ensures WellFounded(LineStore(l), LineRank(l)) && ActiveEnd(LineStore(l), LineRank(l), 1, l.h2, l.h1)
    ensures Distance(LineStore(l), LineRank(l), l.h2, l.h1) == 1
  {
    LineAncestors(hash, l);
    var info, rank := LineStore(l), LineRank(l);
    assert ParentOf(info, l.h2) == Some(l.h1);
    assert Distance(info, rank, l.h2, l.h1) == 1 + Distance(info, rank, l.h1, l.h1);
    assert Distance(info, rank, l.h2, l.h2) == 0;
  }

  lemma LineCanCompact(hash: HashFn, l: Line)
    requires IsLine(hash, l)
    ensures WellFounded(LineStore(l), LineRank(l)) && CanCompactFrom(LineStore(l), LineRank(l), l.h2, 1, 0, l.h1)
  {
    LineAncestors(hash, l);
    LineBase(hash, l);
    LineEnd(hash, l);
    var info, rank := LineStore(l), LineRank(l);
    assert ChildAUMs(info, l.h1).Ok? && ChildAUMs(info, l.h2).Ok?;
    assert TimesKnown(info, rank, l.h1, 0);
    assert IsLong(info, rank, 1, l.h2, l.h1);
    assert MeetsAt(info, rank, {l.h1, l.h2}, l.h1, true, l.h1);
  }

  lemma LineLeaves(hash: HashFn, l: Line)
    requires IsLine(hash, l)
    ensures WellFounded(LineStore(l), LineRank(l))
    ensures Leaves(LineStore(l), LineRank(l), {l.h1, l.h2}, CutStore(l), l.h1)
  {
    LineAncestors(hash, l);
    var info, rank := LineStore(l), LineRank(l);
    forall h ensures OnKeptChain(info, rank, {l.h1, l.h2}, l.h1, h) <==> h == l.h1 || h == l.h2 {
      assert Between(info, rank, l.h1, l.h1, l.h1) && Between(info, rank, l.h1, l.h2, l.h2);
    }
  }

  lemma LineCompacted(hash: HashFn, l: Line)
    requires IsLine(hash, l)
    ensures WellFounded(LineStore(l), LineRank(l))
    ensures Compacted(LineStore(l), LineRank(l), Base(LineStore(l), LineRank(l), l.h2, l.h1, 0), l.h1, CutStore(l), l.h1)
  {
    LineAncestors(hash, l);
    LineBase(hash, l);
    LineLeaves(hash, l);
  }

  // ----- A fork in three -----

  /** A checkpoint, an AUM after it, and three AUMs after that: a checkpoint with the head after
      it, a young fork `f` and an old fork `g`. */
  datatype Fork = Fork(
    c0: AUM, a1: AUM, c3: AUM, a4: AUM, f: AUM, g: AUM,
    h0: AUMHash, h1: AUMHash, h3: AUMHash, h4: AUMHash, hf: AUMHash, hg: AUMHash)

  function ForkOf(hash: HashFn, st: State): Fork {
    var c0 := CheckpointOf(st, None);
    var a1 := Blank(NoOp, Some(hash(c0)));
    var c3 := CheckpointOf(st, Some(hash(a1)));
    var a4 := Blank(NoOp, Some(hash(c3)));
    var f := Blank(NoOp, Some(hash(a1)));
    var g := Blank(NoOp, Some(hash(a1))).(votes := Some(1));
    Fork(c0, a1, c3, a4, f, g, hash(c0), hash(a1), hash(c3), hash(a4), hash(f), hash(g))
  }

  predicate ForkDistinct(k: Fork) {
    Distinct([k.h0, k.h1, k.h3, k.h4, k.hf, k.hg])
  }

  function ForkStore(k: Fork): Info {
    map[k.h0 := Filed(k.c0, [k.h1], 0), k.h1 := Filed(k.a1, [k.h3, k.hf, k.hg], 0), k.h3 := Filed(k.c3, [k.h4], 0),
        k.h4 := Filed(k.a4, [], 0), k.hf := Filed(k.f, [], 1), k.hg := Filed(k.g, [], 0)]
  }

  /** The store without the old fork. */
  function PrunedStore(k: Fork): Info {
    ForkStore(k)[k.hg := Filed(k.g, [], 0).(purged := true)]
  }

  function ForkRank(k: Fork): AUMHash -> nat {
    (h: AUMHash) => if h == k.h0 then 0 else if h == k.h1 then 1 else if h == k.h4 then 3 else 2
  }

  function ForkUp(k: Fork): AUMHash -> set<AUMHash> {
    (h: AUMHash) =>
      if h == k.h1 then {k.h0, k.h1}
      else if h == k.h3 || h == k.hf || h == k.hg then {k.h0, k.h1, h}
      else if h == k.h4 then {k.h0, k.h1, k.h3, k.h4}
      else {h}
  }

  ghost predicate IsFork(hash: HashFn, k: Fork) {
    && hash(k.c0) == k.h0 && hash(k.a1) == k.h1 && hash(k.c3) == k.h3 && hash(k.a4) == k.h4
    && hash(k.f) == k.hf && hash(k.g) == k.hg && ForkDistinct(k)
    && Parent(k.c0) == None && Parent(k.a1) == Some(k.h0) && Parent(k.c3) == Some(k.h1) && Parent(k.a4) == Some(k.h3)
    && Parent(k.f) == Some(k.h1) && Parent(k.g) == Some(k.h1)
    && k.c0.kind == Checkpoint && k.c3.kind == Checkpoint
    && k.a1.kind == NoOp && k.a4.kind == NoOp && k.f.kind == NoOp && k.g.kind == NoOp
  }

  lemma ForkIsFork(hash: HashFn, st: State)
    requires ForkDistinct(ForkOf(hash, st))
    ensures IsFork(hash, ForkOf(hash, st))
  {
  }

  lemma ForkDiffer(k: Fork)
    requires ForkDistinct(k)
    ensures k.h0 !in {k.h1, k.h3, k.h4, k.hf, k.hg} && k.h1 !in {k.h3, k.h4, k.hf, k.hg}
    ensures k.h3 !in {k.h4, k.hf, k.hg} && k.h4 !in {k.hf, k.hg} && k.hf != k.hg
  {
    var l := [k.h0, k.h1, k.h3, k.h4, k.hf, k.hg];
    assert l[0] == k.h0 && l[1] == k.h1 && l[2] == k.h3 && l[3] == k.h4 && l[4] == k.hf && l[5] == k.hg;
  }

  lemma ForkParents(hash: HashFn, k: Fork)
    requires IsFork(hash, k)
    ensures var info := ForkStore(k);
      forall h {:trigger ParentOf(info, h)} :: ParentOf(info, h) ==
        if h == k.h1 then Some(k.h0) else if h == k.h3 || h == k.hf || h == k.hg then Some(k.h1)
        else if h == k.h4 then Some(k.h3) else None
  {
    ForkDiffer(k);
  }

  /** `x` is `h` or comes before it. */
  predicate Precedes(k: Fork, x: AUMHash, h: AUMHash) {
    || x == h
    || (x == k.h0 && (h == k.h1 || h == k.h3 || h == k.h4 || h == k.hf || h == k.hg))
    || (x == k.h1 && (h == k.h3 || h == k.h4 || h == k.hf || h == k.hg))
    || (x == k.h3 && h == k.h4)
  }

  lemma UpPrecedes(k: Fork, x: AUMHash, h: AUMHash)
    requires ForkDistinct(k)
    ensures x in ForkUp(k)(h) <==> Precedes(k, x, h)
  {
    ForkDiffer(k);
  }

  lemma ForkAncestors(hash: HashFn, k: Fork)
    requires IsFork(hash, k)
    ensures var info, rank := ForkStore(k), ForkRank(k);
      && WellFounded(info, rank)
      && forall x, h {:trigger Ancestor(info, rank, x, h)} :: Ancestor(info, rank, x, h) <==> Precedes(k, x, h)
  {
    ForkDiffer(k);
    ForkParents(hash, k);
    var info, rank := ForkStore(k), ForkRank(k);
    AllAncestorsListed(info, rank, ForkUp(k));
    forall x, h {:trigger Ancestor(info, rank, x, h)} ensures Ancestor(info, rank, x, h) <==> Precedes(k, x, h) {
      UpPrecedes(k, x, h);
    }
  }

  lemma ForkCoherent(hash: HashFn, k: Fork)
    requires IsFork(hash, k)
    ensures Coherent(hash, ForkStore(k))
  {
    ForkDiffer(k);
    var info := ForkStore(k);
    forall p, c ensures c in Kids(info, p) <==> ChildLink(info, p, c) {
    }
    forall p ensures Distinct(Kids(info, p)) {
    }
  }

  /** What is needed of the store: what it holds, who is whose ancestor, and that nothing is missing. */
  ghost predicate Forked(info: Info, rank: AUMHash -> nat, k: Fork) {
    && WellFounded(info, rank)
    && (forall h :: Has(info, h) <==> h in {k.h0, k.h1, k.h3, k.h4, k.hf, k.hg})
    && (forall h :: Has(info, h) ==> h in info && CommitTime(info, h).Some? && (Young(info, h, 0) <==> h == k.hf))
    && (forall h :: Has(info, h) ==> ChildAUMs(info, h).Ok?)
    && (forall h :: IsCheckpoint(info, h) <==> h == k.h0 || h == k.h3)
    && forall x, h {:trigger Ancestor(info, rank, x, h)} :: Ancestor(info, rank, x, h) <==> Precedes(k, x, h)
  }

  lemma ForkHolds(k: Fork, h: AUMHash)
    requires ForkDistinct(k) && h in {k.h0, k.h1, k.h3, k.h4, k.hf, k.hg}
    ensures var info := ForkStore(k);
      && Has(info, h) && CommitTime(info, h).Some? && (Young(info, h, 0) <==> h == k.hf) && ChildAUMs(info, h).Ok?
  {
    ForkDiffer(k);
  }

  lemma ForkIsForked(hash: HashFn, k: Fork)
    requires IsFork(hash, k)
    ensures Forked(ForkStore(k), ForkRank(k), k)
  {
    ForkAncestors(hash, k);
    var info := ForkStore(k);
    forall h ensures Has(info, h) <==> h in {k.h0, k.h1, k.h3, k.h4, k.hf, k.hg} {
      if h in {k.h0, k.h1, k.h3, k.h4, k.hf, k.hg} {
        ForkHolds(k, h);
      }
    }
    forall h | Has(info, h)
      ensures h in info && CommitTime(info, h).Some? && ChildAUMs(info, h).Ok? && (Young(info, h, 0) <==> h == k.hf)
    {
      ForkHolds(k, h);
    }
    forall h ensures IsCheckpoint(info, h) <==> h == k.h0 || h == k.h3 {
      ForkCheckpoints(hash, k, h);
    }
  }

  lemma ForkCheckpoints(hash: HashFn, k: Fork, h: AUMHash)
    requires IsFork(hash, k)
    ensures IsCheckpoint(ForkStore(k), h) <==> h == k.h0 || h == k.h3
  {
    ForkDiffer(k);
  }

  lemma ForkBase(info: Info, rank: AUMHash -> nat, k: Fork)
    requires Forked(info, rank, k) && ForkDistinct(k)
    ensures Base(info, rank, k.h4, k.h3, 0) == {k.h3, k.h4, k.hf}
  {
    ForkDiffer(k);
    assert Root(info, rank, k.h4, k.h3, 0, k.h3) && Root(info, rank, k.h4, k.h3, 0, k.h4) && Root(info, rank, k.h4, k.h3, 0, k.hf);
    forall r | Root(info, rank, k.h4, k.h3, 0, r) ensures r in {k.h3, k.h4, k.hf} {
    }
    forall h ensures h in Base(info, rank, k.h4, k.h3, 0) <==> h in {k.h3, k.h4, k.hf} {
    }
  }

  lemma ForkEnd(info: Info, rank: AUMHash -> nat, k: Fork)
    requires Forked(info, rank, k) && ForkDistinct(k) && ParentOf(info, k.h4) == Some(k.h3)
    ensures ActiveEnd(info, rank, 1, k.h4, k.h3) && Distance(info, rank, k.h4, k.h3) == 1
  {
    ForkDiffer(k);
    assert Distance(info, rank, k.h4, k.h3) == 1 + Distance(info, rank, k.h3, k.h3);
    assert Distance(info, rank, k.h4, k.h4) == 0;
  }

  lemma ForkCanCompact(info: Info, rank: AUMHash -> nat, k: Fork)
    requires Forked(info, rank, k) && ForkDistinct(k) && ParentOf(info, k.h4) == Some(k.h3)
    ensures CanCompactFrom(info, rank, k.h4, 1, 0, k.h3)
  {
    ForkBase(info, rank, k);
    ForkEnd(info, rank, k);
    ForkMeets(info, rank, k);
    ForkDiffer(k);
    assert TimesKnown(info, rank, k.h3, 0);
    assert IsLong(info, rank, 1, k.h4, k.h3);
    assert forall h :: h in {k.h3, k.h4, k.hf} ==> Has(info, h);
  }

  lemma ForkMeets(info: Info, rank: AUMHash -> nat, k: Fork)
    requires Forked(info, rank, k) && ForkDistinct(k)
    ensures MeetsAt(info, rank, {k.h3, k.h4, k.hf}, k.h3, true, k.h1)
  {
    ForkDiffer(k);
    assert IsCheckpoint(info, k.h0) && Ancestor(info, rank, k.h0, k.h1);
    assert Lookups(info, rank, k.h3, k.h1);
  }

  /** `info'` is `info` without the old fork. */
  ghost predicate Pruned(info: Info, info': Info, k: Fork) {
    && k.hg in info && info' == info[k.hg := info[k.hg].(purged := true)]
  }

  lemma ForkLeaves(info: Info, rank: AUMHash -> nat, k: Fork, info': Info)
    requires Forked(info, rank, k) && ForkDistinct(k) && Pruned(info, info', k)
    ensures Leaves(info, rank, {k.h3, k.h4, k.hf}, info', k.h0)
  {
    ForkDiffer(k);
    var base := {k.h3, k.h4, k.hf};
    forall h ensures OnKeptChain(info, rank, base, k.h0, h) <==> h in {k.h0, k.h1, k.h3, k.h4, k.hf} {
      if h in {k.h0, k.h1, k.h3, k.h4} {
        assert Between(info, rank, k.h0, h, k.h4);
      }
      assert Between(info, rank, k.h0, k.hf, k.hf);
    }
    forall h ensures Stored(info', h) == if OnKeptChain(info, rank, base, k.h0, h) then Stored(info, h) else None {
      assert Has(info, h) <==> h in {k.h0, k.h1, k.h3, k.h4, k.hf, k.hg};
    }
  }

  lemma ForkCompacted(info: Info, rank: AUMHash -> nat, k: Fork, info': Info)
    requires Forked(info, rank, k) && ForkDistinct(k) && Pruned(info, info', k)
    ensures Compacted(info, rank, Base(info, rank, k.h4, k.h3, 0), k.h3, info', k.h0)
  {
    ForkBase(info, rank, k);
    ForkLeaves(info, rank, k, info');
    ForkFallsBack(info, rank, k);
  }

  lemma ForkFallsBack(info: Info, rank: AUMHash -> nat, k: Fork)
    requires Forked(info, rank, k) && ForkDistinct(k)
    ensures FallsBack(info, rank, {k.h3, k.h4, k.hf}, k.h3, k.h0)
  {
    ForkDiffer(k);
    assert NewestFor(info, rank, k.h3, k.h0, k.hf);
  }

  /** The state at the young fork can be computed before compaction. */
  lemma ForkComputed(hash: HashFn, st: State)
    requires ForkDistinct(ForkOf(hash, st))
    ensures var k := ForkOf(hash, st);
      WellFounded(ForkStore(k), ForkRank(k)) && Computed(hash, ForkStore(k), ForkRank(k), 10, k.hf).Ok?
  {
    ForkIsFork(hash, st);
    var k := ForkOf(hash, st);
    ForkAncestors(hash, k);
    ForkParents(hash, k);
    ForkDiffer(k);
    var info, rank := ForkStore(k), ForkRank(k);
    assert ChildAUMs(info, k.h0).Ok? && ChildAUMs(info, k.h1).Ok?;
    assert IsStart(info, k.h0) && !IsStart(info, k.h1) && !IsStart(info, k.hf);
    assert Depth(info, rank, k.h0) == 0 && Depth(info, rank, k.h1) == 1 && Depth(info, rank, k.hf) == 2;
    assert !Broken(info, rank, k.h0) && !Broken(info, rank, k.h1) && !Broken(info, rank, k.hf);
    assert Forward(hash, info, rank, k.h0) == Ok(st.(last := Some(k.h0)));
    assert Forward(hash, info, rank, k.h1) == Ok(st.(last := Some(k.h1)));
    assert Forward(hash, info, rank, k.hf) == Ok(st.(last := Some(k.hf)));
  }

  /** Compaction that keeps one ancestor and what is young keeps the young fork, and the AUM it
      forked from, but drops the old fork: the state at the young fork, which could be computed
      before, cannot be computed after. */
  lemma KeptButNotComputed(hash: HashFn, st: State)
    requires ForkDistinct(ForkOf(hash, st))
    ensures var k := ForkOf(hash, st);
      var info, info', rank := ForkStore(k), PrunedStore(k), ForkRank(k);
      && Coherent(hash, info) && WellFounded(info, rank) && CanCompactFrom(info, rank, k.h4, 1, 0, k.h3)
      && Compacted(info, rank, Base(info, rank, k.h4, k.h3, 0), k.h3, info', k.h0)
      && Has(info', k.hf) && WellFounded(info', rank)
      && Computed(hash, info, rank, 10, k.hf).Ok? && Computed(hash, info', rank, 10, k.hf) == Err(ChildNotStored)
  {
    ForkIsFork(hash, st);
    var k := ForkOf(hash, st);
    var info, info', rank := ForkStore(k), PrunedStore(k), ForkRank(k);
    ForkDiffer(k);
    ForkIsForked(hash, k);
    ForkParents(hash, k);
    ForkCoherent(hash, k);
    ForkCanCompact(info, rank, k);
    ForkCompacted(info, rank, k, info');
    ForkComputed(hash, st);
    ForkLoses(info, rank, k, info');
    var base := Base(info, rank, k.h4, k.h3, 0);
    ForkBase(info, rank, k);
    OneTreeRemains(info, rank, base, k.h3, info', k.h0);
    ComputingAfterCompaction(hash, info, rank, 1, k.h4, base, k.h3, info', k.h0, 10, k.hf);
  }

  lemma ForkLoses(info: Info, rank: AUMHash -> nat, k: Fork, info': Info)
    requires Forked(info, rank, k) && ForkDistinct(k) && Pruned(info, info', k)
    requires ParentOf(info, k.hf) == Some(k.h1) && ParentOf(info, k.hg) == Some(k.h1)
    ensures LostChild(info, rank, info', k.hf)
  {
    ForkDiffer(k);
    assert !IsStart(info, k.hf);
    assert OnReplay(info, rank, k.h1, k.hf);
    assert !Has(info', k.hg);
  }
}
