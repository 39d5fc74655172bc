/** The store after a compaction: which states can still be computed, and whether it can be
    compacted again. */
module TkaAfter {
  import opened Wrappers
  import opened TkaTypes
  import opened TkaState
  import opened TkaStore
  import opened TkaMark
  import opened TkaCompact
  import opened TkaMeaning
  import opened TkaCompute

  // ----- Computing states -----

  /** An AUM on the way to `h` lost a child to the compaction. */
  ghost predicate LostChild(info: Info, rank: AUMHash -> nat, info': Info, h: AUMHash)
    requires WellFounded(info, rank)
  {
    exists x, c :: OnReplay(info, rank, x, h) && ParentOf(info, c) == Some(x) && !Has(info', c)
  }

  /** Looking up children fails as before, unless one was lost. */
  lemma LookupUnlessLost(
      hash: HashFn, info: Info, rank: AUMHash -> nat, base: set<AUMHash>, laa0: AUMHash, info': Info, laa: AUMHash, x: AUMHash)
    requires Coherent(hash, info) && WellFounded(info, rank) && Compacted(info, rank, base, laa0, info', laa)
    ensures ChildAUMs(info', x).Err? <==>
      ChildAUMs(info, x).Err? || exists c :: ParentOf(info, c) == Some(x) && !Has(info', c)
  {
    CompactedCoherent(hash, info, rank, base, laa0, info', laa);
    ChildAUMsIsScan(hash, info, x);
    ChildAUMsIsScan(hash, info', x);
    forall c ensures ChildLink(info', x, c) <==> ChildLink(info, x, c) {
    }
    forall c | Has(info', c) ensures Has(info, c) {
      assert Stored(info', c) == if OnKeptChain(info, rank, base, laa, c) then Stored(info, c) else None;
    }
    if c :| ChildLink(info', x, c) && !Has(info', c) {
      assert Has(info, c) ==> ParentOf(info, c) == Some(x);
    }
    if c :| ParentOf(info, c) == Some(x) && !Has(info', c) {
      assert ChildLink(info, x, c);
    }
  }

  /** The way to a kept AUM, its length and where it breaks off are the same after compaction. */
  lemma {:induction false} SameWay(
      info: Info, rank: AUMHash -> nat, minChain: int, head: AUMHash,
      base: set<AUMHash>, laa0: AUMHash, info': Info, laa: AUMHash, h: AUMHash)
    requires WellFounded(info, rank) && Compacted(info, rank, base, laa0, info', laa)
    requires ActiveEnd(info, rank, minChain, head, laa0) && Has(info', h)
    ensures WellFounded(info', rank)
    ensures Depth(info', rank, h) == Depth(info, rank, h) && (Broken(info', rank, h) <==> Broken(info, rank, h))
    decreases rank(h)
  {
    StaysWellFounded(info, rank, base, laa0, info', laa);
    SurvivorParent(info, rank, base, laa0, info', laa, h);
    if !IsStart(info, h) {
      var p := ParentOf(info, h).value;
      if h != laa {
        SameWay(info, rank, minChain, head, base, laa0, info', laa, p);
      } else {
        assert EndsAt(info, laa);
        AncestorGone(info, rank, base, laa0, info', laa);
      }
    }
  }

  lemma LostChildParent(info: Info, rank: AUMHash -> nat, info': Info, h: AUMHash)
    requires WellFounded(info, rank) && Has(info, h) && !IsStart(info, h) && Has(info, ParentOf(info, h).value)
    ensures var p := ParentOf(info, h).value;
      LostChild(info, rank, info', h) <==>
        (exists c :: ParentOf(info, c) == Some(p) && !Has(info', c)) || LostChild(info, rank, info', p)
  {
    var p := ParentOf(info, h).value;
    OnReplayParent(info, rank, p, h);
    if x, c :| OnReplay(info, rank, x, h) && ParentOf(info, c) == Some(x) && !Has(info', c) {
      OnReplayParent(info, rank, x, h);
    }
    if x, c :| OnReplay(info, rank, x, p) && ParentOf(info, c) == Some(x) && !Has(info', c) {
      OnReplayParent(info, rank, x, h);
    }
  }

  lemma {:induction false} ForwardAfter(
      hash: HashFn, info: Info, rank: AUMHash -> nat, minChain: int, head: AUMHash,
      base: set<AUMHash>, laa0: AUMHash, info': Info, laa: AUMHash, h: AUMHash)
    requires Coherent(hash, info) && WellFounded(info, rank) && Compacted(info, rank, base, laa0, info', laa)
    requires ActiveEnd(info, rank, minChain, head, laa0) && Has(info', h)
    ensures WellFounded(info', rank)
    ensures !LostChild(info, rank, info', h) ==> Forward(hash, info', rank, h) == Forward(hash, info, rank, h)
    ensures LostChild(info, rank, info', h) && Forward(hash, info, rank, h).Ok? ==>
      Forward(hash, info', rank, h) == Err(ChildNotStored)
    decreases rank(h)
  {
    StaysWellFounded(info, rank, base, laa0, info', laa);
    SurvivorParent(info, rank, base, laa0, info', laa, h);
    if IsStart(info, h) {
      if x :| OnReplay(info, rank, x, h) {
        OnReplayParent(info, rank, x, h);
      }
    } else if h != laa {
      var p := ParentOf(info, h).value;
      ForwardAfter(hash, info, rank, minChain, head, base, laa0, info', laa, p);
      LookupUnlessLost(hash, info, rank, base, laa0, info', laa, p);
      SurvivorParent(info, rank, base, laa0, info', laa, p);
      LostChildParent(info, rank, info', h);
      ForwardStep(hash, info, rank, info', h, p);
    } else {
      assert EndsAt(info, laa);
      AncestorGone(info, rank, base, laa0, info', laa);
      var p := ParentOf(info, h).value;
      assert !Has(info, p) && !Has(info', p);
      assert Forward(hash, info, rank, p) == Err(NotExist) && Forward(hash, info', rank, p) == Err(NotExist);
    }
  }

  /** One step of going forward, in both stores. */
  lemma ForwardStep(hash: HashFn, info: Info, rank: AUMHash -> nat, info': Info, h: AUMHash, p: AUMHash)
    requires WellFounded(info, rank) && WellFounded(info', rank)
    requires Has(info, h) && Stored(info', h) == Stored(info, h) && ParentOf(info, h) == Some(p) && !IsStart(info, h)
    ensures var before, before' := Forward(hash, info, rank, p), Forward(hash, info', rank, p);
      var a, bad, bad' := Stored(info, h).value, ChildAUMs(info, p).Err?, ChildAUMs(info', p).Err?;
      && Forward(hash, info, rank, h) == (if before.Ok? && bad then Err(ChildNotStored) else ApplyTo(hash, before, a))
      && Forward(hash, info', rank, h) == (if before'.Ok? && bad' then Err(ChildNotStored) else ApplyTo(hash, before', a))
  {
    assert ParentOf(info', h) == Some(p) && !IsStart(info', h);
  }

  /** A state that could be computed before a compaction can be computed after it, to the same
      value, exactly if no AUM on the way to it lost a child; if one did, the computation fails. An
      error stays the same if none did. */
  lemma ComputingAfterCompaction(
      hash: HashFn, info: Info, rank: AUMHash -> nat, minChain: int, head: AUMHash,
      base: set<AUMHash>, laa0: AUMHash, info': Info, laa: AUMHash, maxIter: nat, h: AUMHash)
    requires Coherent(hash, info) && WellFounded(info, rank) && Compacted(info, rank, base, laa0, info', laa)
    requires ActiveEnd(info, rank, minChain, head, laa0) && Has(info', h)
    ensures WellFounded(info', rank)
    ensures var before, after := Computed(hash, info, rank, maxIter, h), Computed(hash, info', rank, maxIter, h);
      && (!LostChild(info, rank, info', h) ==> after == before)
      && (before.Ok? && LostChild(info, rank, info', h) ==> after == Err(ChildNotStored))
  {
    SameWay(info, rank, minChain, head, base, laa0, info', laa, h);
    ForwardAfter(hash, info, rank, minChain, head, base, laa0, info', laa, h);
  }

  /** What descends from the end of the active stretch loses no child on the way to it. */
  lemma NoneLostAbove(
      info: Info, rank: AUMHash -> nat, minChain: int, head: AUMHash, minTime: int, laa0: AUMHash, info': Info, laa: AUMHash, h: AUMHash)
    requires WellFounded(info, rank) && ActiveEnd(info, rank, minChain, head, laa0)
    requires Compacted(info, rank, Base(info, rank, head, laa0, minTime), laa0, info', laa)
    requires Ancestor(info, rank, laa0, h)
    ensures !LostChild(info, rank, info', h)
  {
    if x, c :| OnReplay(info, rank, x, h) && ParentOf(info, c) == Some(x) && !Has(info', c) {
      ReplayFromEnd(info, rank, minChain, head, laa0, x, h);
      assert Between(info, rank, laa0, laa0, head);
      assert Root(info, rank, head, laa0, minTime, laa0);
      assert Ancestor(info, rank, laa0, c);
      assert c in Base(info, rank, head, laa0, minTime);
      OneTreeRemains(info, rank, Base(info, rank, head, laa0, minTime), laa0, info', laa);
    }
  }

  lemma ReplayFromEnd(info: Info, rank: AUMHash -> nat, minChain: int, head: AUMHash, laa0: AUMHash, x: AUMHash, h: AUMHash)
    requires WellFounded(info, rank) && ActiveEnd(info, rank, minChain, head, laa0)
    requires Ancestor(info, rank, laa0, h) && OnReplay(info, rank, x, h)
    ensures Ancestor(info, rank, laa0, x)
  {
    AncestorLinear(info, rank, x, laa0, h);
    if x != laa0 && Ancestor(info, rank, x, laa0) {
      assert Between(info, rank, x, laa0, h);
      AncestorStored(info, rank, x, ParentOf(info, laa0).value);
    }
  }

  /** The states at head, at every AUM of the active stretch, and at whatever descends from its end
      can be computed after compaction as before. */
  lemma HeadStillComputed(
      hash: HashFn, info: Info, rank: AUMHash -> nat, minChain: int, head: AUMHash, minTime: int,
      laa0: AUMHash, info': Info, laa: AUMHash, maxIter: nat, h: AUMHash)
    requires Coherent(hash, info) && WellFounded(info, rank) && ActiveEnd(info, rank, minChain, head, laa0)
    requires Compacted(info, rank, Base(info, rank, head, laa0, minTime), laa0, info', laa)
    requires Has(info, h) && Ancestor(info, rank, laa0, h)
    ensures WellFounded(info', rank)
    ensures Computed(hash, info', rank, maxIter, h) == Computed(hash, info, rank, maxIter, h)
    ensures Ancestor(info, rank, laa0, head)
  {
    var base := Base(info, rank, head, laa0, minTime);
    assert Between(info, rank, laa0, laa0, head);
    assert Root(info, rank, head, laa0, minTime, laa0);
    assert h in base;
    OneTreeRemains(info, rank, base, laa0, info', laa);
    NoneLostAbove(info, rank, minChain, head, minTime, laa0, info', laa, h);
    ComputingAfterCompaction(hash, info, rank, minChain, head, base, laa0, info', laa, maxIter, h);
  }

  // ----- Compacting again -----

  /** A compaction that leaves the new ancestor without its stored parent has purged that parent. */
  lemma ParentIsPurged(
      info: Info, rank: AUMHash -> nat, base: set<AUMHash>, laa0: AUMHash, info': Info, laa: AUMHash)
    requires WellFounded(info, rank) && Compacted(info, rank, base, laa0, info', laa) && !EndsAt(info, laa)
    ensures ParentOf(info', laa) == ParentOf(info, laa)
    ensures var p := ParentOf(info, laa).value; p in info' && info'[p].purged
  {
    OneTreeRemains(info, rank, base, laa0, info', laa);
    SurvivorParent(info, rank, base, laa0, info', laa, laa);
    AncestorGone(info, rank, base, laa0, info', laa);
  }

  /** The stored chain of `head` ends at `root`, whose parent was purged. */
  ghost predicate CutAt(info: Info, rank: AUMHash -> nat, head: AUMHash, root: AUMHash)
    requires WellFounded(info, rank)
  {
    && Has(info, root) && Ancestor(info, rank, root, head) && ParentOf(info, root).Some?
    && ParentOf(info, root).value in info && info[ParentOf(info, root).value].purged
  }

  /** Where a chain was cut before, compaction is possible exactly while the chain is shorter than
      the minimum, every young AUM descends from where it was cut, and the children of everything
      that must stay are stored. */
  lemma RecompactionExact(info: Info, rank: AUMHash -> nat, head: AUMHash, minChain: int, minTime: int, root: AUMHash)
    requires WellFounded(info, rank) && CutAt(info, rank, head, root)
    ensures CanCompact(info, rank, head, minChain, minTime) <==>
      && Distance(info, rank, head, root) < minChain
      && (forall k :: Has(info, k) && Young(info, k, minTime) ==> Ancestor(info, rank, root, k))
      && (forall h :: h in Base(info, rank, head, root, minTime) ==> ChildAUMs(info, h).Ok?)
  {
    if Distance(info, rank, head, root) < minChain {
      ShortCut(info, rank, head, minChain, minTime, root);
    } else if laa0 :| CanCompactFrom(info, rank, head, minChain, minTime, laa0) {
      LongCut(info, rank, head, minChain, minTime, root, laa0);
    }
  }

  /** A long chain that was cut cannot be compacted: the time of the purged parent is asked for. */
  lemma LongCut(info: Info, rank: AUMHash -> nat, head: AUMHash, minChain: int, minTime: int, root: AUMHash, laa0: AUMHash)
    requires WellFounded(info, rank) && CutAt(info, rank, head, root) && Distance(info, rank, head, root) >= minChain
    ensures !CanCompactFrom(info, rank, head, minChain, minTime, laa0)
  {
    if CanCompactFrom(info, rank, head, minChain, minTime, laa0) {
      var gone := ParentOf(info, root).value;
      CutIsEnd(info, rank, head, root, laa0);
      DistanceAdds(info, rank, head, laa0, root);
      AncestorParent(info, rank, root, laa0);
      if !IsLong(info, rank, minChain, head, laa0) {
        AncestorStored(info, rank, root, ParentOf(info, laa0).value);
      }
    }
  }

  /** Every stored AUM of the chain comes after the cut. */
  lemma CutIsEnd(info: Info, rank: AUMHash -> nat, head: AUMHash, root: AUMHash, x: AUMHash)
    requires WellFounded(info, rank) && CutAt(info, rank, head, root) && Has(info, x) && Ancestor(info, rank, x, head)
    ensures Ancestor(info, rank, root, x)
  {
    AncestorLinear(info, rank, x, root, head);
    if x != root && Ancestor(info, rank, x, root) {
      AncestorStored(info, rank, x, ParentOf(info, root).value);
    }
  }

  lemma ShortCut(info: Info, rank: AUMHash -> nat, head: AUMHash, minChain: int, minTime: int, root: AUMHash)
    requires WellFounded(info, rank) && CutAt(info, rank, head, root) && Distance(info, rank, head, root) < minChain
    ensures CanCompact(info, rank, head, minChain, minTime) <==>
      && (forall k :: Has(info, k) && Young(info, k, minTime) ==> Ancestor(info, rank, root, k))
      && (forall h :: h in Base(info, rank, head, root, minTime) ==> ChildAUMs(info, h).Ok?)
  {
    ShortEnd(info, rank, head, minChain, root);
    OnlyFrom(info, rank, head, minChain, minTime, root);
    var base := Base(info, rank, head, root, minTime);
    forall k | Has(info, k) && Young(info, k, minTime) ensures k in base {
      assert Root(info, rank, head, root, minTime, k) && Ancestor(info, rank, k, k);
    }
    assert Ancestor(info, rank, root, root);
    if forall k :: Has(info, k) && Young(info, k, minTime) ==> Ancestor(info, rank, root, k) {
      forall d | d in base ensures Ancestor(info, rank, root, d) {
        var k :| Root(info, rank, head, root, minTime, k) && Ancestor(info, rank, k, d);
        AncestorTransitive(info, rank, root, k, d);
      }
      assert MeetsAt(info, rank, base, root, false, root);
    }
  }

  lemma ShortEnd(info: Info, rank: AUMHash -> nat, head: AUMHash, minChain: int, root: AUMHash)
    requires WellFounded(info, rank) && CutAt(info, rank, head, root) && Distance(info, rank, head, root) < minChain
    ensures ActiveEnd(info, rank, minChain, head, root)
  {
    forall x | Between(info, rank, root, x, head) ensures Distance(info, rank, head, x) < minChain {
      DistanceAdds(info, rank, head, x, root);
    }
  }

  // ----- Committing afterwards -----

  /** An AUM filed at some time. */
  datatype Commit = Commit(aum: AUM, now: int)

  function CommitEach(hash: HashFn, info: Info, commits: seq<Commit>): Info {
    if commits == [] then info
    else
      var last := commits[|commits| - 1];
      CommitOne(hash, CommitEach(hash, info, commits[..|commits| - 1]), last.aum, last.now)
  }

  lemma EachSnoc(hash: HashFn, info: Info, commits: seq<Commit>, c: Commit)
    ensures CommitEach(hash, info, commits + [c]) == CommitOne(hash, CommitEach(hash, info, commits), c.aum, c.now)
  {
    assert (commits + [c])[..|commits + [c]| - 1] == commits;
  }

  /** One batch, as the store files it. */
  function Batch(updates: seq<AUM>, now: int): seq<Commit> {
    seq(|updates|, i requires 0 <= i < |updates| => Commit(updates[i], now))
  }

  lemma BatchSnoc(commits: seq<Commit>, updates: seq<AUM>, now: int)
    requires updates != []
    ensures commits + Batch(updates, now) ==
      (commits + Batch(updates[..|updates| - 1], now)) + [Commit(updates[|updates| - 1], now)]
  {
  }

  /** Filing batch after batch is filing the commits of all of them. */
  lemma {:induction false} BatchIsEach(hash: HashFn, info: Info, commits: seq<Commit>, updates: seq<AUM>, now: int)
    ensures CommitEach(hash, info, commits + Batch(updates, now)) == CommitAll(hash, CommitEach(hash, info, commits), updates, now)
    decreases |updates|
  {
    if updates == [] {
      assert commits + Batch(updates, now) == commits;
    } else {
      var before, last := updates[..|updates| - 1], updates[|updates| - 1];
      BatchIsEach(hash, info, commits, before, now);
      BatchSnoc(commits, updates, now);
      EachSnoc(hash, info, commits + Batch(before, now), Commit(last, now));
    }
  }

  /** What is asked of commits: hashes that do not clash, parents that rank lower, as no chain of
      hashes comes back to itself, and that `gone` is not among them. */
  ghost predicate Admissible(hash: HashFn, info: Info, rank: AUMHash -> nat, commits: seq<Commit>, gone: AUMHash) {
    && NoClashes(hash, info, Batched(commits))
    && forall i :: 0 <= i < |commits| ==> Fits(hash, rank, commits[i].aum, gone)
  }

  function Batched(commits: seq<Commit>): seq<AUM> {
    seq(|commits|, i requires 0 <= i < |commits| => commits[i].aum)
  }

  ghost predicate Fits(hash: HashFn, rank: AUMHash -> nat, a: AUM, gone: AUMHash) {
    hash(a) != gone && (Parent(a).Some? ==> rank(Parent(a).value) < rank(hash(a)))
  }

  /** What is stored stays stored, and `gone` stays purged. */
  ghost predicate Extends(info: Info, later: Info, gone: AUMHash) {
    && (forall h :: Has(info, h) ==> Stored(later, h) == Stored(info, h))
    && (gone in info && info[gone].purged ==> gone in later && later[gone].purged)
  }

  lemma CommitOneExtends(hash: HashFn, info: Info, rank: AUMHash -> nat, a: AUM, now: int, gone: AUMHash)
    requires WellFounded(info, rank) && NoClash(hash, info, a) && Fits(hash, rank, a, gone)
    ensures var later := CommitOne(hash, info, a, now); WellFounded(later, rank) && Extends(info, later, gone)
  {
    var later := CommitOne(hash, info, a, now);
    forall h ensures Stored(later, h) == if h == hash(a) then Some(a) else Stored(info, h) {
      CommitOneRecords(hash, info, a, now, h);
    }
    forall h {:trigger ParentOf(later, h)} | ParentOf(later, h).Some? ensures rank(ParentOf(later, h).value) < rank(h) {
      assert h != hash(a) ==> ParentOf(later, h) == ParentOf(info, h);
    }
  }

  lemma {:induction false} CommitsExtend(
      hash: HashFn, info: Info, rank: AUMHash -> nat, commits: seq<Commit>, gone: AUMHash, n: nat)
    requires WellFounded(info, rank) && Admissible(hash, info, rank, commits, gone) && n <= |commits|
    ensures var later := CommitEach(hash, info, commits[..n]);
      WellFounded(later, rank) && Extends(info, later, gone) && NoClashes(hash, later, Batched(commits))
  {
    if n > 0 {
      CommitsExtend(hash, info, rank, commits, gone, n - 1);
      assert commits[..n][..n - 1] == commits[..n - 1];
      var before, last := CommitEach(hash, info, commits[..n - 1]), commits[n - 1];
      assert Batched(commits)[n - 1] == last.aum;
      CommitOneExtends(hash, before, rank, last.aum, last.now, gone);
      CommitOneKeepsNoClashes(hash, before, Batched(commits), n - 1, last.now);
    }
  }

  /** A chain of stored AUMs stays a chain, and as long. */
  lemma {:induction false} ChainExtends(info: Info, later: Info, rank: AUMHash -> nat, gone: AUMHash, x: AUMHash, h: AUMHash)
    requires WellFounded(info, rank) && WellFounded(later, rank) && Extends(info, later, gone) && Ancestor(info, rank, x, h)
    ensures Ancestor(later, rank, x, h) && Distance(later, rank, h, x) == Distance(info, rank, h, x)
    decreases rank(h)
  {
    if x != h {
      assert ParentOf(later, h) == ParentOf(info, h);
      ChainExtends(info, later, rank, gone, x, ParentOf(info, h).value);
    }
  }

  /** Where a chain was cut it stays cut, however much is committed, as long as the AUM it was cut
      off from is not committed again. */
  lemma CutStays(
      hash: HashFn, info: Info, rank: AUMHash -> nat, commits: seq<Commit>, head: AUMHash, root: AUMHash)
    requires WellFounded(info, rank) && CutAt(info, rank, head, root)
    requires Admissible(hash, info, rank, commits, ParentOf(info, root).value)
    ensures var later := CommitEach(hash, info, commits);
      && WellFounded(later, rank) && CutAt(later, rank, head, root) && ParentOf(later, root) == ParentOf(info, root)
      && Distance(later, rank, head, root) == Distance(info, rank, head, root)
  {
    var gone := ParentOf(info, root).value;
    CommitsExtend(hash, info, rank, commits, gone, |commits|);
    assert commits[..|commits|] == commits;
    ChainExtends(info, CommitEach(hash, info, commits), rank, gone, root, head);
  }

  /** After a compaction that purged the parent of the new ancestor, and after whatever was
      committed since but that parent, the store cannot be compacted again with the same minimum,
      from the same head or any AUM after it. */
  lemma CannotCompactAgain(
      hash: HashFn, info: Info, rank: AUMHash -> nat, minChain: int, head: AUMHash, minTime: int, laa0: AUMHash,
      info': Info, laa: AUMHash, commits: seq<Commit>)
    requires WellFounded(info, rank) && CanCompactFrom(info, rank, head, minChain, minTime, laa0)
    requires Compacted(info, rank, Base(info, rank, head, laa0, minTime), laa0, info', laa) && !EndsAt(info, laa)
    requires Admissible(hash, info', rank, commits, ParentOf(info, laa).value)
    ensures var later := CommitEach(hash, info', commits);
      && WellFounded(later, rank) && Has(later, head)
      && forall head', minTime' ::
           Ancestor(later, rank, head, head') ==> !CanCompact(later, rank, head', minChain, minTime')
  {
    var later := CommitEach(hash, info', commits);
    ParentIsPurged(info, rank, Base(info, rank, head, laa0, minTime), laa0, info', laa);
    LongBefore(info, rank, minChain, head, minTime, laa0, info', laa);
    OneTreeRemains(info, rank, Base(info, rank, head, laa0, minTime), laa0, info', laa);
    CutStays(hash, info', rank, commits, head, laa);
    AncestorStored(later, rank, laa, head);
    forall head', minTime' | Ancestor(later, rank, head, head')
      ensures !CanCompact(later, rank, head', minChain, minTime')
    {
      NotFromAfter(later, rank, minChain, head, laa, head', minTime');
    }
  }

  lemma NotFromAfter(
      info: Info, rank: AUMHash -> nat, minChain: int, head: AUMHash, root: AUMHash, head': AUMHash, minTime: int)
    requires WellFounded(info, rank) && CutAt(info, rank, head, root) && Distance(info, rank, head, root) >= minChain
    requires Ancestor(info, rank, head, head')
    ensures !CanCompact(info, rank, head', minChain, minTime)
  {
    AncestorTransitive(info, rank, root, head, head');
    DistanceAdds(info, rank, head', head, root);
    RecompactionExact(info, rank, head', minChain, minTime, root);
  }

  /** Such a compaction started from a long chain, and what is kept of it is still long. */
  lemma LongBefore(
      info: Info, rank: AUMHash -> nat, minChain: int, head: AUMHash, minTime: int, laa0: AUMHash, info': Info, laa: AUMHash)
    requires WellFounded(info, rank) && CanCompactFrom(info, rank, head, minChain, minTime, laa0)
    requires Compacted(info, rank, Base(info, rank, head, laa0, minTime), laa0, info', laa) && !EndsAt(info, laa)
    ensures WellFounded(info', rank) && Has(info', head) && Ancestor(info', rank, laa, head)
    ensures Distance(info', rank, head, laa) >= minChain
  {
    var base := Base(info, rank, head, laa0, minTime);
    StaysWellFounded(info, rank, base, laa0, info', laa);
    AncestorStored(info, rank, laa0, head);
    assert Ancestor(info, rank, head, head) && Between(info, rank, laa0, head, head);
    assert Root(info, rank, head, laa0, minTime, head);
    OneTreeRemains(info, rank, base, laa0, info', laa);
    SurvivorsReachAncestor(info, rank, base, laa0, info', laa, head);
    SameDistance(info, rank, base, laa0, info', laa, head);
    DistanceAdds(info, rank, head, laa0, laa);
    if laa != laa0 && !IsLong(info, rank, minChain, head, laa0) {
      AncestorStored(info, rank, laa, ParentOf(info, laa0).value);
    }
  }

  lemma {:induction false} SameDistance(
      info: Info, rank: AUMHash -> nat, base: set<AUMHash>, laa0: AUMHash, info': Info, laa: AUMHash, h: AUMHash)
    requires WellFounded(info, rank) && Compacted(info, rank, base, laa0, info', laa) && Has(info', h)
    ensures WellFounded(info', rank) && Ancestor(info', rank, laa, h) && Ancestor(info, rank, laa, h)
    ensures Distance(info', rank, h, laa) == Distance(info, rank, h, laa)
    decreases rank(h)
  {
    SurvivorsReachAncestor(info, rank, base, laa0, info', laa, h);
    SurvivorParent(info, rank, base, laa0, info', laa, h);
    if h != laa {
      SameDistance(info, rank, base, laa0, info', laa, ParentOf(info, h).value);
    }
  }
}
