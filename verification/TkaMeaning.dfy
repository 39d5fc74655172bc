/** What compaction means for readers of the store: the state at every surviving AUM is the
    state it had before, and the survivors form one tree under the new ancestor. */
module TkaMeaning {
  import opened Wrappers
  import opened TkaTypes
  import opened TkaState
  import opened TkaStore
  import opened TkaMark
  import opened TkaCompact

  // ----- The survivors -----

  lemma SurvivorParent(
      info: Info, rank: AUMHash -> nat, base: set<AUMHash>, laa0: AUMHash, info': Info, laa: AUMHash, h: AUMHash)
    requires WellFounded(info, rank) && Compacted(info, rank, base, laa0, info', laa)
    requires Has(info', h)
    ensures Stored(info', h) == Stored(info, h) && Ancestor(info, rank, laa, h)
    ensures ParentOf(info', h) == ParentOf(info, h)
    ensures h != laa ==> ParentOf(info, h).Some? && Has(info', ParentOf(info, h).value)
  {
    assert OnKeptChain(info, rank, base, laa, h);
    var d :| d in base && Between(info, rank, laa, h, d);
    if h != laa {
      var p := ParentOf(info, h).value;
      AncestorParent(info, rank, h, d);
      assert Between(info, rank, laa, p, d);
      AncestorStored(info, rank, laa, p);
    }
  }

  lemma StaysWellFounded(
      info: Info, rank: AUMHash -> nat, base: set<AUMHash>, laa0: AUMHash, info': Info, laa: AUMHash)
    requires WellFounded(info, rank) && Compacted(info, rank, base, laa0, info', laa)
    ensures WellFounded(info', rank)
  {
    forall h {:trigger ParentOf(info', h)} | ParentOf(info', h).Some? ensures rank(ParentOf(info', h).value) < rank(h) {
      SurvivorParent(info, rank, base, laa0, info', laa, h);
    }
  }

  /** Every kept AUM reaches the returned ancestor by parent links through kept AUMs only. */
  lemma {:induction false} SurvivorsReachAncestor(
      info: Info, rank: AUMHash -> nat, base: set<AUMHash>, laa0: AUMHash, info': Info, laa: AUMHash, h: AUMHash)
    requires WellFounded(info, rank) && Compacted(info, rank, base, laa0, info', laa)
    requires Has(info', h)
    ensures WellFounded(info', rank) && Ancestor(info', rank, laa, h)
    decreases rank(h)
  {
    StaysWellFounded(info, rank, base, laa0, info', laa);
    SurvivorParent(info, rank, base, laa0, info', laa, h);
    if h != laa {
      SurvivorsReachAncestor(info, rank, base, laa0, info', laa, ParentOf(info, h).value);
    }
  }

  /** Nothing active, young, or descending from such an AUM is purged, and the new ancestor is
      kept and is the only kept AUM whose parent is not. */
  lemma OneTreeRemains(
      info: Info, rank: AUMHash -> nat, base: set<AUMHash>, laa0: AUMHash, info': Info, laa: AUMHash)
    requires WellFounded(info, rank) && Compacted(info, rank, base, laa0, info', laa)
    ensures forall d :: d in base ==> Has(info', d)
    ensures Has(info', laa)
    ensures forall h :: Has(info', h) ==> (EndsAt(info', h) <==> h == laa)
  {
    forall d | d in base ensures Has(info', d) {
      assert Ancestor(info, rank, d, d);
      assert Between(info, rank, laa, d, d);
      assert OnKeptChain(info, rank, base, laa, d);
    }
    assert Ancestor(info, rank, laa, laa);
    assert Between(info, rank, laa, laa, laa0);
    assert OnKeptChain(info, rank, base, laa, laa);
    forall h | Has(info', h) ensures EndsAt(info', h) <==> h == laa {
      SurvivorParent(info, rank, base, laa0, info', laa, h);
      if h == laa && !EndsAt(info', h) {
        var p := ParentOf(info, laa).value;
        SurvivorParent(info, rank, base, laa0, info', laa, p);
        AncestorRank(info, rank, laa, p);
      }
    }
  }

  // ----- The state at an AUM -----

  /** The state where a replay can start: at a checkpoint or at a genesis AUM. */
  ghost function StartState(hash: HashFn, a: AUM): Result<State, TkaError> {
    if a.kind == Checkpoint then
      if a.state.None? then Err(MissingState) else Ok(a.state.value.(last := Some(hash(a))))
    else if Parent(a).Some? then Err(NotExist)
    else if a.kind == NoOp || a.kind == AddKey then Apply(hash, EMPTY_STATE, a)
    else Err(InvalidGenesis)
  }

  ghost function ApplyTo(hash: HashFn, s: Result<State, TkaError>, a: AUM): Result<State, TkaError> {
    match s
    case Ok(s) => Apply(hash, s, a)
    case Err(e) => Err(e)
  }

  /** A replay can start at `h`. */
  ghost predicate IsStart(info: Info, h: AUMHash) {
    IsCheckpoint(info, h) || (Has(info, h) && ParentOf(info, h).None?)
  }

  /** The state at `h`, computed from the nearest checkpoint or the genesis AUM. */
  ghost function StateAt(hash: HashFn, info: Info, rank: AUMHash -> nat, h: AUMHash): Result<State, TkaError>
    requires WellFounded(info, rank)
    decreases rank(h)
  {
    if !Has(info, h) then Err(NotExist)
    else
      var a := Stored(info, h).value;
      if IsStart(info, h) then StartState(hash, a)
      else ApplyTo(hash, StateAt(hash, info, rank, ParentOf(info, h).value), a)
  }

  /** The state at `h`, replayed over the whole stored chain from its oldest AUM. */
  ghost function FullReplay(hash: HashFn, info: Info, rank: AUMHash -> nat, h: AUMHash): Result<State, TkaError>
    requires WellFounded(info, rank)
    decreases rank(h)
  {
    if !Has(info, h) then Err(NotExist)
    else
      var a := Stored(info, h).value;
      if EndsAt(info, h) then StartState(hash, a)
      else ApplyTo(hash, FullReplay(hash, info, rank, ParentOf(info, h).value), a)
  }

  /** Starting at the nearest checkpoint gives the state of a full replay that succeeds. */
  lemma {:induction false} CheckpointShortcut(hash: HashFn, info: Info, rank: AUMHash -> nat, h: AUMHash)
    requires WellFounded(info, rank)
    requires FullReplay(hash, info, rank, h).Ok?
    ensures StateAt(hash, info, rank, h) == FullReplay(hash, info, rank, h)
    decreases rank(h)
  {
    var a := Stored(info, h).value;
    if !EndsAt(info, h) {
      var p := Parent(a).value;
      assert ParentOf(info, h) == Some(p);
      CheckpointShortcut(hash, info, rank, p);
    }
  }

  /** The state at every kept AUM is what it was, errors included. */
  lemma {:induction false} CompactionKeepsStates(
      hash: HashFn, info: Info, rank: AUMHash -> nat, minChain: int, head: AUMHash,
      base: set<AUMHash>, laa0: AUMHash, info': Info, laa: AUMHash, h: AUMHash)
    requires WellFounded(info, rank) && Compacted(info, rank, base, laa0, info', laa)
    requires ActiveEnd(info, rank, minChain, head, laa0)
    requires Has(info', h)
    ensures WellFounded(info', rank)
    ensures StateAt(hash, info', rank, h) == StateAt(hash, info, rank, h)
    decreases rank(h)
  {
    StaysWellFounded(info, rank, base, laa0, info', laa);
    SurvivorParent(info, rank, base, laa0, info', laa, h);
    var a := Stored(info, h).value;
    if a.kind != Checkpoint && Parent(a).Some? {
      var p := Parent(a).value;
      assert ParentOf(info, h) == Some(p);
      if h != laa {
        CompactionKeepsStates(hash, info, rank, minChain, head, base, laa0, info', laa, p);
      } else {
        assert EndsAt(info, laa);
        AncestorGone(info, rank, base, laa0, info', laa);
        assert !Has(info', p) && !Has(info, p);
      }
    }
  }

  lemma AncestorGone(
      info: Info, rank: AUMHash -> nat, base: set<AUMHash>, laa0: AUMHash, info': Info, laa: AUMHash)
    requires WellFounded(info, rank) && Compacted(info, rank, base, laa0, info', laa)
    ensures ParentOf(info, laa).Some? ==> !Has(info', ParentOf(info, laa).value)
  {
    if ParentOf(info, laa).Some? && Has(info', ParentOf(info, laa).value) {
      var p := ParentOf(info, laa).value;
      SurvivorParent(info, rank, base, laa0, info', laa, p);
      AncestorRank(info, rank, laa, p);
    }
  }

  /** Compaction preserves meaning: if replaying the stored chain of a kept AUM succeeded
      before, then replaying only kept AUMs, which starts at the returned ancestor, gives the
      same state. */
  lemma {:induction false} CompactionKeepsReplay(
      hash: HashFn, info: Info, rank: AUMHash -> nat, minChain: int, head: AUMHash,
      base: set<AUMHash>, laa0: AUMHash, info': Info, laa: AUMHash, h: AUMHash)
    requires WellFounded(info, rank) && Compacted(info, rank, base, laa0, info', laa)
    requires ActiveEnd(info, rank, minChain, head, laa0)
    requires Has(info', h) && FullReplay(hash, info, rank, h).Ok?
    ensures WellFounded(info', rank)
    ensures FullReplay(hash, info', rank, h) == FullReplay(hash, info, rank, h)
    decreases rank(h)
  {
    StaysWellFounded(info, rank, base, laa0, info', laa);
    SurvivorParent(info, rank, base, laa0, info', laa, h);
    OneTreeRemains(info, rank, base, laa0, info', laa);
    var a := Stored(info, h).value;
    if h != laa {
      var p := Parent(a).value;
      assert ParentOf(info, h) == Some(p) && Has(info, p);
      CompactionKeepsReplay(hash, info, rank, minChain, head, base, laa0, info', laa, p);
    } else if !EndsAt(info, laa) {
      assert a.kind == Checkpoint;
    }
  }

  // ----- The child index after compaction -----

  /** Compaction marks records and changes nothing else in the index. */
  lemma CompactedCoherent(
      hash: HashFn, info: Info, rank: AUMHash -> nat, base: set<AUMHash>, laa0: AUMHash, info': Info, laa: AUMHash)
    requires Coherent(hash, info) && WellFounded(info, rank) && Compacted(info, rank, base, laa0, info', laa)
    ensures Coherent(hash, info')
  {
    forall p, c ensures c in Kids(info', p) <==> ChildLink(info', p, c) {
      assert Kids(info', p) == Kids(info, p) && (ChildLink(info', p, c) <==> ChildLink(info, p, c));
    }
    forall p ensures Distinct(Kids(info', p)) {
      assert Kids(info', p) == Kids(info, p);
    }
  }

  /** Looking up the children of a kept AUM fails exactly when compaction, or an earlier one,
      purged one of them. */
  lemma ChildLookupAfterCompaction(
      hash: HashFn, info: Info, rank: AUMHash -> nat, base: set<AUMHash>, laa0: AUMHash, info': Info, laa: AUMHash, h: AUMHash)
    requires Coherent(hash, info) && WellFounded(info, rank) && Compacted(info, rank, base, laa0, info', laa)
    ensures ChildAUMs(info', h).Err? <==> exists c :: ChildLink(info, h, c) && !Has(info', c)
  {
    CompactedCoherent(hash, info, rank, base, laa0, info', laa);
    ChildAUMsIsScan(hash, info', h);
    forall c ensures ChildLink(info', h, c) <==> ChildLink(info, h, c) {
    }
  }
}
