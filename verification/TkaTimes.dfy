/** When AUMs count as committed, and that what was committed lately survives compaction. */
module TkaTimes {
  import opened Wrappers
  import opened TkaTypes
  import opened TkaState
  import opened TkaStore
  import opened TkaCompact
  import opened TkaMeaning
  import opened TkaAfter

  /** The commit makes a record for `h`, if there is none: it files the AUM, or a child of it. */
  ghost predicate Mentions(hash: HashFn, c: Commit, h: AUMHash) {
    hash(c.aum) == h || Parent(c.aum) == Some(h)
  }

  ghost predicate FirstMentionedAt(hash: HashFn, commits: seq<Commit>, h: AUMHash, i: int) {
    && 0 <= i < |commits| && Mentions(hash, commits[i], h)
    && forall j :: 0 <= j < i ==> !Mentions(hash, commits[j], h)
  }

  ghost predicate Filed(hash: HashFn, commits: seq<Commit>, h: AUMHash) {
    exists i :: 0 <= i < |commits| && hash(commits[i].aum) == h
  }

  /** What is recorded for `h` after some commits: its time is that of the first commit that mentions
      it, unless there was a record, whose time stays; and it is purged only if it was and its AUM
      was not filed again. */
  ghost predicate RecordedAt(hash: HashFn, info: Info, commits: seq<Commit>, h: AUMHash, later: Info) {
    && (h in info ==> h in later && later[h].created == info[h].created)
    && (h !in info ==> forall i :: FirstMentionedAt(hash, commits, h, i) ==> h in later && later[h].created == commits[i].now)
    && (h !in info && (forall i :: 0 <= i < |commits| ==> !Mentions(hash, commits[i], h)) ==> h !in later)
    && (h in later ==> (later[h].purged <==> h in info && info[h].purged && !Filed(hash, commits, h)))
  }

  lemma CommitOneRecorded(hash: HashFn, info: Info, c: Commit, h: AUMHash)
    ensures var later := CommitOne(hash, info, c.aum, c.now);
      && (h in later <==> h in info || Mentions(hash, c, h))
      && (h in later ==> later[h].created == if h in info then info[h].created else c.now)
      && (h in later ==> (later[h].purged <==> h in info && info[h].purged && hash(c.aum) != h))
  {
  }

  lemma FirstMentionSnoc(hash: HashFn, commits: seq<Commit>, h: AUMHash, i: int)
    requires commits != [] && FirstMentionedAt(hash, commits, h, i)
    ensures var n := |commits| - 1;
      if i < n then FirstMentionedAt(hash, commits[..n], h, i)
      else i == n && forall j :: 0 <= j < n ==> !Mentions(hash, commits[..n][j], h)
  {
  }

  lemma MentionedFirst(hash: HashFn, commits: seq<Commit>, h: AUMHash, n: nat) returns (i: nat)
    requires n < |commits| && Mentions(hash, commits[n], h)
    ensures i <= n && FirstMentionedAt(hash, commits, h, i)
  {
    i := 0;
    while !Mentions(hash, commits[i], h)
      invariant i <= n && forall j :: 0 <= j < i ==> !Mentions(hash, commits[j], h)
      decreases n - i
    {
      i := i + 1;
    }
  }

  lemma FiledSnoc(hash: HashFn, commits: seq<Commit>, h: AUMHash)
    requires commits != []
    ensures var n := |commits| - 1; Filed(hash, commits, h) <==> Filed(hash, commits[..n], h) || hash(commits[n].aum) == h
  {
    var n := |commits| - 1;
    if i :| 0 <= i < |commits[..n]| && hash(commits[..n][i].aum) == h {
      assert hash(commits[i].aum) == h;
    }
    if i :| 0 <= i < |commits| && hash(commits[i].aum) == h {
      assert i < n ==> hash(commits[..n][i].aum) == h;
    }
  }

  /** Over any commits, batch after batch and each at its own time. */
  lemma {:induction false} CommitsRecorded(hash: HashFn, info: Info, commits: seq<Commit>, h: AUMHash)
    ensures RecordedAt(hash, info, commits, h, CommitEach(hash, info, commits))
    decreases |commits|
  {
    if commits != [] {
      var n := |commits| - 1;
      var before := CommitEach(hash, info, commits[..n]);
      CommitsRecorded(hash, info, commits[..n], h);
      CommitOneRecorded(hash, before, commits[n], h);
      FiledSnoc(hash, commits, h);
      OneMoreRecorded(hash, info, commits, h, before, CommitEach(hash, info, commits));
    }
  }

  lemma OneMoreRecorded(hash: HashFn, info: Info, commits: seq<Commit>, h: AUMHash, before: Info, later: Info)
    requires commits != [] && RecordedAt(hash, info, commits[..|commits| - 1], h, before)
    requires var c := commits[|commits| - 1];
      && (h in later <==> h in before || Mentions(hash, c, h))
      && (h in later ==> later[h].created == if h in before then before[h].created else c.now)
      && (h in later ==> (later[h].purged <==> h in before && before[h].purged && hash(c.aum) != h))
      && (Filed(hash, commits, h) <==> Filed(hash, commits[..|commits| - 1], h) || hash(c.aum) == h)
    ensures RecordedAt(hash, info, commits, h, later)
  {
    var n := |commits| - 1;
    if h !in info {
      forall i | FirstMentionedAt(hash, commits, h, i) ensures h in later && later[h].created == commits[i].now {
        FirstMentionSnoc(hash, commits, h, i);
      }
      if forall i :: 0 <= i < |commits| ==> !Mentions(hash, commits[i], h) {
        assert forall i :: 0 <= i < n ==> !Mentions(hash, commits[..n][i], h);
      }
    }
  }

  /** An AUM that one of the updates is, or names as its parent. */
  ghost predicate Named(hash: HashFn, updates: seq<AUM>, h: AUMHash) {
    exists i :: 0 <= i < |updates| && (hash(updates[i]) == h || Parent(updates[i]) == Some(h))
  }

  lemma NamedFirst(hash: HashFn, updates: seq<AUM>, now: int, h: AUMHash)
    requires Named(hash, updates, h)
    ensures exists i :: FirstMentionedAt(hash, Batch(updates, now), h, i)
  {
    var i :| 0 <= i < |updates| && (hash(updates[i]) == h || Parent(updates[i]) == Some(h));
    assert Mentions(hash, Batch(updates, now)[i], h);
    var first := MentionedFirst(hash, Batch(updates, now), h, i);
  }

  /** One batch: what had no record before is recorded at `now`, as an AUM or as a parent, and
      everything else keeps its time, even if it was purged and is filed again. */
  lemma BatchTimes(hash: HashFn, info: Info, updates: seq<AUM>, now: int, h: AUMHash)
    ensures var out := CommitAll(hash, info, updates, now);
      && (h in info ==> h in out && out[h].created == info[h].created)
      && (h !in info && Named(hash, updates, h) ==> CommitTime(out, h) == Some(now))
      && (h in info ==> forall i :: 0 <= i < |updates| && hash(updates[i]) == h ==> CommitTime(out, h) == Some(info[h].created))
  {
    var commits := Batch(updates, now);
    BatchIsEach(hash, info, [], updates, now);
    assert [] + commits == commits;
    CommitsRecorded(hash, info, commits, h);
    if Named(hash, updates, h) {
      NamedFirst(hash, updates, now, h);
    }
    forall i | 0 <= i < |updates| && hash(updates[i]) == h ensures Filed(hash, commits, h) {
      assert hash(commits[i].aum) == h;
    }
  }

  // ----- Commit times and compaction -----

  /** On the active stretch, or recorded after `minTime`. */
  ghost predicate ActiveOrRecent(info: Info, rank: AUMHash -> nat, head: AUMHash, laa0: AUMHash, minTime: int, k: AUMHash)
    requires WellFounded(info, rank)
  {
    Between(info, rank, laa0, k, head) || (Has(info, k) && info[k].created > minTime)
  }

  /** `x` lies between the new ancestor and `d`, which is active or recent or descends from such a one. */
  ghost predicate NeededBy(
      info: Info, rank: AUMHash -> nat, head: AUMHash, minTime: int, laa0: AUMHash, laa: AUMHash, x: AUMHash, k: AUMHash, d: AUMHash)
    requires WellFounded(info, rank)
  {
    && ActiveOrRecent(info, rank, head, laa0, minTime, k)
    && Has(info, d) && Ancestor(info, rank, k, d) && Between(info, rank, laa, x, d)
  }

  lemma KeptIsNeeded(
      info: Info, rank: AUMHash -> nat, head: AUMHash, minTime: int, laa0: AUMHash, laa: AUMHash, x: AUMHash)
    returns (k: AUMHash, d: AUMHash)
    requires WellFounded(info, rank) && OnKeptChain(info, rank, Base(info, rank, head, laa0, minTime), laa, x)
    ensures NeededBy(info, rank, head, minTime, laa0, laa, x, k, d)
  {
    d :| d in Base(info, rank, head, laa0, minTime) && Between(info, rank, laa, x, d);
    k :| Root(info, rank, head, laa0, minTime, k) && Ancestor(info, rank, k, d);
  }

  /** After a compaction exactly those AUMs are left that lie between the new ancestor and an AUM
      which is active or recent, or descends from such a one. */
  lemma KeptExactly(
      info: Info, rank: AUMHash -> nat, head: AUMHash, minTime: int, laa0: AUMHash, info': Info, laa: AUMHash, x: AUMHash)
    requires WellFounded(info, rank) && Compacted(info, rank, Base(info, rank, head, laa0, minTime), laa0, info', laa)
    ensures Has(info', x) <==> Has(info, x) && exists k, d :: NeededBy(info, rank, head, minTime, laa0, laa, x, k, d)
  {
    var base := Base(info, rank, head, laa0, minTime);
    assert Stored(info', x) == if OnKeptChain(info, rank, base, laa, x) then Stored(info, x) else None;
    if OnKeptChain(info, rank, base, laa, x) {
      var k, d := KeptIsNeeded(info, rank, head, minTime, laa0, laa, x);
    }
    if k, d :| NeededBy(info, rank, head, minTime, laa0, laa, x, k, d) {
      RecentInBase(info, rank, head, minTime, laa0, k, d);
    }
  }

  /** An AUM that was first committed after `minTime`, at whatever point and whatever was committed
      since, is not purged by a compaction that keeps what is younger; nor is what descends from it. */
  lemma RecentIsKept(
      hash: HashFn, info: Info, commits: seq<Commit>, i: int, rank: AUMHash -> nat, head: AUMHash, minTime: int, laa0: AUMHash,
      info': Info, laa: AUMHash, h: AUMHash, d: AUMHash)
    requires h !in info && FirstMentionedAt(hash, commits, h, i) && commits[i].now > minTime
    requires var later := CommitEach(hash, info, commits);
      && WellFounded(later, rank) && Compacted(later, rank, Base(later, rank, head, laa0, minTime), laa0, info', laa)
      && Has(later, h) && Has(later, d) && Ancestor(later, rank, h, d)
    ensures Has(info', h) && Has(info', d)
  {
    var later := CommitEach(hash, info, commits);
    CommitsRecorded(hash, info, commits, h);
    assert ActiveOrRecent(later, rank, head, laa0, minTime, h) && Ancestor(later, rank, h, h);
    RecentInBase(later, rank, head, minTime, laa0, h, h);
    RecentInBase(later, rank, head, minTime, laa0, h, d);
    OneTreeRemains(later, rank, Base(later, rank, head, laa0, minTime), laa0, info', laa);
  }

  lemma RecentInBase(info: Info, rank: AUMHash -> nat, head: AUMHash, minTime: int, laa0: AUMHash, h: AUMHash, d: AUMHash)
    requires WellFounded(info, rank) && ActiveOrRecent(info, rank, head, laa0, minTime, h)
    requires Has(info, d) && Ancestor(info, rank, h, d)
    ensures d in Base(info, rank, head, laa0, minTime)
  {
    assert Root(info, rank, head, laa0, minTime, h);
  }
}
