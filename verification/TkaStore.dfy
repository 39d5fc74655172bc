/** AUM storage. `FS` is the file-system store with one record per hash, seen as a
    map; `Mem` is the in-memory store with its parent index. */
module TkaStore {
  import opened Wrappers
  import opened TkaTypes
  import opened TkaState

  /** What is recorded against one hash. A record can exist for a hash whose AUM was
      never stored, to hold its children. */
  datatype HashInfo = HashInfo(children: seq<AUMHash>, aum: Option<AUM>, created: int, purged: bool)

  type Info = map<AUMHash, HashInfo>

  // ----- Reading -----

  /** The AUM stored under a hash, if it exists and is not purged. */
  function Stored(info: Info, h: AUMHash): Option<AUM> {
    if h in info && !info[h].purged then info[h].aum else None
  }

  predicate Has(info: Info, h: AUMHash) {
    Stored(info, h).Some?
  }

  function ParentOf(info: Info, h: AUMHash): Option<AUMHash> {
    if Has(info, h) then Parent(Stored(info, h).value) else None
  }

  predicate IsCheckpoint(info: Info, h: AUMHash) {
    Has(info, h) && Stored(info, h).value.kind == Checkpoint
  }

  function AllAUMs(info: Info): set<AUMHash> {
    set h | h in info && Has(info, h)
  }

  /** The commit time is known for every unpurged record, with or without an AUM. */
  function CommitTime(info: Info, h: AUMHash): Option<int> {
    if h in info && !info[h].purged then Some(info[h].created) else None
  }

  function Kids(info: Info, h: AUMHash): seq<AUMHash> {
    if h in info then info[h].children else []
  }

  /** The hashes of the recorded children; a child that is no longer stored is an error. */
  function ChildAUMs(info: Info, h: AUMHash): Result<seq<AUMHash>, TkaError> {
    if forall i :: 0 <= i < |Kids(info, h)| ==> Has(info, Kids(info, h)[i])
    then Ok(Kids(info, h))
    else Err(ChildNotStored)
  }

  // ----- The index agrees with a full scan -----

  /** `c` was committed with parent `p` (and may have been purged since). */
  predicate ChildLink(info: Info, p: AUMHash, c: AUMHash) {
    c in info && info[c].aum.Some? && Parent(info[c].aum.value) == Some(p)
  }

  /** Records are filed under the AUM's hash, and `children` lists exactly the AUMs
      ever committed whose parent is that hash, each once. */
  ghost predicate Coherent(hash: HashFn, info: Info) {
    && (forall h :: h in info && info[h].aum.Some? ==> hash(info[h].aum.value) == h)
    && (forall p, c :: c in Kids(info, p) <==> ChildLink(info, p, c))
    && (forall p :: Distinct(Kids(info, p)))
  }

  function AddChild(children: seq<AUMHash>, h: AUMHash): seq<AUMHash> {
    if h in children then children else children + [h]
  }

  function RecordOrNew(info: Info, h: AUMHash, now: int): HashInfo {
    if h in info then info[h] else HashInfo([], None, now, false)
  }

  function LinkParent(info: Info, p: AUMHash, c: AUMHash, now: int): Info {
    var r := RecordOrNew(info, p, now);
    info[p := r.(children := AddChild(r.children, c))]
  }

  /** Files one AUM: the parent's record learns the child, then the AUM is stored. */
  function CommitOne(hash: HashFn, info: Info, a: AUM, now: int): Info {
    var h := hash(a);
    var linked := if Parent(a).Some? then LinkParent(info, Parent(a).value, h, now) else info;
    linked[h := RecordOrNew(linked, h, now).(aum := Some(a), purged := false)]
  }

  function CommitAll(hash: HashFn, info: Info, updates: seq<AUM>, now: int): Info {
    if updates == [] then info
    else CommitOne(hash, CommitAll(hash, info, updates[..|updates| - 1], now), updates[|updates| - 1], now)
  }

  function PurgeAll(info: Info, hs: set<AUMHash>): Info {
    map h | h in info :: if h in hs && Has(info, h) then info[h].(purged := true) else info[h]
  }

  /** No two different AUMs with one hash meet in the store. */
  ghost predicate NoClash(hash: HashFn, info: Info, a: AUM) {
    var h := hash(a);
    h in info && info[h].aum.Some? ==> info[h].aum.value == a
  }

  ghost predicate NoClashes(hash: HashFn, info: Info, updates: seq<AUM>) {
    && (forall i :: 0 <= i < |updates| ==> NoClash(hash, info, updates[i]))
    && CollisionFree(hash, updates, updates)
  }

  lemma CommitOneRecords(hash: HashFn, info: Info, a: AUM, now: int, h: AUMHash)
    requires NoClash(hash, info, a)
    ensures var out := CommitOne(hash, info, a, now);
      && Kids(out, h) == (if Parent(a) == Some(h) then AddChild(Kids(info, h), hash(a)) else Kids(info, h))
      && Stored(out, h) == (if h == hash(a) then Some(a) else Stored(info, h))
      && (h in out && out[h].aum.Some? <==> h == hash(a) || (h in info && info[h].aum.Some?))
      && (h in out && out[h].aum.Some? ==> out[h].aum.value == if h == hash(a) then a else info[h].aum.value)
  {
  }

  lemma CommitOneKeepsCoherent(hash: HashFn, info: Info, a: AUM, now: int)
    requires Coherent(hash, info) && NoClash(hash, info, a)
    ensures Coherent(hash, CommitOne(hash, info, a, now))
  {
    var out := CommitOne(hash, info, a, now);
    forall h | h in out && out[h].aum.Some? ensures hash(out[h].aum.value) == h {
      CommitOneRecords(hash, info, a, now, h);
    }
    forall p, c ensures c in Kids(out, p) <==> ChildLink(out, p, c) {
      CommitOneRecords(hash, info, a, now, p);
      CommitOneRecords(hash, info, a, now, c);
      assert c in Kids(info, p) <==> ChildLink(info, p, c);
    }
    forall p ensures Distinct(Kids(out, p)) {
      CommitOneRecords(hash, info, a, now, p);
    }
  }

  lemma CommitOneKeepsNoClashes(hash: HashFn, info: Info, updates: seq<AUM>, n: nat, now: int)
    requires n < |updates| && NoClashes(hash, info, updates)
    ensures NoClashes(hash, CommitOne(hash, info, updates[n], now), updates)
  {
    forall i | 0 <= i < |updates| ensures NoClash(hash, CommitOne(hash, info, updates[n], now), updates[i]) {
      CommitOneRecords(hash, info, updates[n], now, hash(updates[i]));
    }
  }

  lemma {:induction false} CommitPrefixCoherent(hash: HashFn, info: Info, updates: seq<AUM>, n: nat, now: int)
    requires n <= |updates| && Coherent(hash, info) && NoClashes(hash, info, updates)
    ensures var out := CommitAll(hash, info, updates[..n], now); Coherent(hash, out) && NoClashes(hash, out, updates)
  {
    if n > 0 {
      CommitPrefixCoherent(hash, info, updates, n - 1, now);
      assert updates[..n][..n - 1] == updates[..n - 1];
      var before := CommitAll(hash, info, updates[..n - 1], now);
      CommitOneKeepsCoherent(hash, before, updates[n - 1], now);
      CommitOneKeepsNoClashes(hash, before, updates, n - 1, now);
    }
  }

  /** The last of the updates filed under `h`, or what was stored before. */
  function LastCommitted(hash: HashFn, updates: seq<AUM>, h: AUMHash, before: Option<AUM>): Option<AUM> {
    if updates == [] then before
    else if hash(updates[|updates| - 1]) == h then Some(updates[|updates| - 1])
    else LastCommitted(hash, updates[..|updates| - 1], h, before)
  }

  /** After a commit every given AUM is stored under its hash, and no other AUM was touched. */
  lemma {:induction false} CommitAllStores(
      hash: HashFn, info: Info, updates: seq<AUM>, n: nat, now: int, h: AUMHash)
    requires n <= |updates| && Coherent(hash, info) && NoClashes(hash, info, updates)
    ensures Stored(CommitAll(hash, info, updates[..n], now), h)
         == LastCommitted(hash, updates[..n], h, Stored(info, h))
  {
    if n > 0 {
      CommitAllStores(hash, info, updates, n - 1, now, h);
      CommitPrefixCoherent(hash, info, updates, n - 1, now);
      assert updates[..n][..n - 1] == updates[..n - 1];
      var before := CommitAll(hash, info, updates[..n - 1], now);
      assert NoClash(hash, before, updates[n - 1]);
      CommitOneRecords(hash, before, updates[n - 1], now, h);
    }
  }

  lemma PurgeKeepsCoherent(hash: HashFn, info: Info, hs: set<AUMHash>)
    requires Coherent(hash, info)
    ensures Coherent(hash, PurgeAll(info, hs))
    ensures forall h :: Stored(PurgeAll(info, hs), h) == if h in hs then None else Stored(info, h)
  {
    var out := PurgeAll(info, hs);
    forall p, c ensures c in Kids(out, p) <==> ChildLink(out, p, c) {
      assert c in Kids(info, p) <==> ChildLink(info, p, c);
    }
    forall p ensures Distinct(Kids(out, p)) {
      assert Kids(out, p) == Kids(info, p);
    }
  }

  /** In a coherent store, asking the index for children gives the same answer as
      scanning every stored AUM, or an error exactly when a recorded child is gone. */
  lemma ChildAUMsIsScan(hash: HashFn, info: Info, h: AUMHash)
    requires Coherent(hash, info)
    ensures ChildAUMs(info, h).Err? <==>
      exists c :: ChildLink(info, h, c) && !Has(info, c)
    ensures ChildAUMs(info, h).Ok? ==>
      forall c :: c in ChildAUMs(info, h).value <==> ParentOf(info, c) == Some(h)
  {
    var kids := Kids(info, h);
    if i :| 0 <= i < |kids| && !Has(info, kids[i]) {
      assert kids[i] in kids;
    }
    if c :| ChildLink(info, h, c) && !Has(info, c) {
      assert c in kids;
    }
    forall c ensures c in kids && Has(info, c) <==> ParentOf(info, c) == Some(h) {
      assert c in kids <==> ChildLink(info, h, c);
    }
  }

  /** What readers of the index rely on: stored children and parent links agree. */
  ghost predicate IndexAgrees(info: Info) {
    && (forall h, c :: c in Kids(info, h) && Has(info, c) ==> ParentOf(info, c) == Some(h))
    && (forall c {:trigger ParentOf(info, c)} :: ParentOf(info, c).Some? ==> c in Kids(info, ParentOf(info, c).value))
  }

  lemma CoherentIndexAgrees(hash: HashFn, info: Info)
    requires Coherent(hash, info)
    ensures IndexAgrees(info)
  {
    forall h, c | c in Kids(info, h) && Has(info, c) ensures ParentOf(info, c) == Some(h) {
      assert ChildLink(info, h, c);
    }
    forall c {:trigger ParentOf(info, c)} | ParentOf(info, c).Some? ensures c in Kids(info, ParentOf(info, c).value) {
      assert ChildLink(info, ParentOf(info, c).value, c);
    }
  }

  // ----- Ancestry -----

  /** Parent links go down in rank, so no chain of parents comes back to itself. */
  ghost predicate WellFounded(info: Info, rank: AUMHash -> nat) {
    forall h {:trigger ParentOf(info, h)} :: ParentOf(info, h).Some? ==> rank(ParentOf(info, h).value) < rank(h)
  }

  /** `x` is `h` or is reached from it by parent links of stored AUMs. */
  ghost predicate Ancestor(info: Info, rank: AUMHash -> nat, x: AUMHash, h: AUMHash)
    requires WellFounded(info, rank)
    decreases rank(h)
  {
    x == h || (ParentOf(info, h).Some? && Ancestor(info, rank, x, ParentOf(info, h).value))
  }

  /** `x` lies on the chain from `h` back to `oldest`, ends included. */
  ghost predicate Between(info: Info, rank: AUMHash -> nat, oldest: AUMHash, x: AUMHash, h: AUMHash)
    requires WellFounded(info, rank)
  {
    Ancestor(info, rank, oldest, x) && Ancestor(info, rank, x, h)
  }

  /** The number of parent links from `h` back to its ancestor `x`. */
  ghost function Distance(info: Info, rank: AUMHash -> nat, h: AUMHash, x: AUMHash): nat
    requires WellFounded(info, rank) && Ancestor(info, rank, x, h)
    decreases rank(h)
  {
    if x == h then 0 else 1 + Distance(info, rank, ParentOf(info, h).value, x)
  }

  /** Ancestors rank lower, so ancestry has no cycles. */
  lemma {:induction false} AncestorRank(info: Info, rank: AUMHash -> nat, x: AUMHash, h: AUMHash)
    requires WellFounded(info, rank) && Ancestor(info, rank, x, h)
    ensures x == h || rank(x) < rank(h)
    decreases rank(h)
  {
    if x != h {
      AncestorRank(info, rank, x, ParentOf(info, h).value);
    }
  }

  lemma {:induction false} AncestorTransitive(info: Info, rank: AUMHash -> nat, x: AUMHash, y: AUMHash, h: AUMHash)
    requires WellFounded(info, rank)
    requires Ancestor(info, rank, x, y) && Ancestor(info, rank, y, h)
    ensures Ancestor(info, rank, x, h)
    decreases rank(h)
  {
    if y != h {
      AncestorTransitive(info, rank, x, y, ParentOf(info, h).value);
    }
  }

  lemma AncestorParent(info: Info, rank: AUMHash -> nat, x: AUMHash, h: AUMHash)
    requires WellFounded(info, rank)
    requires Ancestor(info, rank, x, h) && ParentOf(info, x).Some?
    ensures Ancestor(info, rank, ParentOf(info, x).value, h)
  {
    var p := ParentOf(info, x).value;
    assert Ancestor(info, rank, p, p);
    assert Ancestor(info, rank, p, x);
    AncestorTransitive(info, rank, p, x, h);
  }

  /** Of two ancestors of one AUM, one is an ancestor of the other. */
  lemma {:induction false} AncestorLinear(info: Info, rank: AUMHash -> nat, x: AUMHash, y: AUMHash, h: AUMHash)
    requires WellFounded(info, rank)
    requires Ancestor(info, rank, x, h) && Ancestor(info, rank, y, h)
    ensures Ancestor(info, rank, y, x) || Ancestor(info, rank, x, y)
    decreases rank(h)
  {
    if x != h && y != h {
      AncestorLinear(info, rank, x, y, ParentOf(info, h).value);
    }
  }

  /** Only the end of a chain can be an AUM that is not stored. */
  lemma {:induction false} AncestorStored(info: Info, rank: AUMHash -> nat, x: AUMHash, h: AUMHash)
    requires WellFounded(info, rank) && Ancestor(info, rank, x, h) && Has(info, x)
    ensures Has(info, h)
    decreases rank(h)
  {
    if x != h {
      assert ParentOf(info, h).Some?;
    }
  }

  /** Every proper ancestor is the parent of some AUM on the chain. */
  lemma {:induction false} AncestorChild(info: Info, rank: AUMHash -> nat, x: AUMHash, h: AUMHash) returns (y: AUMHash)
    requires WellFounded(info, rank)
    requires Ancestor(info, rank, x, h) && x != h
    ensures Ancestor(info, rank, y, h) && ParentOf(info, y) == Some(x)
    decreases rank(h)
  {
    var p := ParentOf(info, h).value;
    if p == x {
      y := h;
    } else {
      y := AncestorChild(info, rank, x, p);
    }
  }

  // ----- The store as an object -----

  class FS {
    const hash: HashFn
    var info: Info
    var lastActiveAncestor: Option<AUMHash>

    ghost predicate Valid()
      reads this
    {
      Coherent(hash, info)
    }

    constructor (hash: HashFn)
      ensures Valid() && this.hash == hash && info == map[] && lastActiveAncestor == None
    {
      this.hash := hash;
      info := map[];
      lastActiveAncestor := None;
    }

    method SetLastActiveAncestor(h: AUMHash)
      modifies this`lastActiveAncestor
      ensures lastActiveAncestor == Some(h)
    {
      lastActiveAncestor := Some(h);
    }

    /** Stores one AUM after recording it with its parent. */
    method CommitAUM(a: AUM, now: int)
      requires Valid() && NoClash(hash, info, a)
      modifies this`info
      ensures Valid()
      ensures info == CommitOne(hash, old(info), a, now)
    {
      CommitOneKeepsCoherent(hash, info, a, now);
      var h := hash(a);
      if Parent(a).Some? {
        var p := Parent(a).value;
        var record := RecordOrNew(info, p, now);
        var known := false;
        for i := 0 to |record.children|
          invariant known <==> h in record.children[..i]
        {
          if record.children[i] == h {
            known := true;
          }
        }
        assert record.children[..|record.children|] == record.children;
        if !known {
          record := record.(children := record.children + [h]);
        }
        info := info[p := record];
      }
      info := info[h := RecordOrNew(info, h, now).(aum := Some(a), purged := false)];
    }

    /** Stores AUMs one after another, keeping the child lists up to date. */
    method CommitVerifiedAUMs(updates: seq<AUM>, now: int)
      requires Valid() && NoClashes(hash, info, updates)
      modifies this`info
      ensures Valid()
      ensures info == CommitAll(hash, old(info), updates, now)
    {
      for n := 0 to |updates|
        invariant Valid() && NoClashes(hash, info, updates)
        invariant info == CommitAll(hash, old(info), updates[..n], now)
      {
        CommitOneKeepsNoClashes(hash, info, updates, n, now);
        CommitAUM(updates[n], now);
        assert updates[..n + 1][..n] == updates[..n];
      }
      assert updates[..|updates|] == updates;
    }

    /** Marks AUMs as deleted, one after another. */
    method PurgeAUMs(hs: seq<AUMHash>) returns (r: Result<(), TkaError>)
      modifies this`info
      ensures r.Ok? <==> forall i :: 0 <= i < |hs| ==> hs[i] in old(info)
      ensures r.Ok? ==> info == PurgeAll(old(info), Elems(hs))
    {
      assert info == PurgeAll(info, {});
      for n := 0 to |hs|
        invariant forall i :: 0 <= i < n ==> hs[i] in old(info)
        invariant info == PurgeAll(old(info), Elems(hs[..n]))
      {
        var h := hs[n];
        if h !in info {
          return Err(NotExist);
        }
        ElemsSnoc(hs, n);
        PurgeOne(old(info), Elems(hs[..n]), h);
        if info[h].aum.Some? && !info[h].purged {
          info := info[h := info[h].(purged := true)];
        }
      }
      assert hs[..|hs|] == hs;
      return Ok(());
    }
  }

  lemma PurgeOne(info: Info, hs: set<AUMHash>, h: AUMHash)
    requires h in info
    ensures var part := PurgeAll(info, hs);
      PurgeAll(info, hs + {h}) ==
        if part[h].aum.Some? && !part[h].purged then part[h := part[h].(purged := true)] else part
  {
  }

  // ----- The in-memory store -----

  type Index = map<AUMHash, seq<AUMHash>>

  function IndexAt(index: Index, p: AUMHash): seq<AUMHash> {
    if p in index then index[p] else []
  }

  predicate MemLink(aums: map<AUMHash, AUM>, p: AUMHash, c: AUMHash) {
    c in aums && Parent(aums[c]) == Some(p)
  }

  /** The index lists exactly the stored AUMs with that parent, each once. */
  ghost predicate Indexed(hash: HashFn, aums: map<AUMHash, AUM>, index: Index) {
    && (forall h :: h in aums ==> hash(aums[h]) == h)
    && (forall p, c :: c in IndexAt(index, p) <==> MemLink(aums, p, c))
    && (forall p :: Distinct(IndexAt(index, p)))
  }

  lemma MemCommitKeepsIndexed(hash: HashFn, aums: map<AUMHash, AUM>, index: Index, a: AUM, index': Index)
    requires Indexed(hash, aums, index)
    requires hash(a) in aums ==> aums[hash(a)] == a
    requires forall p ::
      IndexAt(index', p) == (if Parent(a) == Some(p) then AddChild(IndexAt(index, p), hash(a)) else IndexAt(index, p))
    ensures Indexed(hash, aums[hash(a) := a], index')
  {
    var aums' := aums[hash(a) := a];
    forall p, c ensures c in IndexAt(index', p) <==> MemLink(aums', p, c) {
      assert c in IndexAt(index, p) <==> MemLink(aums, p, c);
    }
    forall p ensures Distinct(IndexAt(index', p)) {
      assert Distinct(IndexAt(index, p));
    }
  }

  /** AUMs by hash, and for each hash the hashes of its children. */
  class Mem {
    const hash: HashFn
    var aums: map<AUMHash, AUM>
    var parentIndex: Index

    ghost predicate Valid()
      reads this
    {
      Indexed(hash, aums, parentIndex)
    }

    constructor (hash: HashFn)
      ensures Valid() && this.hash == hash && aums == map[]
    {
      this.hash := hash;
      aums := map[];
      parentIndex := map[];
    }

    method CommitAUM(a: AUM)
      requires Valid()
      requires hash(a) in aums ==> aums[hash(a)] == a
      modifies this
      ensures Valid()
      ensures aums == old(aums)[hash(a) := a]
    {
      ghost var before := parentIndex;
      var h := hash(a);
      if Parent(a).Some? {
        var p := Parent(a).value;
        var known := false;
        var siblings := IndexAt(parentIndex, p);
        for i := 0 to |siblings|
          invariant known <==> h in siblings[..i]
        {
          if siblings[i] == h {
            known := true;
          }
        }
        assert siblings[..|siblings|] == siblings;
        if !known {
          parentIndex := parentIndex[p := siblings + [h]];
        }
      }
      MemCommitKeepsIndexed(hash, aums, before, a, parentIndex);
      aums := aums[h := a];
    }

    method CommitVerifiedAUMs(updates: seq<AUM>)
      requires Valid() && CollisionFree(hash, updates, updates)
      requires forall i :: 0 <= i < |updates| && hash(updates[i]) in aums ==> aums[hash(updates[i])] == updates[i]
      modifies this
      ensures Valid()
      ensures forall i :: 0 <= i < |updates| ==> hash(updates[i]) in aums && aums[hash(updates[i])] == updates[i]
      ensures forall h :: h in old(aums) ==> h in aums && aums[h] == old(aums)[h]
      ensures forall h :: h in aums ==> h in old(aums) || exists i :: 0 <= i < |updates| && hash(updates[i]) == h
    {
      for n := 0 to |updates|
        invariant Valid()
        invariant forall i :: 0 <= i < |updates| && hash(updates[i]) in aums ==> aums[hash(updates[i])] == updates[i]
        invariant forall i :: 0 <= i < n ==> hash(updates[i]) in aums
        invariant forall h :: h in old(aums) ==> h in aums && aums[h] == old(aums)[h]
        invariant forall h :: h in aums ==> h in old(aums) || exists i :: 0 <= i < n && hash(updates[i]) == h
      {
        CommitAUM(updates[n]);
      }
    }

    /** The children of a hash: the index gives what a scan over all AUMs would. */
    method ChildAUMs(prev: AUMHash) returns (out: seq<AUM>)
      requires Valid()
      ensures forall h :: h in aums ==> (aums[h] in out <==> Parent(aums[h]) == Some(prev))
      ensures forall a :: a in out ==> hash(a) in aums && aums[hash(a)] == a
      ensures Distinct(out)
    {
      out := [];
      var index := IndexAt(parentIndex, prev);
      for i := 0 to |index|
        invariant |out| == i
        invariant forall j :: 0 <= j < i ==> index[j] in aums && out[j] == aums[index[j]]
      {
        assert index[i] in index;
        out := out + [aums[index[i]]];
      }
      forall h | h in aums ensures aums[h] in out <==> Parent(aums[h]) == Some(prev) {
        assert h in index <==> MemLink(aums, prev, h);
        if aums[h] in out {
          var j :| 0 <= j < |out| && out[j] == aums[h];
          assert hash(aums[index[j]]) == index[j];
          assert h == index[j];
        }
      }
      forall i, j | 0 <= i < j < |out| ensures out[i] != out[j] {
        assert hash(out[i]) == index[i] && hash(out[j]) == index[j];
      }
    }

    /** A head is a stored AUM that no stored AUM names as its parent. */
    method Heads() returns (out: seq<AUM>)
      requires Valid()
      ensures forall h :: h in aums ==> (aums[h] in out <==> forall c :: !MemLink(aums, h, c))
      ensures forall a :: a in out ==> hash(a) in aums && aums[hash(a)] == a
      ensures Distinct(out)
    {
      out := [];
      var rest := aums.Keys;
      while rest != {}
        invariant rest <= aums.Keys
        invariant forall a :: a in out ==> hash(a) in aums.Keys - rest && aums[hash(a)] == a
        invariant forall h :: h in aums.Keys - rest ==> (aums[h] in out <==> IndexAt(parentIndex, h) == [])
        invariant Distinct(out)
      {
        var h :| h in rest;
        assert hash(aums[h]) == h;
        assert aums[h] !in out;
        if |IndexAt(parentIndex, hash(aums[h]))| == 0 {
          out := out + [aums[h]];
        }
        rest := rest - {h};
        assert forall x :: x in aums ==> hash(aums[x]) == x;
      }
      forall h | h in aums
        ensures IndexAt(parentIndex, h) == [] <==> forall c :: !MemLink(aums, h, c)
      {
        assert forall c :: c in IndexAt(parentIndex, h) <==> MemLink(aums, h, c);
        if IndexAt(parentIndex, h) != [] {
          assert IndexAt(parentIndex, h)[0] in IndexAt(parentIndex, h);
        }
      }
    }
  }
}
