/** Signature weight and fork resolution: which of several children every node picks. */
module TkaWeight {
  import opened Wrappers
  import opened TkaTypes
  import opened TkaState

  const UINT_RANGE := 0x1_0000_0000_0000_0000

  /** The votes of the keys named in `ids`, each named key counted once. */
  function WeightOf(keys: seq<Key>, ids: set<Bytes>): nat {
    if keys == [] then 0
    else if ID(keys[0]).Some? && ID(keys[0]).value in ids
    then keys[0].votes + WeightOf(keys[1..], ids - {ID(keys[0]).value})
    else WeightOf(keys[1..], ids)
  }

  function TotalVotes(keys: seq<Key>): nat {
    if keys == [] then 0 else keys[0].votes + TotalVotes(keys[1..])
  }

  function SignerIDs(sigs: seq<Signature>): set<Bytes> {
    set i | 0 <= i < |sigs| :: sigs[i].keyID
  }

  /** However many signatures there are, the weight is at most all votes of the state. */
  lemma {:induction false} WeightBounded(keys: seq<Key>, ids: set<Bytes>)
    ensures WeightOf(keys, ids) <= TotalVotes(keys)
  {
    if keys != [] {
      if ID(keys[0]).Some? && ID(keys[0]).value in ids {
        WeightBounded(keys[1..], ids - {ID(keys[0]).value});
      } else {
        WeightBounded(keys[1..], ids);
      }
    }
  }

  /** One more signer adds the votes of its key, or nothing if the key is unknown. */
  lemma {:induction false} WeightOfOneMore(keys: seq<Key>, ids: set<Bytes>, id: Bytes)
    requires ValidKeys(keys) && id !in ids
    ensures WeightOf(keys, ids + {id}) ==
      WeightOf(keys, ids) + match GetKey(keys, id) case Ok(k) => k.votes case Err(_) => 0
  {
    if keys != [] {
      assert ValidKey(keys[0]);
      var first := ID(keys[0]).value;
      if first == id {
        assert ids + {id} - {first} == ids;
      } else if first in ids {
        assert ids + {id} - {first} == ids - {first} + {id};
        WeightOfOneMore(keys[1..], ids - {first}, id);
      } else {
        WeightOfOneMore(keys[1..], ids, id);
      }
    }
  }

  /** Reordering or repeating signatures does not change the weight. */
  lemma WeightIgnoresOrderAndRepeats(keys: seq<Key>, xs: seq<Signature>, ys: seq<Signature>)
    requires forall x :: x in xs ==> exists y :: y in ys && y.keyID == x.keyID
    requires forall y :: y in ys ==> exists x :: x in xs && x.keyID == y.keyID
    ensures WeightOf(keys, SignerIDs(xs)) == WeightOf(keys, SignerIDs(ys))
  {
    forall id ensures id in SignerIDs(xs) <==> id in SignerIDs(ys) {
      if i :| 0 <= i < |xs| && xs[i].keyID == id {
        assert xs[i] in xs;
      }
      if i :| 0 <= i < |ys| && ys[i].keyID == id {
        assert ys[i] in ys;
      }
    }
    assert SignerIDs(xs) == SignerIDs(ys);
  }

  /** The weight of an AUM; `None` stands for a panic. */
  method Weight(a: AUM, s: State) returns (w: Option<nat>)
    ensures ValidSignatures(a.signatures) && ValidKeys(s.keys) ==>
      w == Some(WeightOf(s.keys, SignerIDs(a.signatures)) % UINT_RANGE)
  {
    var weight: nat := 0;
    NoSigners(s.keys);
    var seen: set<Bytes> := {};
    ghost var signed: set<Bytes> := {};
    for i := 0 to |a.signatures|
      invariant signed == SignerIDs(a.signatures[..i]) && seen <= signed
      invariant ValidKeys(s.keys) ==> weight == WeightOf(s.keys, signed) % UINT_RANGE
      invariant ValidKeys(s.keys) ==> forall id :: id in signed && id !in seen ==> GetKey(s.keys, id) == Err(NoSuchKey)
    {
      var id := a.signatures[i].keyID;
      if |id| != 32 {
        return None;
      }
      SignersSnoc(a.signatures, i);
      var k := GetKey(s.keys, id);
      if ValidKeys(s.keys) {
        GetKeyErr(s.keys, id);
        if id !in signed {
          WeightOfOneMore(s.keys, signed, id);
        } else {
          assert signed + {id} == signed;
        }
      }
      signed := signed + {id};
      if k.Err? {
        if k.error == NoSuchKey {
          continue;
        }
        return None;
      }
      if id in seen {
        continue;
      }
      weight := (weight + k.value.votes) % UINT_RANGE;
      seen := seen + {id};
    }
    assert a.signatures[..|a.signatures|] == a.signatures;
    return Some(weight);
  }

  lemma {:induction false} NoSigners(keys: seq<Key>)
    ensures WeightOf(keys, {}) == 0
  {
    if keys != [] {
      NoSigners(keys[1..]);
    }
  }

  lemma SignersSnoc(sigs: seq<Signature>, i: nat)
    requires i < |sigs|
    ensures SignerIDs(sigs[..i + 1]) == SignerIDs(sigs[..i]) + {sigs[i].keyID}
  {
    var s, t := sigs[..i], sigs[..i + 1];
    forall id ensures id in SignerIDs(t) <==> id in SignerIDs(s) || id == sigs[i].keyID {
      if j :| 0 <= j < |t| && t[j].keyID == id {
        assert j < i ==> s[j].keyID == id;
      }
      if j :| 0 <= j < |s| && s[j].keyID == id {
        assert t[j].keyID == id;
      }
      assert t[i] == sigs[i];
    }
  }

  // ----- Fork resolution -----

  /** Lexicographic order of byte strings. */
  predicate BytesLess(x: Bytes, y: Bytes) {
    if y == [] then false
    else if x == [] then true
    else if x[0] == y[0] then BytesLess(x[1..], y[1..])
    else x[0] < y[0]
  }

  lemma {:induction false} BytesTrichotomy(x: Bytes, y: Bytes)
    ensures x == y <==> !BytesLess(x, y) && !BytesLess(y, x)
    ensures !(BytesLess(x, y) && BytesLess(y, x))
  {
    if x != [] && y != [] {
      assert x == [x[0]] + x[1..] && y == [y[0]] + y[1..];
      if x[0] == y[0] {
        BytesTrichotomy(x[1..], y[1..]);
      }
    }
  }

  /** `x` comes before `y`: at the first place where they differ it has the lower byte, or it ends. */
  ghost predicate Before(x: Bytes, y: Bytes) {
    exists n :: 0 <= n <= |x| && n < |y| && x[..n] == y[..n] && (n == |x| || x[n] < y[n])
  }

  lemma {:induction false} BytesLessIsBefore(x: Bytes, y: Bytes)
    ensures BytesLess(x, y) <==> Before(x, y)
  {
    if y == [] {
    } else if x == [] {
      assert x[..0] == y[..0];
    } else if x[0] == y[0] {
      BytesLessIsBefore(x[1..], y[1..]);
      if n :| 0 <= n <= |x[1..]| && n < |y[1..]| && x[1..][..n] == y[1..][..n] && (n == |x[1..]| || x[1..][n] < y[1..][n]) {
        assert x[..n + 1] == [x[0]] + x[1..][..n] && y[..n + 1] == [y[0]] + y[1..][..n];
      }
      if n :| 0 <= n <= |x| && n < |y| && x[..n] == y[..n] && (n == |x| || x[n] < y[n]) {
        assert n > 0 && x[1..][..n - 1] == x[..n][1..] && y[1..][..n - 1] == y[..n][1..];
      }
    } else {
      assert x[..0] == y[..0];
      forall n | 0 < n <= |x| && n < |y| ensures x[..n] != y[..n] {
        assert x[..n][0] == x[0] && y[..n][0] == y[0];
      }
    }
  }

  lemma {:induction false} BytesTransitive(x: Bytes, y: Bytes, z: Bytes)
    requires BytesLess(x, y) && BytesLess(y, z)
    ensures BytesLess(x, z)
  {
    if x != [] && x[0] == y[0] && y[0] == z[0] {
      BytesTransitive(x[1..], y[1..], z[1..]);
    }
  }

  function AUMWeight(s: State, a: AUM): nat {
    WeightOf(s.keys, SignerIDs(a.signatures)) % UINT_RANGE
  }

  /** `a` is preferred to `b`: more weight, else the removal of a key, else the lower hash. */
  predicate Preferred(hash: HashFn, s: State, a: AUM, b: AUM) {
    if AUMWeight(s, a) != AUMWeight(s, b) then AUMWeight(s, a) > AUMWeight(s, b)
    else if a.kind != b.kind && (a.kind == RemoveKey || b.kind == RemoveKey) then a.kind == RemoveKey
    else BytesLess(hash(a).bytes, hash(b).bytes)
  }

  ghost predicate IsPick(hash: HashFn, s: State, candidates: set<AUM>, a: AUM) {
    a in candidates && forall b :: b in candidates && b != a ==> Preferred(hash, s, a, b)
  }

  lemma PreferredTransitive(hash: HashFn, s: State, a: AUM, b: AUM, c: AUM)
    requires Preferred(hash, s, a, b) && Preferred(hash, s, b, c)
    ensures Preferred(hash, s, a, c)
  {
    if BytesLess(hash(a).bytes, hash(b).bytes) && BytesLess(hash(b).bytes, hash(c).bytes) {
      BytesTransitive(hash(a).bytes, hash(b).bytes, hash(c).bytes);
    }
  }

  lemma PreferredTotal(hash: HashFn, s: State, a: AUM, b: AUM)
    ensures Preferred(hash, s, a, b) || Preferred(hash, s, b, a) || hash(a) == hash(b)
    ensures !(Preferred(hash, s, a, b) && Preferred(hash, s, b, a))
  {
    BytesTrichotomy(hash(a).bytes, hash(b).bytes);
  }

  /** Consensus: the pick depends only on the set of candidates, not on the order in which a
      node happens to store or receive them. */
  lemma PickIsUnique(hash: HashFn, s: State, candidates: set<AUM>, a: AUM, b: AUM)
    requires IsPick(hash, s, candidates, a) && IsPick(hash, s, candidates, b)
    ensures a == b
  {
    PreferredTotal(hash, s, a, b);
  }

  /** The rules of the pick, one after the other: no candidate weighs more; if one that weighs as
      much removes a key, so does the pick; and among those that weigh as much and do so too, or do
      not either, its hash is the lowest. */
  ghost predicate WinsByRules(hash: HashFn, s: State, candidates: seq<AUM>, a: AUM) {
    && a in candidates
    && (forall b :: b in candidates ==> AUMWeight(s, b) <= AUMWeight(s, a))
    && (forall b :: b in candidates && AUMWeight(s, b) == AUMWeight(s, a) && b.kind == RemoveKey ==> a.kind == RemoveKey)
    && (forall b :: b in candidates && b != a && AUMWeight(s, b) == AUMWeight(s, a) && (b.kind == RemoveKey <==> a.kind == RemoveKey) ==>
          Before(hash(a).bytes, hash(b).bytes))
  }

  lemma PickWins(hash: HashFn, s: State, candidates: seq<AUM>, a: AUM)
    requires IsPick(hash, s, Elems(candidates), a)
    ensures WinsByRules(hash, s, candidates, a)
  {
    forall b | b in candidates && b != a ensures Preferred(hash, s, a, b) {
      assert b in Elems(candidates);
    }
    forall b | b in candidates && b != a && BytesLess(hash(a).bytes, hash(b).bytes) ensures Before(hash(a).bytes, hash(b).bytes) {
      BytesLessIsBefore(hash(a).bytes, hash(b).bytes);
    }
  }

  /** Picks among a nonempty list of candidates: the first of the list once sorted. */
  method PickNextAUM(hash: HashFn, s: State, candidates: seq<AUM>) returns (pick: AUM)
    requires candidates != []
    requires CollisionFree(hash, candidates, candidates)
    ensures IsPick(hash, s, Elems(candidates), pick)
    ensures WinsByRules(hash, s, candidates, pick)
  {
    pick := candidates[0];
    for i := 1 to |candidates|
      invariant IsPick(hash, s, Elems(candidates[..i]), pick)
    {
      var c := candidates[i];
      ElemsSnoc(candidates, i);
      PreferredTotal(hash, s, pick, c);
      if Preferred(hash, s, c, pick) {
        forall b | b in Elems(candidates[..i]) && b != c ensures Preferred(hash, s, c, b) {
          if b != pick {
            PreferredTransitive(hash, s, c, pick, b);
          }
        }
        pick := c;
      } else if c != pick {
        assert pick in candidates[..i];
        var j :| 0 <= j < i && candidates[j] == pick;
        assert hash(candidates[j]) == hash(candidates[i]) ==> candidates[j] == candidates[i];
      }
    }
    assert candidates[..|candidates|] == candidates;
    PickWins(hash, s, candidates, pick);
  }
}
