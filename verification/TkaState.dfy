/** The state machine of the key authority: applying AUMs and replaying chains. */
module TkaState {
  import opened Wrappers
  import opened TkaTypes

  type HashFn = AUM -> AUMHash

  /** The first key with the given ID; a key of unknown kind met before it is an error. */
  function GetKey(keys: seq<Key>, id: Bytes): (r: Result<Key, TkaError>)
    ensures r.Ok? ==> r.value in keys && ID(r.value) == Some(id)
  {
    if keys == [] then Err(NoSuchKey)
    else if ID(keys[0]).None? then Err(UnknownKeyKind)
    else if ID(keys[0]) == Some(id) then Ok(keys[0])
    else GetKey(keys[1..], id)
  }

  /** The keys with every occurrence of `id` replaced by `k`. */
  function ReplaceKey(keys: seq<Key>, id: Bytes, k: Key): Result<seq<Key>, TkaError> {
    if forall i :: 0 <= i < |keys| ==> ID(keys[i]).Some?
    then Ok(seq(|keys|, i requires 0 <= i < |keys| => if ID(keys[i]) == Some(id) then k else keys[i]))
    else Err(UnknownKeyKind)
  }

  /** The keys without the first occurrence of `id`. */
  function DropKey(keys: seq<Key>, id: Bytes): Result<seq<Key>, TkaError> {
    if keys == [] then Err(NoSuchKey)
    else if ID(keys[0]).None? then Err(UnknownKeyKind)
    else if ID(keys[0]) == Some(id) then Ok(keys[1..])
    else
      match DropKey(keys[1..], id)
      case Ok(rest) => Ok([keys[0]] + rest)
      case Err(e) => Err(e)
  }

  predicate ParentMatches(s: State, update: AUM) {
    s.last.None? || update.prev == Some(s.last.value.bytes)
  }

  function UpdatedKey(k: Key, update: AUM): Key {
    var k1 := if update.votes.Some? then k.(votes := update.votes.value) else k;
    if update.meta.Some? then k1.(meta := update.meta) else k1
  }

  /** The state that one verified AUM leads to. */
  ghost function Apply(hash: HashFn, s: State, update: AUM): Result<State, TkaError> {
    var next := s.(last := Some(hash(update)));
    if !ParentMatches(s, update) then Err(ParentMismatch)
    else
      match update.kind
      case NoOp => Ok(next)
      case Checkpoint =>
        if update.state.None? then Err(MissingState)
        else if update.state.value.id1 != s.id1 || update.state.value.id2 != s.id2 then Err(StateIDMismatch)
        else Ok(update.state.value.(last := Some(hash(update))))
      case AddKey =>
        if update.key.None? then Err(MissingKey)
        else if ID(update.key.value).None? then Err(UnknownKeyKind)
        else if GetKey(s.keys, ID(update.key.value).value).Ok? then Err(KeyExists)
        else Ok(next.(keys := s.keys + [update.key.value]))
      case UpdateKey =>
        (match GetKey(s.keys, KeyIDOf(update))
         case Err(e) => Err(e)
         case Ok(k) =>
           if !ValidKey(UpdatedKey(k, update)) then Err(InvalidKey)
           else
             match ReplaceKey(s.keys, KeyIDOf(update), UpdatedKey(k, update))
             case Err(e) => Err(e)
             case Ok(keys) => Ok(next.(keys := keys)))
      case RemoveKey =>
        (match DropKey(s.keys, KeyIDOf(update))
         case Err(e) => Err(e)
         case Ok(keys) => Ok(next.(keys := keys)))
      case Other(_) => Ok(next)
  }

  /** Applies a list of AUMs in order. */
  ghost function Replay(hash: HashFn, s: State, updates: seq<AUM>): Result<State, TkaError>
    decreases |updates|
  {
    if updates == [] then Ok(s)
    else
      match Apply(hash, s, updates[0])
      case Err(e) => Err(e)
      case Ok(s1) => Replay(hash, s1, updates[1..])
  }

  lemma {:induction false} ReplayAppend(hash: HashFn, s: State, xs: seq<AUM>, ys: seq<AUM>)
    ensures Replay(hash, s, xs + ys)
         == match Replay(hash, s, xs) case Ok(s1) => Replay(hash, s1, ys) case Err(e) => Err(e)
    decreases |xs|
  {
    if xs == [] {
      assert xs + ys == ys;
    } else {
      assert (xs + ys)[1..] == xs[1..] + ys;
      var first := Apply(hash, s, xs[0]);
      if first.Ok? {
        ReplayAppend(hash, first.value, xs[1..], ys);
      }
    }
  }

  // ----- What every applied AUM keeps -----

  /** The properties that hold of every state of a running authority. */
  ghost predicate ValidState(s: State) {
    ValidKeys(s.keys) && DistinctIDs(s.keys)
  }

  lemma {:induction false} GetKeyErr(keys: seq<Key>, id: Bytes)
    requires ValidKeys(keys)
    ensures GetKey(keys, id) == Err(NoSuchKey) <==> forall i :: 0 <= i < |keys| ==> ID(keys[i]) != Some(id)
    ensures GetKey(keys, id).Err? ==> GetKey(keys, id) == Err(NoSuchKey)
  {
    if keys != [] {
      assert ValidKey(keys[0]);
      GetKeyErr(keys[1..], id);
    }
  }

  /** Dropping a key that exists removes exactly that key. */
  lemma {:induction false} DropKeyKeeps(keys: seq<Key>, id: Bytes)
    requires ValidKeys(keys) && DistinctIDs(keys)
    ensures DropKey(keys, id).Ok? <==> exists i :: 0 <= i < |keys| && ID(keys[i]) == Some(id)
    ensures DropKey(keys, id).Ok? ==>
      exists i :: 0 <= i < |keys| && ID(keys[i]) == Some(id) && DropKey(keys, id).value == keys[..i] + keys[i + 1..]
    ensures DropKey(keys, id).Ok? ==> ValidKeys(DropKey(keys, id).value) && DistinctIDs(DropKey(keys, id).value)
  {
    if i :| 0 <= i < |keys| && ID(keys[i]) == Some(id) {
      forall j | 0 <= j < i ensures ID(keys[j]).Some? && ID(keys[j]) != Some(id) {
        assert ValidKey(keys[j]);
      }
      DropKeyAt(keys, id, i);
      assert keys[i..][1..] == keys[i + 1..];
    } else {
      forall j | 0 <= j < |keys| ensures ID(keys[j]).Some? && ID(keys[j]) != Some(id) {
        assert ValidKey(keys[j]);
      }
      DropKeyAt(keys, id, |keys|);
    }
  }

  lemma ReplaceKeyKeeps(keys: seq<Key>, id: Bytes, k: Key)
    requires ValidKeys(keys) && DistinctIDs(keys)
    requires ValidKey(k) && ID(k) == Some(id)
    ensures ReplaceKey(keys, id, k).Ok?
    ensures var r := ReplaceKey(keys, id, k).value; ValidKeys(r) && DistinctIDs(r) && |r| == |keys|
  {
    forall i | 0 <= i < |keys| ensures ID(keys[i]).Some? {
      assert ValidKey(keys[i]);
    }
    var r := ReplaceKey(keys, id, k).value;
    forall i | 0 <= i < |r| ensures ValidKey(r[i]) && ID(r[i]) == ID(keys[i]) {
      assert ValidKey(keys[i]);
    }
  }

  // ----- What an AUM does to the keys -----

  /** Putting in a key under its own ID is seen by looking it up, and by no other lookup. */
  lemma {:induction false} ReplacedIsFound(keys: seq<Key>, id: Bytes, k: Key, x: Bytes)
    requires ReplaceKey(keys, id, k).Ok? && ID(k) == Some(id)
    ensures var r := ReplaceKey(keys, id, k).value;
      GetKey(r, x) == if x == id && GetKey(keys, id).Ok? then Ok(k) else GetKey(keys, x)
  {
    var r := ReplaceKey(keys, id, k).value;
    if keys == [] {
      assert r == [];
    } else {
      assert ReplaceKey(keys[1..], id, k).Ok? && r[1..] == ReplaceKey(keys[1..], id, k).value;
      ReplacedIsFound(keys[1..], id, k, x);
      assert r[0] == if ID(keys[0]) == Some(id) then k else keys[0];
    }
  }

  lemma {:induction false} AddedIsFound(keys: seq<Key>, k: Key, x: Bytes)
    requires ValidKeys(keys)
    ensures GetKey(keys + [k], x) == if GetKey(keys, x).Ok? then GetKey(keys, x) else GetKey([k], x)
  {
    if keys == [] {
      assert keys + [k] == [k];
    } else {
      assert ValidKey(keys[0]);
      assert (keys + [k])[1..] == keys[1..] + [k];
      AddedIsFound(keys[1..], k, x);
    }
  }

  lemma {:induction false} DroppedIsGone(keys: seq<Key>, id: Bytes, x: Bytes)
    requires ValidKeys(keys) && DistinctIDs(keys) && DropKey(keys, id).Ok?
    ensures GetKey(DropKey(keys, id).value, x) == if x == id then Err(NoSuchKey) else GetKey(keys, x)
  {
    assert ValidKey(keys[0]);
    if ID(keys[0]) == Some(id) {
      GetKeyErr(keys[1..], id);
      assert forall i :: 0 <= i < |keys[1..]| ==> ID(keys[1..][i]) != Some(id);
    } else {
      DroppedIsGone(keys[1..], id, x);
      assert DropKey(keys, id).value[1..] == DropKey(keys[1..], id).value;
    }
  }

  /** The votes and metadata that an update sets, and the old ones where it sets none. */
  ghost predicate IsUpdated(old_: Key, a: AUM, k: Key) {
    && k.kind == old_.kind && k.public == old_.public
    && (a.votes.Some? ==> k.votes == a.votes.value) && (a.votes.None? ==> k.votes == old_.votes)
    && (a.meta.Some? ==> k.meta == a.meta) && (a.meta.None? ==> k.meta == old_.meta)
  }

  /** What one AUM means for whoever looks up the key `x` afterwards: an added key is found, a
      removed one is not, an updated one has what the update set, a checkpoint has what it says,
      and nothing else changes. */
  lemma ApplyMeans(hash: HashFn, s: State, a: AUM, x: Bytes)
    requires ValidState(s) && Apply(hash, s, a).Ok?
    ensures var t := Apply(hash, s, a).value;
      var before, after := GetKey(s.keys, x), GetKey(t.keys, x);
      match a.kind
      case AddKey => a.key.Some? && if ID(a.key.value) == Some(x) then before.Err? && after == Ok(a.key.value) else after == before
      case RemoveKey => if x == KeyIDOf(a) then before.Ok? && after == Err(NoSuchKey) else after == before
      case UpdateKey =>
        if x == KeyIDOf(a) then before.Ok? && after.Ok? && IsUpdated(before.value, a, after.value) else after == before
      case Checkpoint => a.state.Some? && t == a.state.value.(last := t.last)
      case _ => t.keys == s.keys
  {
    match a.kind
    case AddKey =>
      AddedIsFound(s.keys, a.key.value, x);
      GetKeyErr(s.keys, x);
    case RemoveKey =>
      DroppedIsGone(s.keys, KeyIDOf(a), x);
      DropKeyKeeps(s.keys, KeyIDOf(a));
      GetKeyErr(s.keys, KeyIDOf(a));
    case UpdateKey =>
      ReplacedIsFound(s.keys, KeyIDOf(a), UpdatedKey(GetKey(s.keys, KeyIDOf(a)).value, a), x);
    case _ =>
  }

  /** An AUM that is no checkpoint changes nothing but keys and the last hash. */
  lemma ApplyKeepsRest(hash: HashFn, s: State, a: AUM)
    requires Apply(hash, s, a).Ok? && a.kind != Checkpoint
    ensures var t := Apply(hash, s, a).value; t == s.(keys := t.keys, last := t.last)
  {
  }

  /** One well-formed AUM keeps the authority valid and its state IDs fixed. */
  lemma ApplyKeepsValid(hash: HashFn, s: State, a: AUM)
    requires ValidState(s) && ValidAUM(a)
    requires Apply(hash, s, a).Ok?
    ensures var t := Apply(hash, s, a).value;
      ValidState(t) && t.id1 == s.id1 && t.id2 == s.id2 && t.last == Some(hash(a))
  {
    match a.kind
    case AddKey =>
      GetKeyErr(s.keys, ID(a.key.value).value);
    case UpdateKey =>
      var k := GetKey(s.keys, KeyIDOf(a)).value;
      ReplaceKeyKeeps(s.keys, KeyIDOf(a), UpdatedKey(k, a));
    case RemoveKey =>
      DropKeyKeeps(s.keys, KeyIDOf(a));
    case _ =>
  }

  /** Over every run of well-formed AUMs: keys stay valid and distinct, the state
      IDs never change, and the last hash is the hash of the last AUM. */
  lemma {:induction false} ReplayKeepsValid(hash: HashFn, s: State, updates: seq<AUM>)
    requires ValidState(s)
    requires forall i :: 0 <= i < |updates| ==> ValidAUM(updates[i])
    requires Replay(hash, s, updates).Ok?
    ensures var t := Replay(hash, s, updates).value;
      && ValidState(t) && t.id1 == s.id1 && t.id2 == s.id2
      && t.last == (if updates == [] then s.last else Some(hash(updates[|updates| - 1])))
    decreases |updates|
  {
    if updates != [] {
      ApplyKeepsValid(hash, s, updates[0]);
      ReplayKeepsValid(hash, Apply(hash, s, updates[0]).value, updates[1..]);
    }
  }

  // ----- A hash names one history -----

  /** Parent links among these AUMs never go up in rank: no AUM is its own ancestor. */
  ghost predicate Ranked(hash: HashFn, rank: AUMHash -> nat, updates: seq<AUM>) {
    forall i :: 0 <= i < |updates| ==> (Parent(updates[i]).Some? ==>
      rank(Parent(updates[i]).value) < rank(hash(updates[i])))
  }

  ghost predicate CollisionFree(hash: HashFn, xs: seq<AUM>, ys: seq<AUM>) {
    forall i, j :: 0 <= i < |xs| && 0 <= j < |ys| && hash(xs[i]) == hash(ys[j]) ==> xs[i] == ys[j]
  }

  /** Each AUM names the hash of the one before, the first one the start. */
  ghost predicate Linked(hash: HashFn, start: AUMHash, xs: seq<AUM>) {
    && (xs != [] ==> xs[0].prev == Some(start.bytes))
    && forall i, j :: 0 <= i && j == i + 1 && j < |xs| ==> xs[j].prev == Some(hash(xs[i]).bytes)
  }

  function LastHash(hash: HashFn, start: AUMHash, xs: seq<AUM>, m: nat): AUMHash
    requires m <= |xs|
  {
    if m == 0 then start else hash(xs[m - 1])
  }

  lemma {:induction false} ReplayLinked(hash: HashFn, s: State, xs: seq<AUM>)
    requires s.last.Some? && Replay(hash, s, xs).Ok?
    ensures Linked(hash, s.last.value, xs)
    ensures Replay(hash, s, xs).value.last == Some(LastHash(hash, s.last.value, xs, |xs|))
    decreases |xs|
  {
    if xs != [] {
      ReplayLinked(hash, Apply(hash, s, xs[0]).value, xs[1..]);
      forall i, j | 0 <= i && j == i + 1 && j < |xs| ensures xs[j].prev == Some(hash(xs[i]).bytes) {
        if i > 0 {
          assert xs[i] == xs[1..][i - 1] && xs[j] == xs[1..][i];
        } else {
          assert xs[j] == xs[1..][0];
        }
      }
    }
  }

  lemma LinkedParent(hash: HashFn, start: AUMHash, xs: seq<AUM>, m: nat)
    requires Linked(hash, start, xs) && m < |xs|
    ensures xs[m].prev == Some(LastHash(hash, start, xs, m).bytes)
    ensures Parent(xs[m]) == Some(LastHash(hash, start, xs, m))
  {
  }

  /** Along linked AUMs the rank only grows. */
  lemma {:induction false} LinkedRank(hash: HashFn, rank: AUMHash -> nat, start: AUMHash, xs: seq<AUM>, m: nat)
    requires Linked(hash, start, xs) && Ranked(hash, rank, xs) && m <= |xs|
    ensures rank(start) + m <= rank(LastHash(hash, start, xs, m))
  {
    if m > 0 {
      LinkedRank(hash, rank, start, xs, m - 1);
      LinkedParent(hash, start, xs, m - 1);
    }
  }

  lemma {:induction false} LinkedDeterministic(
      hash: HashFn, rank: AUMHash -> nat, start: AUMHash, xs: seq<AUM>, m: nat, ys: seq<AUM>, n: nat)
    requires m <= |xs| && n <= |ys|
    requires Linked(hash, start, xs) && Linked(hash, start, ys)
    requires Ranked(hash, rank, xs) && Ranked(hash, rank, ys) && CollisionFree(hash, xs, ys)
    requires LastHash(hash, start, xs, m) == LastHash(hash, start, ys, n)
    ensures xs[..m] == ys[..n]
  {
    LinkedRank(hash, rank, start, xs, m);
    LinkedRank(hash, rank, start, ys, n);
    if m > 0 && n > 0 {
      assert xs[m - 1] == ys[n - 1];
      LinkedParent(hash, start, xs, m - 1);
      LinkedParent(hash, start, ys, n - 1);
      LinkedDeterministic(hash, rank, start, xs, m - 1, ys, n - 1);
      assert xs[..m] == xs[..m - 1] + [xs[m - 1]] && ys[..n] == ys[..n - 1] + [ys[n - 1]];
    }
  }

  /** Two replays from one started authority that end at the same hash applied the
      same AUMs, and so reach the same state. */
  lemma ReplayDeterministic(hash: HashFn, rank: AUMHash -> nat, s: State, xs: seq<AUM>, ys: seq<AUM>)
    requires s.last.Some?
    requires Replay(hash, s, xs).Ok? && Replay(hash, s, ys).Ok?
    requires Ranked(hash, rank, xs) && Ranked(hash, rank, ys) && CollisionFree(hash, xs, ys)
    requires Replay(hash, s, xs).value.last == Replay(hash, s, ys).value.last
    ensures xs == ys
    ensures Replay(hash, s, xs) == Replay(hash, s, ys)
  {
    ReplayLinked(hash, s, xs);
    ReplayLinked(hash, s, ys);
    LinkedDeterministic(hash, rank, s.last.value, xs, |xs|, ys, |ys|);
    assert xs[..|xs|] == xs && ys[..|ys|] == ys;
  }

  function LongestPublic(keys: seq<Key>): nat {
    if keys == [] then 0
    else
      var n := LongestPublic(keys[1..]);
      if |keys[0].public| > n then |keys[0].public| else n
  }

  lemma {:induction false} NoKeyThatLong(keys: seq<Key>, id: Bytes)
    requires |id| > LongestPublic(keys)
    ensures GetKey(keys, id).Err?
  {
    if keys != [] {
      NoKeyThatLong(keys[1..], id);
    }
  }

  /** A valid key that the state does not have. */
  function NewKey(s: State): Key {
    Key(KEY_25519, 1, seq(LongestPublic(s.keys) + 1, i => 0), None)
  }

  /** Without a last hash the claim fails, for every state: it accepts any first AUM, so a suffix
      of a history ends at the same hash with another state. */
  lemma UnstartedIsAmbiguous(hash: HashFn, s: State)
    requires s.last.None?
    ensures
      var a := AUM(AddKey, None, Some(NewKey(s)), None, None, None, None, []);
      var b := AUM(NoOp, Some(hash(a).bytes), None, None, None, None, None, []);
      && ValidAUM(a) && ValidAUM(b)
      && Replay(hash, s, [a, b]).Ok? && Replay(hash, s, [b]).Ok?
      && Replay(hash, s, [a, b]).value.last == Replay(hash, s, [b]).value.last
      && Replay(hash, s, [a, b]) != Replay(hash, s, [b])
  {
    var k := NewKey(s);
    var a := AUM(AddKey, None, Some(k), None, None, None, None, []);
    var b := AUM(NoOp, Some(hash(a).bytes), None, None, None, None, None, []);
    NoKeyThatLong(s.keys, k.public);
    var s1 := Apply(hash, s, a).value;
    assert s1.keys == s.keys + [k];
    assert |s1.keys| == |s.keys| + 1;
    assert [a, b][1..] == [b];
    assert Replay(hash, s1, [b]) == Apply(hash, s1, b);
    assert Replay(hash, s, [b]) == Apply(hash, s, b);
  }

  // ----- The program's form of applying an AUM -----

  method ReplaceKeyLoop(keys: seq<Key>, id: Bytes, k: Key) returns (r: Result<seq<Key>, TkaError>)
    ensures r == ReplaceKey(keys, id, k)
  {
    var out := keys;
    for i := 0 to |out|
      invariant |out| == |keys|
      invariant forall j :: 0 <= j < i ==> ID(keys[j]).Some? && out[j] == if ID(keys[j]) == Some(id) then k else keys[j]
      invariant forall j :: i <= j < |keys| ==> out[j] == keys[j]
    {
      if ID(out[i]).None? {
        return Err(UnknownKeyKind);
      }
      if ID(out[i]) == Some(id) {
        out := out[i := k];
      }
    }
    assert ReplaceKey(keys, id, k).Ok? && out == ReplaceKey(keys, id, k).value;
    return Ok(out);
  }

  /** A list of keys in front of a result. */
  function InFront(front: seq<Key>, r: Result<seq<Key>, TkaError>): Result<seq<Key>, TkaError> {
    match r
    case Ok(rest) => Ok(front + rest)
    case Err(e) => Err(e)
  }

  lemma InFrontJoin(a: seq<Key>, b: seq<Key>, r: Result<seq<Key>, TkaError>)
    ensures InFront([], r) == r && InFront(a, InFront(b, r)) == InFront(a + b, r)
  {
    if r.Ok? {
      assert [] + r.value == r.value;
      assert a + (b + r.value) == a + b + r.value;
    }
  }

  lemma {:induction false} DropKeyAt(keys: seq<Key>, id: Bytes, n: nat)
    requires n <= |keys|
    requires forall j :: 0 <= j < n ==> ID(keys[j]).Some? && ID(keys[j]) != Some(id)
    ensures DropKey(keys, id) == InFront(keys[..n], DropKey(keys[n..], id))
  {
    if n == 0 {
      assert keys[0..] == keys;
      InFrontJoin([], [], DropKey(keys, id));
    } else {
      DropKeyAt(keys[1..], id, n - 1);
      assert keys[1..][n - 1..] == keys[n..];
      InFrontJoin([keys[0]], keys[1..][..n - 1], DropKey(keys[n..], id));
      assert [keys[0]] + keys[1..][..n - 1] == keys[..n];
      assert DropKey(keys, id) == InFront([keys[0]], DropKey(keys[1..], id));
    }
  }

  method DropKeyLoop(keys: seq<Key>, id: Bytes) returns (r: Result<seq<Key>, TkaError>)
    ensures r == DropKey(keys, id)
  {
    var i := 0;
    while i < |keys|
      invariant 0 <= i <= |keys|
      invariant forall j :: 0 <= j < i ==> ID(keys[j]).Some? && ID(keys[j]) != Some(id)
    {
      if ID(keys[i]).None? {
        DropKeyAt(keys, id, i);
        return Err(UnknownKeyKind);
      }
      if ID(keys[i]) == Some(id) {
        DropKeyAt(keys, id, i);
        assert keys[i..][1..] == keys[i + 1..];
        return Ok(keys[..i] + keys[i + 1..]);
      }
      i := i + 1;
    }
    DropKeyAt(keys, id, |keys|);
    return Err(NoSuchKey);
  }

  /** Applying an AUM the way the program does, with its loops over the keys. */
  method ApplyVerifiedAUM(hash: HashFn, s: State, update: AUM) returns (r: Result<State, TkaError>)
    ensures r == Apply(hash, s, update)
  {
    if !ParentMatches(s, update) {
      return Err(ParentMismatch);
    }
    var out := s.(last := Some(hash(update)));
    match update.kind
    case Checkpoint =>
      if update.state.None? {
        return Err(MissingState);
      }
      if update.state.value.id1 != s.id1 || update.state.value.id2 != s.id2 {
        return Err(StateIDMismatch);
      }
      return Ok(update.state.value.(last := Some(hash(update))));
    case AddKey =>
      if update.key.None? {
        return Err(MissingKey);
      }
      if ID(update.key.value).None? {
        return Err(UnknownKeyKind);
      }
      if GetKey(s.keys, ID(update.key.value).value).Ok? {
        return Err(KeyExists);
      }
      return Ok(out.(keys := out.keys + [update.key.value]));
    case UpdateKey =>
      var found := GetKey(s.keys, KeyIDOf(update));
      if found.Err? {
        return Err(found.error);
      }
      var k := UpdatedKey(found.value, update);
      var valid := ValidateKey(k);
      if !valid {
        return Err(InvalidKey);
      }
      var keys := ReplaceKeyLoop(out.keys, KeyIDOf(update), k);
      if keys.Err? {
        return Err(keys.error);
      }
      return Ok(out.(keys := keys.value));
    case RemoveKey =>
      var keys := DropKeyLoop(s.keys, KeyIDOf(update));
      if keys.Err? {
        return Err(keys.error);
      }
      return Ok(out.(keys := keys.value));
    case NoOp =>
      return Ok(out);
    case Other(_) =>
      return Ok(out);
  }
}
