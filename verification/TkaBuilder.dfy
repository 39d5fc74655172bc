/** Building updates: a builder turns edits into a chain of AUMs on top of an authority. */
module TkaBuilder {
  import opened Wrappers
  import opened TkaTypes
  import opened TkaState
  import opened TkaStore

  const CHECKPOINT_EVERY := 50

  /** The signer: signatures for an AUM without its own, or a failure. */
  type Signer = AUM -> Result<seq<Signature>, TkaError>

  /** The running authority that updates are made for. */
  class Authority {
    var state: State

    constructor (state: State)
      ensures this.state == state
    {
      this.state := state;
    }

    function Head(): AUMHash
      requires state.last.Some?
      reads this
    {
      state.last.value
    }
  }

  /** An AUM of the given kind with nothing else set. */
  function Blank(kind: AUMKind): AUM {
    AUM(kind, None, None, None, None, None, None, [])
  }

  /** How far back from the newest AUM a checkpoint, a genesis AUM or the end of storage lies,
      counting first the `n` new AUMs and then stored AUMs from `h`. */
  ghost predicate StartWithin(info: Info, h: AUMHash, n: int)
    decreases n
  {
    n > 0 && (!Has(info, h) || IsCheckpoint(info, h) || ParentOf(info, h).None?
              || StartWithin(info, ParentOf(info, h).value, n - 1))
  }

  /** Walks back from the head until it finds where a replay can start, or has gone far enough. */
  method NeedsCheckpoint(info: Info, head: AUMHash, n: nat) returns (need: bool)
    ensures need <==> !StartWithin(info, head, CHECKPOINT_EVERY - n)
  {
    var cursor, i := head, n;
    while i < CHECKPOINT_EVERY
      invariant StartWithin(info, cursor, CHECKPOINT_EVERY - i) <==> StartWithin(info, head, CHECKPOINT_EVERY - n)
      decreases CHECKPOINT_EVERY - i
    {
      if !Has(info, cursor) || IsCheckpoint(info, cursor) || ParentOf(info, cursor).None? {
        return false;
      }
      cursor := ParentOf(info, cursor).value;
      i := i + 1;
    }
    return true;
  }

  /** The update on top of `parent`, signed if there is a signer. */
  function Signed(signer: Option<Signer>, parent: AUMHash, u: AUM): Result<AUM, TkaError> {
    var update := u.(prev := Some(parent.bytes));
    if signer.None? then Ok(update)
    else
      match signer.value(update.(signatures := []))
      case Ok(sigs) => Ok(update.(signatures := update.signatures + sigs))
      case Err(_) => Err(SigningFailed)
  }

  /** What an update becomes: the AUM and the state it leads to, or why it is refused. */
  ghost function Made(hash: HashFn, signer: Option<Signer>, s: State, parent: AUMHash, u: AUM): Result<(AUM, State), TkaError> {
    match Signed(signer, parent, u)
    case Err(e) => Err(e)
    case Ok(a) =>
      if !ValidAUM(a) then Err(InvalidAUM)
      else
        match Apply(hash, s, a)
        case Err(e) => Err(e)
        case Ok(next) => Ok((a, next))
  }

  /** The signer, if there is one, answers with signatures of the right sizes. */
  predicate Signs(signer: Option<Signer>, parent: AUMHash, u: AUM) {
    Signed(signer, parent, u).Ok? && ValidSignatures(Signed(signer, parent, u).value.signatures)
  }

  function AddUpdate(key: Key): AUM { Blank(AddKey).(key := Some(key)) }

  function RemoveUpdate(id: Bytes): AUM { Blank(RemoveKey).(keyID := Some(id)) }

  function VoteUpdate(id: Bytes, votes: nat): AUM { Blank(UpdateKey).(keyID := Some(id), votes := Some(votes)) }

  function CheckpointUpdate(s: State): AUM { Blank(Checkpoint).(state := Some(s.(last := None))) }

  /** A key can be added exactly if it is valid and its ID not yet there. */
  lemma AddMade(hash: HashFn, signer: Option<Signer>, s: State, parent: AUMHash, key: Key)
    requires s.last == Some(parent) && ID(key).Some? && GetKey(s.keys, ID(key).value).Err?
    ensures Made(hash, signer, s, parent, AddUpdate(key)).Ok? <==> Signs(signer, parent, AddUpdate(key)) && ValidKey(key)
  {
  }

  lemma {:induction false} FoundCanBeDropped(keys: seq<Key>, id: Bytes)
    ensures GetKey(keys, id).Ok? <==> DropKey(keys, id).Ok?
  {
    if keys != [] {
      FoundCanBeDropped(keys[1..], id);
    }
  }

  /** A key that is there can be removed exactly if its ID is not empty. */
  lemma RemoveMade(hash: HashFn, signer: Option<Signer>, s: State, parent: AUMHash, id: Bytes)
    requires s.last == Some(parent) && GetKey(s.keys, id).Ok?
    ensures Made(hash, signer, s, parent, RemoveUpdate(id)).Ok? <==> Signs(signer, parent, RemoveUpdate(id)) && id != []
  {
    FoundCanBeDropped(s.keys, id);
  }

  /** The votes of a key that is there can be set exactly if the key stays valid, its ID is not empty
      and no key has an unknown kind. */
  lemma VoteMade(hash: HashFn, signer: Option<Signer>, s: State, parent: AUMHash, id: Bytes, votes: nat)
    requires s.last == Some(parent) && GetKey(s.keys, id).Ok?
    ensures var k := GetKey(s.keys, id).value.(votes := votes);
      Made(hash, signer, s, parent, VoteUpdate(id, votes)).Ok? <==>
        Signs(signer, parent, VoteUpdate(id, votes)) && id != [] && ValidKey(k) && ReplaceKey(s.keys, id, k).Ok?
  {
  }

  lemma VoteIsFound(keys: seq<Key>, id: Bytes, votes: nat)
    requires GetKey(keys, id).Ok?
    ensures var k := GetKey(keys, id).value.(votes := votes);
      ReplaceKey(keys, id, k).Ok? ==>
        var r := ReplaceKey(keys, id, k).value;
        GetKey(r, id) == Ok(k) && forall x :: x != id ==> GetKey(r, x) == GetKey(keys, x)
  {
    var k := GetKey(keys, id).value.(votes := votes);
    if ReplaceKey(keys, id, k).Ok? {
      var r := ReplaceKey(keys, id, k).value;
      forall x ensures GetKey(r, x) == if x == id then Ok(k) else GetKey(keys, x) {
        ReplacedIsFound(keys, id, k, x);
      }
    }
  }

  /** A checkpoint can be made exactly of a state that is valid as one and has the builder's IDs. */
  lemma CheckpointMade(hash: HashFn, signer: Option<Signer>, s: State, parent: AUMHash, t: State)
    requires s.last == Some(parent)
    ensures Made(hash, signer, s, parent, CheckpointUpdate(t)).Ok? <==>
      && Signs(signer, parent, CheckpointUpdate(t)) && ValidCheckpoint(t.(last := None))
      && t.id1 == s.id1 && t.id2 == s.id2
  {
  }

  class UpdateBuilder {
    const hash: HashFn
    const authority: Authority
    const signer: Option<Signer>
    var state: State
    var parent: AUMHash
    var out: seq<AUM>
    ghost const base: State

    /** `state` is the replay of `out` from where the builder started, and `parent` its last hash. */
    ghost predicate Valid()
      reads this
    {
      && base.last.Some?
      && Replay(hash, base, out) == Ok(state)
      && state.last == Some(parent)
      && Linked(hash, base.last.value, out)
      && forall i :: 0 <= i < |out| ==> ValidAUM(out[i])
    }

    constructor (hash: HashFn, a: Authority, signer: Option<Signer>)
      requires a.state.last.Some?
      ensures Valid() && out == [] && base == a.state && this.hash == hash && authority == a && this.signer == signer
    {
      this.hash := hash;
      this.authority := a;
      this.signer := signer;
      this.state := a.state;
      this.parent := a.state.last.value;
      this.out := [];
      this.base := a.state;
    }

    /** What an update did: what it became was applied and added, or it was refused and nothing
        changed. */
    ghost predicate Did(made: Result<(AUM, State), TkaError>, r: Result<(), TkaError>, was: (State, AUMHash, seq<AUM>))
      reads this
    {
      match made
      case Ok((a, next)) => r == Ok(()) && state == next && parent == hash(a) && out == was.2 + [a]
      case Err(e) => r == Err(e) && (state, parent, out) == was
    }

    /** Chains, signs, validates and applies one update; on failure nothing changes. */
    method MkUpdate(u: AUM) returns (r: Result<(), TkaError>)
      requires Valid()
      modifies this
      ensures Valid()
      ensures Did(Made(hash, signer, old(state), old(parent), u), r, old((state, parent, out)))
      ensures r.Ok? && signer.None? ==> out == old(out) + [u.(prev := Some(old(parent).bytes))]
      ensures r.Ok? && signer.Some? ==>
        var chained := u.(prev := Some(old(parent).bytes));
        && signer.value(chained.(signatures := [])).Ok?
        && out == old(out) + [chained.(signatures := u.signatures + signer.value(chained.(signatures := [])).value)]
    {
      var update := u.(prev := Some(parent.bytes));
      if signer.Some? {
        var sigs := signer.value(update.(signatures := []));
        if sigs.Err? {
          return Err(SigningFailed);
        }
        update := update.(signatures := update.signatures + sigs.value);
      }
      var valid := ValidateAUM(update);
      if !valid {
        return Err(InvalidAUM);
      }
      var next := ApplyVerifiedAUM(hash, state, update);
      if next.Err? {
        return Err(next.error);
      }
      ExtendReplay(hash, base, out, state, update, next.value);
      state := next.value;
      parent := hash(update);
      out := out + [update];
      return Ok(());
    }

    method AddKey(key: Key) returns (r: Result<(), TkaError>)
      requires Valid()
      modifies this
      ensures Valid()
      ensures r.Ok? <==>
        && ID(key).Some? && GetKey(old(state).keys, ID(key).value).Err?
        && Signs(signer, old(parent), AddUpdate(key)) && ValidKey(key)
      ensures r.Err? ==> state == old(state) && parent == old(parent) && out == old(out)
      ensures r.Ok? ==> state == old(state).(last := Some(parent), keys := old(state).keys + [key])
    {
      if ID(key).None? {
        return Err(UnknownKeyKind);
      }
      if GetKey(state.keys, ID(key).value).Ok? {
        return Err(KeyExists);
      }
      AddMade(hash, signer, state, parent, key);
      r := MkUpdate(AddUpdate(key));
    }

    method RemoveKey(id: Bytes) returns (r: Result<(), TkaError>)
      requires Valid()
      modifies this
      ensures Valid()
      ensures r.Ok? <==> GetKey(old(state).keys, id).Ok? && Signs(signer, old(parent), RemoveUpdate(id)) && id != []
      ensures r.Err? ==> state == old(state) && parent == old(parent) && out == old(out)
      ensures r.Ok? ==>
        && DropKey(old(state).keys, id).Ok?
        && state == old(state).(last := Some(parent), keys := DropKey(old(state).keys, id).value)
    {
      var found := GetKey(state.keys, id);
      if found.Err? {
        return Err(found.error);
      }
      RemoveMade(hash, signer, state, parent, id);
      r := MkUpdate(RemoveUpdate(id));
    }

    method SetKeyVote(id: Bytes, votes: nat) returns (r: Result<(), TkaError>)
      requires Valid()
      modifies this
      ensures Valid()
      ensures r.Ok? <==>
        && GetKey(old(state).keys, id).Ok? && Signs(signer, old(parent), VoteUpdate(id, votes)) && id != []
        && var k := GetKey(old(state).keys, id).value.(votes := votes);
           ValidKey(k) && ReplaceKey(old(state).keys, id, k).Ok?
      ensures r.Err? ==> state == old(state) && parent == old(parent) && out == old(out)
      ensures r.Ok? ==>
        && GetKey(old(state).keys, id).Ok?
        && var k := GetKey(old(state).keys, id).value.(votes := votes);
           && ReplaceKey(old(state).keys, id, k).Ok?
           && state == old(state).(last := Some(parent), keys := ReplaceKey(old(state).keys, id, k).value)
           && GetKey(state.keys, id) == Ok(k) && forall x :: x != id ==> GetKey(state.keys, x) == GetKey(old(state).keys, x)
    {
      var found := GetKey(state.keys, id);
      if found.Err? {
        return Err(found.error);
      }
      VoteMade(hash, signer, state, parent, id, votes);
      VoteIsFound(state.keys, id, votes);
      r := MkUpdate(VoteUpdate(id, votes));
    }

    /** The updates still apply to the authority, and what they lead to can be made a checkpoint. */
    ghost predicate CanCheckpoint()
      reads this, authority
    {
      && Replay(hash, authority.state, out).Ok?
      && var t := Replay(hash, authority.state, out).value;
         && Signs(signer, parent, CheckpointUpdate(t)) && ValidCheckpoint(t.(last := None))
         && t.id1 == state.id1 && t.id2 == state.id2
    }

    /** Appends a checkpoint of the replayed state. If the authority has not moved, the
        checkpoint changes nothing but the last hash. */
    method GenerateCheckpoint() returns (r: Result<(), TkaError>)
      requires Valid()
      modifies this
      ensures Valid()
      ensures r.Ok? <==> old(CanCheckpoint())
      ensures r.Err? ==> state == old(state) && parent == old(parent) && out == old(out)
      ensures r.Ok? ==> |out| == |old(out)| + 1 && out[..|old(out)|] == old(out) && out[|old(out)|].kind == Checkpoint
      ensures r.Ok? ==>
        && Replay(hash, authority.state, old(out)).Ok?
        && state == Replay(hash, authority.state, old(out)).value.(last := Some(parent))
      ensures r.Ok? && authority.state == base ==> state == old(state).(last := Some(parent))
    {
      var s := authority.state;
      for i := 0 to |out|
        invariant state == old(state) && parent == old(parent) && out == old(out) && Valid()
        invariant Replay(hash, authority.state, out[..i]) == Ok(s)
      {
        ReplaySnoc(hash, authority.state, out, i);
        var next := ApplyVerifiedAUM(hash, s, out[i]);
        if next.Err? {
          FailsEarly(hash, authority.state, out, i + 1);
          return Err(next.error);
        }
        s := next.value;
      }
      assert out[..|out|] == out;
      CheckpointMade(hash, signer, state, parent, s);
      r := MkUpdate(CheckpointUpdate(s));
    }

    /** Adds a checkpoint if none is near, and hands out the updates. It succeeds exactly if that
        checkpoint can be made, if it is needed, and the authority has not moved under updates. */
    method Finalize(info: Info) returns (r: Result<seq<AUM>, TkaError>)
      requires Valid() && authority.state.last.Some?
      modifies this
      ensures Valid()
      ensures authority.state == old(authority.state)
      ensures var need := !StartWithin(info, authority.Head(), CHECKPOINT_EVERY - |old(out)|);
        && (r.Ok? <==> (need ==> old(CanCheckpoint())) && (old(out) != [] || need ==> authority.Head() == base.last.value))
        && (r.Ok? ==> r.value == out && |old(out)| <= |out| && out[..|old(out)|] == old(out)
                      && (if need then |out| == |old(out)| + 1 && out[|out| - 1].kind == Checkpoint else out == old(out))
                      && (out != [] ==> Parent(out[0]) == Some(authority.Head())))
    {
      var needCheckpoint := NeedsCheckpoint(info, authority.Head(), |out|);
      if needCheckpoint {
        var done := GenerateCheckpoint();
        if done.Err? {
          return Err(done.error);
        }
      }
      if |out| > 0 {
        LinkedParent(hash, base.last.value, out, 0);
        if Parent(out[0]) != Some(authority.Head()) {
          return Err(ParentMismatch);
        }
      }
      return Ok(out);
    }
  }

  /** A replay that fails early fails. */
  lemma FailsEarly(hash: HashFn, s: State, xs: seq<AUM>, n: nat)
    requires n <= |xs| && Replay(hash, s, xs[..n]).Err?
    ensures Replay(hash, s, xs).Err?
  {
    assert xs == xs[..n] + xs[n..];
    ReplayAppend(hash, s, xs[..n], xs[n..]);
  }

  lemma ReplaySnoc(hash: HashFn, s: State, xs: seq<AUM>, i: nat)
    requires i < |xs| && Replay(hash, s, xs[..i]).Ok?
    ensures Replay(hash, s, xs[..i + 1]) == Apply(hash, Replay(hash, s, xs[..i]).value, xs[i])
  {
    assert xs[..i + 1] == xs[..i] + [xs[i]];
    ReplayAppend(hash, s, xs[..i], [xs[i]]);
    var mid := Replay(hash, s, xs[..i]).value;
    assert [xs[i]][1..] == [];
  }

  lemma ExtendReplay(hash: HashFn, base: State, out: seq<AUM>, s: State, a: AUM, next: State)
    requires base.last.Some? && Replay(hash, base, out) == Ok(s) && Apply(hash, s, a) == Ok(next)
    ensures Replay(hash, base, out + [a]) == Ok(next)
    ensures Linked(hash, base.last.value, out + [a]) && next.last == Some(hash(a))
  {
    ReplayAppend(hash, base, out, [a]);
    assert [a][1..] == [];
    assert Replay(hash, s, [a]) == Ok(next);
    ReplayLinked(hash, base, out + [a]);
  }
}
