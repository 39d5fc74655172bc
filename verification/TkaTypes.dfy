/** The values of the tailnet key authority: keys, states and authority update
    messages (AUMs), with their static validation. Slices that the program never
    tests against nil are plain sequences. */
module TkaTypes {
  import opened Wrappers
  import MapSum

  const HASH_LEN := 32
  const SIGNATURE_LEN := 64
  const KEY_25519: Byte := 1
  const MAX_VOTES := 4096
  const MAX_META_BYTES := 512
  const DISABLEMENT_LEN := 32
  const MAX_DISABLEMENT_SECRETS := 32
  const MAX_KEYS := 512

  datatype Digest = Digest(bytes: Bytes)

  /** A 32-byte digest. */
  type AUMHash = h: Digest | |h.bytes| == HASH_LEN witness Digest(seq(HASH_LEN, i => 0))

  type Meta = map<string, string>

  datatype Key = Key(kind: Byte, votes: nat, public: Bytes, meta: Option<Meta>)

  datatype State = State(last: Option<AUMHash>, secrets: seq<Bytes>, keys: seq<Key>, id1: nat, id2: nat)

  const EMPTY_STATE := State(None, [], [], 0, 0)

  /** `Other` stands for the invalid kind and for kinds of later versions. */
  datatype AUMKind = AddKey | RemoveKey | NoOp | UpdateKey | Checkpoint | Other(code: Byte)

  datatype Signature = Signature(keyID: Bytes, signature: Bytes)

  datatype AUM = AUM(
    kind: AUMKind, prev: Option<Bytes>, key: Option<Key>, keyID: Option<Bytes>,
    state: Option<State>, votes: Option<nat>, meta: Option<Meta>, signatures: seq<Signature>)

  datatype TkaError =
    | NoSuchKey | UnknownKeyKind | ParentMismatch | MissingState | StateIDMismatch
    | MissingKey | KeyExists | InvalidKey | InvalidAUM | SigningFailed
    | NotExist | InvalidGenesis | ChildNotStored | IterationLimit

  /** The key ID of a 25519 key is its public key; other kinds have none. */
  function ID(k: Key): Option<Bytes> {
    if k.kind == KEY_25519 then Some(k.public) else None
  }

  /** Copying into a fixed 32-byte array truncates or leaves zeros behind. */
  function CopyHash(b: Bytes): (h: AUMHash)
    ensures |b| == HASH_LEN ==> h.bytes == b
  {
    Digest(if |b| >= HASH_LEN then b[..HASH_LEN] else b + seq(HASH_LEN - |b|, i => 0))
  }

  function Parent(a: AUM): Option<AUMHash> {
    if a.prev.Some? && |a.prev.value| > 0 then Some(CopyHash(a.prev.value)) else None
  }

  function KeyIDOf(a: AUM): Bytes {
    if a.keyID.Some? then a.keyID.value else []
  }

  function EntryBytes(k: string, v: string): int {
    |k| + |v|
  }

  /** The total size of a key's metadata. */
  ghost function MetaBytes(m: Option<Meta>): int {
    if m.None? then 0 else MapSum.Sum(m.value, EntryBytes)
  }

  ghost predicate ValidKey(k: Key) {
    && 1 <= k.votes <= MAX_VOTES
    && MetaBytes(k.meta) <= MAX_META_BYTES
    && k.kind == KEY_25519
  }

  predicate Distinct<T(==)>(s: seq<T>) {
    forall i, j :: 0 <= i < j < |s| ==> s[i] != s[j]
  }

  /** No two keys have the same key ID. */
  predicate DistinctIDs(keys: seq<Key>) {
    forall i, j :: 0 <= i < j < |keys| ==> ID(keys[i]) != ID(keys[j])
  }

  ghost predicate ValidKeys(keys: seq<Key>) {
    forall i :: 0 <= i < |keys| ==> ValidKey(keys[i])
  }

  /** What a checkpoint may carry. */
  ghost predicate ValidCheckpoint(s: State) {
    && s.last.None?
    && 1 <= |s.secrets| <= MAX_DISABLEMENT_SECRETS
    && (forall i :: 0 <= i < |s.secrets| ==> |s.secrets[i]| == DISABLEMENT_LEN)
    && Distinct(s.secrets)
    && 1 <= |s.keys| <= MAX_KEYS
    && ValidKeys(s.keys)
    && DistinctIDs(s.keys)
  }

  predicate ValidFields(a: AUM) {
    match a.kind
    case AddKey => a.key.Some? && a.keyID.None? && a.state.None? && a.votes.None? && a.meta.None?
    case RemoveKey => KeyIDOf(a) != [] && a.key.None? && a.state.None? && a.votes.None? && a.meta.None?
    case UpdateKey => KeyIDOf(a) != [] && (a.meta.Some? || a.votes.Some?) && a.key.None? && a.state.None?
    case Checkpoint => a.state.Some? && a.keyID.None? && a.key.None? && a.votes.None? && a.meta.None?
    case NoOp => true
    case Other(_) => true
  }

  predicate ValidSignatures(sigs: seq<Signature>) {
    forall i :: 0 <= i < |sigs| ==> |sigs[i].keyID| == 32 && |sigs[i].signature| == SIGNATURE_LEN
  }

  /** An AUM is well formed. */
  ghost predicate ValidAUM(a: AUM) {
    && (a.key.Some? ==> ValidKey(a.key.value))
    && a.prev != Some([])
    && ValidSignatures(a.signatures)
    && (a.state.Some? ==> ValidCheckpoint(a.state.value))
    && ValidFields(a)
  }

  method ValidateKey(k: Key) returns (ok: bool)
    ensures ok <==> ValidKey(k)
  {
    if k.votes > MAX_VOTES || k.votes == 0 {
      return false;
    }
    var metaBytes := 0;
    if k.meta.Some? {
      var rest := k.meta.value;
      while rest != map[]
        invariant metaBytes + MapSum.Sum(rest, EntryBytes) == MetaBytes(k.meta)
        decreases |rest|
      {
        var name :| name in rest;
        MapSum.SumSplit(rest, EntryBytes, name);
        metaBytes := metaBytes + |name| + |rest[name]|;
        rest := rest - {name};
      }
    }
    return metaBytes <= MAX_META_BYTES && k.kind == KEY_25519;
  }

  method ValidateCheckpoint(s: State) returns (ok: bool)
    ensures ok <==> ValidCheckpoint(s)
  {
    if s.last.Some? || |s.secrets| == 0 || |s.secrets| > MAX_DISABLEMENT_SECRETS {
      return false;
    }
    for i := 0 to |s.secrets|
      invariant forall a :: 0 <= a < i ==> |s.secrets[a]| == DISABLEMENT_LEN
      invariant forall a, b :: 0 <= a < i && a < b < |s.secrets| ==> s.secrets[a] != s.secrets[b]
    {
      if |s.secrets[i]| != DISABLEMENT_LEN {
        return false;
      }
      for j := 0 to |s.secrets|
        invariant forall b :: 0 <= b < j && b != i ==> s.secrets[i] != s.secrets[b]
      {
        if j != i && s.secrets[i] == s.secrets[j] {
          return false;
        }
      }
    }
    if |s.keys| == 0 || |s.keys| > MAX_KEYS {
      return false;
    }
    for i := 0 to |s.keys|
      invariant forall a :: 0 <= a < i ==> ValidKey(s.keys[a])
    {
      var valid := ValidateKey(s.keys[i]);
      if !valid {
        return false;
      }
    }
    for i := 0 to |s.keys|
      invariant forall a, b :: 0 <= a < i && a < b < |s.keys| ==> ID(s.keys[a]) != ID(s.keys[b])
    {
      for j := 0 to |s.keys|
        invariant forall b :: 0 <= b < j && b != i ==> ID(s.keys[i]) != ID(s.keys[b])
      {
        if j != i && ID(s.keys[i]) == ID(s.keys[j]) {
          return false;
        }
      }
    }
    return true;
  }

  method ValidateAUM(a: AUM) returns (ok: bool)
    ensures ok <==> ValidAUM(a)
  {
    if a.key.Some? {
      var valid := ValidateKey(a.key.value);
      if !valid {
        return false;
      }
    }
    if a.prev == Some([]) {
      return false;
    }
    for i := 0 to |a.signatures|
      invariant ValidSignatures(a.signatures[..i])
    {
      if |a.signatures[i].keyID| != 32 || |a.signatures[i].signature| != SIGNATURE_LEN {
        return false;
      }
    }
    assert a.signatures[..|a.signatures|] == a.signatures;
    if a.state.Some? {
      var valid := ValidateCheckpoint(a.state.value);
      if !valid {
        return false;
      }
    }
    return ValidFields(a);
  }
}
