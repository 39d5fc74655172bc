/** Any number of transfers at once, with other programs creating files in between. */
module TaildropTransfers {
  import opened Wrappers
  import opened TaildropStore

  /** `left` counts the names still to be tried. */
  datatype Phase = Copying | Renaming(dst: Path, left: nat) | Comparing(dst: Path, left: nat)

  /** A running transfer: what the partial file held when it was opened and what was copied since. */
  datatype Transfer = Transfer(offset: nat, length: int, start: Bytes, data: Bytes, phase: Phase)

  datatype Finished = Finished(k: Key, dst: Path, content: Bytes)

  datatype State = State(files: map<Path, Bytes>, incoming: map<Key, Transfer>, finished: seq<Finished>)

  datatype Event =
    | Begin(k: Key, offset: int, length: int)
    | Write(k: Key, chunk: Bytes)
    | Abort(k: Key)
    | CopyEnds(k: Key)
    | Rename(k: Key)
    | CompareSums(k: Key)
    | Appear(p: Path, content: Bytes)

  // ----- Steps -----

  function StepBegin(s: State, k: Key, offset: int, length: int): State {
    var p := PartialPath(k);
    var start := Get(s.files, p);
    if !Final(k.name) || k in s.incoming then s
    else if OutOfRange(offset, |start|) then s.(files := s.files[p := start])
    else
      s.(files := s.files[p := if offset == 0 then start else start[..offset]],
         incoming := s.incoming[k := Transfer(offset, length, start, [], Copying)])
  }

  function StepWrite(s: State, k: Key, chunk: Bytes): State {
    var p := PartialPath(k);
    if k !in s.incoming || !s.incoming[k].phase.Copying? then s
    else
      var t := s.incoming[k];
      if t.offset + |t.data| > |Get(s.files, p)| then s
      else
        s.(files := s.files[p := WriteAt(Get(s.files, p), t.offset + |t.data|, chunk)],
           incoming := s.incoming[k := t.(data := t.data + chunk)])
  }

  function End(s: State, k: Key): State {
    s.(incoming := s.incoming - {k})
  }

  function Finish(s: State, k: Key, dst: Path): State {
    var p := PartialPath(k);
    var content := Get(s.files, p);
    State((s.files - {p})[dst := content], s.incoming - {k}, s.finished + [Finished(k, dst, content)])
  }

  function SetPhase(s: State, k: Key, phase: Phase): State
    requires k in s.incoming
  {
    s.(incoming := s.incoming[k := s.incoming[k].(phase := phase)])
  }

  function StepCopyEnds(s: State, k: Key): State {
    if k !in s.incoming || !s.incoming[k].phase.Copying? then s
    else if s.incoming[k].length >= 0 && |s.incoming[k].data| != s.incoming[k].length then End(s, k)
    else SetPhase(s, k, Renaming(k.name, MAX_RETRIES))
  }

  /** The step under the rename lock: take a free name, or look at the length of the file there. */
  function StepRename(s: State, k: Key, next: Path -> Path): State {
    if k !in s.incoming || !s.incoming[k].phase.Renaming? then s
    else
      var t := s.incoming[k];
      var dst, left := t.phase.dst, t.phase.left;
      if left == 0 then End(s, k)
      else if dst !in s.files then Finish(s, k, dst)
      else if |s.files[dst]| == t.offset + |t.data| then SetPhase(s, k, Comparing(dst, left))
      else SetPhase(s, k, Renaming(next(dst), left - 1))
  }

  function StepCompare(s: State, k: Key, hash: Resume.Hash, next: Path -> Path): State {
    if k !in s.incoming || !s.incoming[k].phase.Comparing? then s
    else
      var dst, left := s.incoming[k].phase.dst, s.incoming[k].phase.left;
      var content := Get(s.files, PartialPath(k));
      if hash(content) == hash(Get(s.files, dst))
      then State(s.files - {PartialPath(k)}, s.incoming - {k}, s.finished + [Finished(k, dst, content)])
      else SetPhase(s, k, if left == 0 then Renaming(dst, 0) else Renaming(next(dst), left - 1))
  }

  /** An event that cannot happen in a state leaves it as it is. */
  function Step(s: State, e: Event, hash: Resume.Hash, next: Path -> Path): State {
    match e
    case Begin(k, offset, length) => StepBegin(s, k, offset, length)
    case Write(k, chunk) => StepWrite(s, k, chunk)
    case Abort(k) => End(s, k)
    case CopyEnds(k) => StepCopyEnds(s, k)
    case Rename(k) => StepRename(s, k, next)
    case CompareSums(k) => StepCompare(s, k, hash, next)
    case Appear(p, content) => if Final(p) && p !in s.files then s.(files := s.files[p := content]) else s
  }

  function Run(files: map<Path, Bytes>, events: seq<Event>, hash: Resume.Hash, next: Path -> Path): State {
    if events == [] then State(files, map[], [])
    else Step(Run(files, events[..|events| - 1], hash, next), events[|events| - 1], hash, next)
  }

  // ----- The invariant -----

  /** The partial file of a running transfer holds exactly what the transfer put there. */
  ghost predicate TransferOk(files: map<Path, Bytes>, k: Key, t: Transfer) {
    && Final(k.name) && t.offset <= |t.start|
    && PartialPath(k) in files && files[PartialPath(k)] == Image(t.start, t.offset, t.data)
    && (!t.phase.Copying? && t.length >= 0 ==> |t.data| == t.length)
    && (t.phase.Renaming? ==> Final(t.phase.dst) && t.phase.left <= MAX_RETRIES)
    && (t.phase.Comparing? ==> Final(t.phase.dst) && t.phase.dst in files && 0 < t.phase.left <= MAX_RETRIES)
  }

  ghost predicate FinishedOk(files: map<Path, Bytes>, f: Finished) {
    Final(f.dst) && f.dst in files && files[f.dst] == f.content
  }

  /** Running transfers have partial files of their own. */
  ghost predicate Unshared(keys: set<Key>) {
    forall j, k :: j in keys && k in keys && PartialPath(j) == PartialPath(k) ==> j == k
  }

  ghost predicate Inv(s: State) {
    && Unshared(s.incoming.Keys)
    && (forall k :: k in s.incoming ==> TransferOk(s.files, k, s.incoming[k]))
    && (forall f :: f in s.finished ==> FinishedOk(s.files, f))
  }

  /** Only the partial file of `k` may change or go; files may appear. */
  ghost predicate OnlyTouches(files: map<Path, Bytes>, files': map<Path, Bytes>, k: Key) {
    forall p :: p in files && p != PartialPath(k) ==> p in files' && files'[p] == files[p]
  }

  /** The invariant is kept, and no file changes but the partial file of `k`. */
  ghost predicate Good(s: State, s': State, k: Key) {
    Inv(s') && OnlyTouches(s.files, s'.files, k)
  }

  /** No running transfer has the partial file that `k` would use. */
  ghost predicate Apart(s: State, k: Key) {
    forall j :: j in s.incoming && j != k ==> PartialPath(j) != PartialPath(k)
  }

  lemma RunningIsApart(s: State, k: Key)
    requires Inv(s) && k in s.incoming
    ensures Apart(s, k)
  {
  }

  lemma StaysUnshared(s: State, s': State, k: Key)
    requires Unshared(s.incoming.Keys) && Apart(s, k)
    requires forall j :: j in s'.incoming && j != k ==> j in s.incoming
    ensures Unshared(s'.incoming.Keys)
  {
  }

  /** Transfers other than `k` and finished ones are not affected by what touches only `k`. */
  lemma OthersKept(s: State, s': State, k: Key)
    requires Inv(s) && OnlyTouches(s.files, s'.files, k) && Apart(s, k)
    requires forall j :: j in s'.incoming && j != k ==> j in s.incoming && s'.incoming[j] == s.incoming[j]
    requires k in s'.incoming ==> TransferOk(s'.files, k, s'.incoming[k])
    requires forall f :: f in s'.finished ==> f in s.finished || FinishedOk(s'.files, f)
    ensures Inv(s')
  {
    StaysUnshared(s, s', k);
    forall j | j in s'.incoming ensures TransferOk(s'.files, j, s'.incoming[j]) {
      if j != k {
        OtherStaysOk(s, s'.files, k, j);
      }
    }
    forall f | f in s'.finished ensures FinishedOk(s'.files, f) {
      if f in s.finished {
        FinishedStaysOk(s, s'.files, k, f);
      }
    }
  }

  lemma OtherStaysOk(s: State, files: map<Path, Bytes>, k: Key, j: Key)
    requires Inv(s) && OnlyTouches(s.files, files, k) && Apart(s, k) && j in s.incoming && j != k
    ensures TransferOk(files, j, s.incoming[j])
  {
    assert TransferOk(s.files, j, s.incoming[j]);
    PartialNotFinal(k);
  }

  lemma FinishedStaysOk(s: State, files: map<Path, Bytes>, k: Key, f: Finished)
    requires Inv(s) && OnlyTouches(s.files, files, k) && f in s.finished
    ensures FinishedOk(files, f)
  {
    assert FinishedOk(s.files, f);
    PartialNotFinal(k);
  }

  lemma BeginKeeps(s: State, k: Key, offset: int, length: int)
    requires Inv(s) && Apart(s, k)
    ensures Good(s, StepBegin(s, k, offset, length), k)
  {
    var s' := StepBegin(s, k, offset, length);
    if Final(k.name) && k !in s.incoming {
      OthersKept(s, s', k);
    }
  }

  /** A running transfer that gets a chunk has it in its partial file. */
  lemma WriteImages(s: State, k: Key, chunk: Bytes)
    requires k in s.incoming && s.incoming[k].phase.Copying? && TransferOk(s.files, k, s.incoming[k])
    ensures var t := s.incoming[k];
      StepWrite(s, k, chunk) == s.(files := s.files[PartialPath(k) := Image(t.start, t.offset, t.data + chunk)],
                                   incoming := s.incoming[k := t.(data := t.data + chunk)])
  {
    ImageGrows(s.incoming[k].start, s.incoming[k].offset, s.incoming[k].data, chunk);
  }

  lemma WriteKeeps(s: State, k: Key, chunk: Bytes)
    requires Inv(s)
    ensures Good(s, StepWrite(s, k, chunk), k)
  {
    if k in s.incoming && s.incoming[k].phase.Copying? {
      assert TransferOk(s.files, k, s.incoming[k]);
      WriteImages(s, k, chunk);
      RunningIsApart(s, k);
      OthersKept(s, StepWrite(s, k, chunk), k);
    }
  }

  lemma PhaseKeeps(s: State, k: Key, phase: Phase)
    requires Inv(s) && k in s.incoming && TransferOk(s.files, k, s.incoming[k].(phase := phase))
    ensures Good(s, SetPhase(s, k, phase), k)
  {
    RunningIsApart(s, k);
    OthersKept(s, SetPhase(s, k, phase), k);
  }

  lemma EndKeeps(s: State, k: Key)
    requires Inv(s)
    ensures Good(s, End(s, k), k)
  {
    if k in s.incoming {
      RunningIsApart(s, k);
      OthersKept(s, End(s, k), k);
    } else {
      assert End(s, k) == s;
    }
  }

  /** Finishing under a free name moves the partial file there. */
  lemma FinishKeeps(s: State, k: Key, dst: Path)
    requires Inv(s) && k in s.incoming && Final(dst) && dst !in s.files
    ensures Good(s, Finish(s, k, dst), k)
  {
    RunningIsApart(s, k);
    OthersKept(s, Finish(s, k, dst), k);
  }

  lemma RenameKeeps(s: State, k: Key, next: Path -> Path)
    requires Inv(s) && KeepsFinal(next)
    ensures Good(s, StepRename(s, k, next), k)
  {
    if k in s.incoming && s.incoming[k].phase.Renaming? {
      var t := s.incoming[k];
      var dst, left := t.phase.dst, t.phase.left;
      assert TransferOk(s.files, k, t);
      if left == 0 {
        EndKeeps(s, k);
      } else if dst !in s.files {
        FinishKeeps(s, k, dst);
      } else if |s.files[dst]| == t.offset + |t.data| {
        PhaseKeeps(s, k, Comparing(dst, left));
      } else {
        PhaseKeeps(s, k, Renaming(next(dst), left - 1));
      }
    }
  }

  lemma CompareKeeps(s: State, k: Key, hash: Resume.Hash, next: Path -> Path)
    requires Inv(s) && KeepsFinal(next) && Injective(hash)
    ensures Good(s, StepCompare(s, k, hash, next), k)
  {
    if k in s.incoming && s.incoming[k].phase.Comparing? {
      var t := s.incoming[k];
      assert TransferOk(s.files, k, t);
      PartialNotFinal(k);
      var s' := StepCompare(s, k, hash, next);
      if hash(Get(s.files, PartialPath(k))) == hash(Get(s.files, t.phase.dst)) {
        RunningIsApart(s, k);
        OthersKept(s, s', k);
      } else {
        PhaseKeeps(s, k, Renaming(next(t.phase.dst), t.phase.left - 1));
      }
    }
  }

  lemma AppearKeeps(s: State, p: Path, content: Bytes)
    requires Inv(s) && Final(p) && p !in s.files
    ensures Inv(s.(files := s.files[p := content]))
  {
    var s' := s.(files := s.files[p := content]);
    forall k | k in s.incoming ensures TransferOk(s'.files, k, s.incoming[k]) {
      assert TransferOk(s.files, k, s.incoming[k]);
      PartialNotFinal(k);
    }
    forall f | f in s.finished ensures FinishedOk(s'.files, f) {
      assert FinishedOk(s.files, f);
    }
  }

  /** Every step of a transfer keeps the invariant and changes no file but the transfer's own partial
      file; so does another program that creates a file. */
  lemma StepKeeps(s: State, e: Event, hash: Resume.Hash, next: Path -> Path)
    requires Inv(s) && KeepsFinal(next) && Injective(hash)
    requires e.Begin? ==> Apart(s, e.k)
    ensures Inv(Step(s, e, hash, next))
    ensures !e.Appear? ==> OnlyTouches(s.files, Step(s, e, hash, next).files, e.k)
    ensures e.Appear? ==> forall p :: p in s.files ==> Step(s, e, hash, next).files[p] == s.files[p]
  {
    match e
    case Begin(k, offset, length) => BeginKeeps(s, k, offset, length);
    case Write(k, chunk) => WriteKeeps(s, k, chunk);
    case Abort(k) => EndKeeps(s, k);
    case CopyEnds(k) =>
      if k in s.incoming && s.incoming[k].phase.Copying? {
        assert TransferOk(s.files, k, s.incoming[k]);
        EndKeeps(s, k);
        if s.incoming[k].length < 0 || |s.incoming[k].data| == s.incoming[k].length {
          PhaseKeeps(s, k, Renaming(k.name, MAX_RETRIES));
        }
      }
    case Rename(k) => RenameKeeps(s, k, next);
    case CompareSums(k) => CompareKeeps(s, k, hash, next);
    case Appear(p, content) =>
      if Final(p) && p !in s.files {
        AppearKeeps(s, p, content);
      }
  }

  /** Files with final names are kept as they are. */
  ghost predicate KeepsFinals(files: map<Path, Bytes>, files': map<Path, Bytes>) {
    forall p :: p in files && Final(p) ==> p in files' && files'[p] == files[p]
  }

  lemma StepKeepsFinals(s: State, e: Event, hash: Resume.Hash, next: Path -> Path)
    requires Inv(s) && KeepsFinal(next) && Injective(hash)
    requires e.Begin? ==> Apart(s, e.k)
    ensures Inv(Step(s, e, hash, next)) && KeepsFinals(s.files, Step(s, e, hash, next).files)
  {
    StepKeeps(s, e, hash, next);
    if !e.Appear? {
      PartialNotFinal(e.k);
    }
  }

  /** No transfer begins while another one runs on the same partial file. */
  ghost predicate NeverShares(files: map<Path, Bytes>, events: seq<Event>, hash: Resume.Hash, next: Path -> Path) {
    events != [] ==>
      var before, e := events[..|events| - 1], events[|events| - 1];
      && NeverShares(files, before, hash, next)
      && (e.Begin? ==> Apart(Run(files, before, hash, next), e.k))
  }

  /** However transfers interleave, as long as no two run on one partial file, no file that existed
      under a final name is ever changed, and every transfer that finished left a final file with
      exactly its content. */
  lemma {:induction false} NothingOverwritten(files: map<Path, Bytes>, events: seq<Event>, hash: Resume.Hash, next: Path -> Path)
    requires NeverShares(files, events, hash, next) && KeepsFinal(next) && Injective(hash)
    ensures var s := Run(files, events, hash, next); Inv(s) && KeepsFinals(files, s.files)
    decreases |events|
  {
    if events != [] {
      var before, e := events[..|events| - 1], events[|events| - 1];
      NothingOverwritten(files, before, hash, next);
      StepKeepsFinals(Run(files, before, hash, next), e, hash, next);
    }
  }

  /** The keys of the transfers that a run begins. */
  function Begun(events: seq<Event>): set<Key> {
    set e | e in events && e.Begin? :: e.k
  }

  lemma StepBegins(s: State, e: Event, hash: Resume.Hash, next: Path -> Path)
    ensures Step(s, e, hash, next).incoming.Keys <= s.incoming.Keys + if e.Begin? then {e.k} else {}
  {
  }

  lemma BegunGrows(events: seq<Event>)
    requires events != []
    ensures var before, e := events[..|events| - 1], events[|events| - 1];
      Begun(before) <= Begun(events) && (e.Begin? ==> e.k in Begun(events))
  {
    assert forall x :: x in events[..|events| - 1] ==> x in events;
    assert events[|events| - 1] in events;
  }

  lemma {:induction false} RunningWasBegun(files: map<Path, Bytes>, events: seq<Event>, hash: Resume.Hash, next: Path -> Path)
    ensures Run(files, events, hash, next).incoming.Keys <= Begun(events)
    decreases |events|
  {
    if events != [] {
      var before, e := events[..|events| - 1], events[|events| - 1];
      RunningWasBegun(files, before, hash, next);
      StepBegins(Run(files, before, hash, next), e, hash, next);
      BegunGrows(events);
    }
  }

  /** It suffices that the keys a run begins have partial files of their own. */
  lemma {:induction false} UnsharedSuffices(files: map<Path, Bytes>, events: seq<Event>, hash: Resume.Hash, next: Path -> Path)
    requires Unshared(Begun(events))
    ensures NeverShares(files, events, hash, next)
    decreases |events|
  {
    if events != [] {
      var before, e := events[..|events| - 1], events[|events| - 1];
      BegunGrows(events);
      UnsharedSuffices(files, before, hash, next);
      RunningWasBegun(files, before, hash, next);
    }
  }

  /** Identifiers without dots suffice for that. */
  lemma PlainClientsSuffice(keys: set<Key>)
    requires forall k :: k in keys ==> DotFree(k.id)
    ensures Unshared(keys)
  {
    forall j, k | j in keys && k in keys && PartialPath(j) == PartialPath(k) ensures j == k {
      PartialPathsDistinct(j, k);
    }
  }

  /** A transfer that finishes leaves what its partial file held when it was opened, cut at the
      offset, and what it copied, which is as long as was announced, under a final name; the
      partial file is gone. */
  lemma FinishIsExact(s: State, e: Event, hash: Resume.Hash, next: Path -> Path)
    requires Inv(s) && Injective(hash) && |Step(s, e, hash, next).finished| > |s.finished|
    ensures (e.Rename? || e.CompareSums?) && e.k in s.incoming
    ensures var s', t := Step(s, e, hash, next), s.incoming[e.k];
      var f := s'.finished[|s.finished|];
      && t.offset <= |t.start| && f.k == e.k && f.content == Image(t.start, t.offset, t.data)
      && (t.length >= 0 ==> |t.data| == t.length)
      && Final(f.dst) && f.dst in s'.files && s'.files[f.dst] == f.content
      && PartialPath(e.k) !in s'.files && e.k !in s'.incoming
  {
    assert (e.Rename? || e.CompareSums?) && e.k in s.incoming;
    assert TransferOk(s.files, e.k, s.incoming[e.k]);
    PartialNotFinal(e.k);
  }

  // ----- Under which name a transfer finishes -----

  /** The names before the one that a transfer tries were taken by other content, and still are. */
  ghost predicate Tried(files: map<Path, Bytes>, next: Path -> Path, k: Key, t: Transfer)
    requires t.offset <= |t.start|
  {
    t.phase.Copying? ||
    (&& t.phase.left <= MAX_RETRIES && t.phase.dst == Nth(next, k.name, MAX_RETRIES - t.phase.left)
     && AllTaken(files, next, k, t, MAX_RETRIES - t.phase.left)
     && (t.phase.Comparing? ==> t.phase.dst in files && |files[t.phase.dst]| == t.offset + |t.data|))
  }

  ghost predicate AllTaken(files: map<Path, Bytes>, next: Path -> Path, k: Key, t: Transfer, n: nat)
    requires t.offset <= |t.start|
  {
    forall j :: 0 <= j < n ==> !Fits(files, Nth(next, k.name, j), Image(t.start, t.offset, t.data), t.offset + |t.data|)
  }

  ghost predicate AllTried(s: State, next: Path -> Path) {
    forall k :: k in s.incoming ==> s.incoming[k].offset <= |s.incoming[k].start| && Tried(s.files, next, k, s.incoming[k])
  }

  /** Final names that are taken stay taken by the same content. */
  lemma StaysTried(files: map<Path, Bytes>, files': map<Path, Bytes>, next: Path -> Path, k: Key, t: Transfer)
    requires Final(k.name) && KeepsFinal(next) && KeepsFinals(files, files') && t.offset <= |t.start| && Tried(files, next, k, t)
    ensures Tried(files', next, k, t)
  {
    if !t.phase.Copying? {
      forall j: nat ensures Final(Nth(next, k.name, j)) {
        NthIsFinal(next, k.name, j);
      }
    }
  }

  /** One more name is found taken. */
  lemma TriesNext(files: map<Path, Bytes>, next: Path -> Path, k: Key, t: Transfer)
    requires t.offset <= |t.start| && Tried(files, next, k, t) && !t.phase.Copying? && t.phase.left > 0
    requires !Fits(files, t.phase.dst, Image(t.start, t.offset, t.data), t.offset + |t.data|)
    ensures Tried(files, next, k, t.(phase := Renaming(next(t.phase.dst), t.phase.left - 1)))
  {
  }

  lemma RenameTried(s: State, k: Key, next: Path -> Path)
    requires k in s.incoming && s.incoming[k].offset <= |s.incoming[k].start| && Tried(s.files, next, k, s.incoming[k])
    requires s.incoming[k].phase.Renaming? && k in StepRename(s, k, next).incoming
    ensures var s' := StepRename(s, k, next);
      s'.incoming[k].offset <= |s'.incoming[k].start| && s'.files == s.files && Tried(s.files, next, k, s'.incoming[k])
  {
    var t := s.incoming[k];
    if |s.files[t.phase.dst]| != t.offset + |t.data| {
      TriesNext(s.files, next, k, t);
    }
  }

  lemma CompareTried(s: State, k: Key, hash: Resume.Hash, next: Path -> Path)
    requires Inv(s) && k in s.incoming && TransferOk(s.files, k, s.incoming[k]) && Tried(s.files, next, k, s.incoming[k])
    requires s.incoming[k].phase.Comparing? && k in StepCompare(s, k, hash, next).incoming
    ensures var s' := StepCompare(s, k, hash, next);
      s'.incoming[k].offset <= |s'.incoming[k].start| && s'.files == s.files && Tried(s.files, next, k, s'.incoming[k])
  {
    var t := s.incoming[k];
    assert Get(s.files, PartialPath(k)) == Image(t.start, t.offset, t.data);
    TriesNext(s.files, next, k, t);
    assert StepCompare(s, k, hash, next) == SetPhase(s, k, Renaming(next(t.phase.dst), t.phase.left - 1));
  }

  /** What an event makes of the transfer it is about. */
  lemma OwnTried(s: State, e: Event, hash: Resume.Hash, next: Path -> Path)
    requires Inv(s) && AllTried(s, next) && !e.Appear?
    requires e.k in Step(s, e, hash, next).incoming
    ensures var s' := Step(s, e, hash, next);
      var t := s'.incoming[e.k];
      t.offset <= |t.start| && (t.phase.Copying? || (s'.files == s.files && Tried(s.files, next, e.k, t)))
  {
    var k := e.k;
    if k in s.incoming {
      assert TransferOk(s.files, k, s.incoming[k]) && Tried(s.files, next, k, s.incoming[k]);
      if e.Rename? && s.incoming[k].phase.Renaming? {
        RenameTried(s, k, next);
      } else if e.CompareSums? && s.incoming[k].phase.Comparing? {
        CompareTried(s, k, hash, next);
      }
    }
  }

  lemma StepTried(s: State, e: Event, hash: Resume.Hash, next: Path -> Path)
    requires Inv(s) && AllTried(s, next) && KeepsFinal(next) && Injective(hash)
    requires e.Begin? ==> Apart(s, e.k)
    ensures AllTried(Step(s, e, hash, next), next)
  {
    var s' := Step(s, e, hash, next);
    StepKeepsFinals(s, e, hash, next);
    forall k | k in s'.incoming
      ensures s'.incoming[k].offset <= |s'.incoming[k].start| && Tried(s'.files, next, k, s'.incoming[k])
    {
      if !e.Appear? && k == e.k {
        OwnTried(s, e, hash, next);
      } else {
        OthersUntouched(s, e, hash, next, k);
        assert TransferOk(s.files, k, s.incoming[k]) && Tried(s.files, next, k, s.incoming[k]);
        StaysTried(s.files, s'.files, next, k, s.incoming[k]);
      }
    }
  }

  lemma OthersUntouched(s: State, e: Event, hash: Resume.Hash, next: Path -> Path, k: Key)
    requires k in Step(s, e, hash, next).incoming && (e.Appear? || k != e.k)
    ensures k in s.incoming && Step(s, e, hash, next).incoming[k] == s.incoming[k]
  {
  }

  lemma {:induction false} RunTried(files: map<Path, Bytes>, events: seq<Event>, hash: Resume.Hash, next: Path -> Path)
    requires NeverShares(files, events, hash, next) && KeepsFinal(next) && Injective(hash)
    ensures AllTried(Run(files, events, hash, next), next)
    decreases |events|
  {
    if events != [] {
      var before := events[..|events| - 1];
      RunTried(files, before, hash, next);
      NothingOverwritten(files, before, hash, next);
      StepTried(Run(files, before, hash, next), events[|events| - 1], hash, next);
    }
  }

  /** The event finishes a transfer, under the first of the ten names that fits at that moment: one
      that is free or holds the same content. */
  ghost predicate FinishesFirst(s: State, e: Event, hash: Resume.Hash, next: Path -> Path) {
    && (e.Rename? || e.CompareSums?) && e.k in s.incoming && |Step(s, e, hash, next).finished| > |s.finished|
    && var t, f := s.incoming[e.k], Step(s, e, hash, next).finished[|s.finished|];
       exists i :: 0 <= i < MAX_RETRIES && f.dst == Nth(next, e.k.name, i) && FirstFit(s.files, next, e.k.name, f.content, t.offset + |t.data|, i)
  }

  lemma FinishFits(s: State, e: Event, hash: Resume.Hash, next: Path -> Path)
    requires Inv(s) && AllTried(s, next) && Injective(hash) && |Step(s, e, hash, next).finished| > |s.finished|
    ensures FinishesFirst(s, e, hash, next)
  {
    assert (e.Rename? || e.CompareSums?) && e.k in s.incoming;
    var t := s.incoming[e.k];
    assert TransferOk(s.files, e.k, t) && Tried(s.files, next, e.k, t);
    var f := Step(s, e, hash, next).finished[|s.finished|];
    FitsAfterTried(s.files, next, e.k, t, f.content);
  }

  lemma FitsAfterTried(files: map<Path, Bytes>, next: Path -> Path, k: Key, t: Transfer, content: Bytes)
    requires t.offset <= |t.start| && Tried(files, next, k, t) && !t.phase.Copying? && content == Image(t.start, t.offset, t.data)
    requires Fits(files, t.phase.dst, content, t.offset + |t.data|)
    ensures FirstFit(files, next, k.name, content, t.offset + |t.data|, MAX_RETRIES - t.phase.left)
    ensures t.phase.dst == Nth(next, k.name, MAX_RETRIES - t.phase.left)
  {
  }

  /** However transfers interleave and whatever other programs create: a transfer finishes under the
      name that it would have been given had all its attempts been made at that moment. */
  lemma FinishesUnderFirstFit(files: map<Path, Bytes>, events: seq<Event>, e: Event, hash: Resume.Hash, next: Path -> Path)
    requires NeverShares(files, events, hash, next) && KeepsFinal(next) && Injective(hash)
    requires var s := Run(files, events, hash, next); |Step(s, e, hash, next).finished| > |s.finished|
    ensures FinishesFirst(Run(files, events, hash, next), e, hash, next)
  {
    NothingOverwritten(files, events, hash, next);
    RunTried(files, events, hash, next);
    FinishFits(Run(files, events, hash, next), e, hash, next);
  }

  /** The rename attempts of a transfer are numbered down: each step either ends the transfer or
      comes nearer to the end, so there are at most ten attempts. */
  lemma RenameProgress(s: State, k: Key, hash: Resume.Hash, next: Path -> Path)
    requires Inv(s) && k in s.incoming && !s.incoming[k].phase.Copying?
    ensures s.incoming[k].phase.left <= MAX_RETRIES
    ensures var s' := if s.incoming[k].phase.Renaming? then StepRename(s, k, next) else StepCompare(s, k, hash, next);
      k in s'.incoming ==>
        && !s'.incoming[k].phase.Copying?
        && (s'.incoming[k].phase.left < s.incoming[k].phase.left
            || (s'.incoming[k].phase.left == s.incoming[k].phase.left && s.incoming[k].phase.Renaming? && s'.incoming[k].phase.Comparing?))
  {
    assert TransferOk(s.files, k, s.incoming[k]);
  }

  /** A transfer whose data completes what is in the partial file to `content`. */
  lemma StoredExactly(files: map<Path, Bytes>, files': map<Path, Bytes>, r: Result<int, Error>, k: Key, content: Bytes,
                      data: Bytes, offset: nat, maxRetries: nat, next: Path -> Path)
    requires Final(k.name) && KeepsFinal(next)
    requires var start := Get(files, PartialPath(k));
      offset <= |start| && offset + |data| == |content| && Image(start, offset, data) == content
    requires Stored(files, files', r, k, data, false, offset, |data|, maxRetries, next)
    ensures r == Err(TooManyRetries) || r == Ok(|content|)
    ensures r.Ok? ==> PartialPath(k) !in files' && exists dst :: Final(dst) && dst in files' && files'[dst] == content
  {
    PartialNotFinal(k);
    ChosenIsFinal(files[PartialPath(k) := content], next, k.name, content, |content|, maxRetries);
  }

  /** The two sides together: a sender that asks for checksums and sends from the offset it found
      has its content stored under a final name, with the partial file gone, whenever the store
      reports success and the sender skipped something or the partial file was not longer. */
  lemma ResumedTransfer(files: map<Path, Bytes>, files': map<Path, Bytes>, r: Result<int, Error>, k: Key, content: Bytes,
                        hash: Resume.Hash, ask: (nat, nat, nat) -> Resume.Reply, maxRetries: nat, next: Path -> Path)
    requires Final(k.name) && KeepsFinal(next)
    requires var file := if PartialPath(k) in files then Some(files[PartialPath(k)]) else None;
      Resume.Serves(ask, hash, file) && Resume.NoCollision(hash, Resume.Held(file), content, 0)
    requires var offset := Resume.Resume(hash, ask, 0, 0, content, false).at;
      && offset <= |content|
      && Stored(files, files', r, k, content[offset..], false, offset, |content| - offset, maxRetries, next)
      && (offset > 0 || |Get(files, PartialPath(k))| <= |content|)
    ensures r == Err(TooManyRetries) || r == Ok(|content|)
    ensures r.Ok? ==> PartialPath(k) !in files' && exists dst :: Final(dst) && dst in files' && files'[dst] == content
  {
    var file := if PartialPath(k) in files then Some(files[PartialPath(k)]) else None;
    Resume.ResumesAtLongestMatch(hash, ask, file, content);
    var offset := Resume.Match(Resume.Held(file), content, 0);
    ResumeRebuilds(Resume.Held(file), content);
    StoredExactly(files, files', r, k, content, content[offset..], offset, maxRetries, next);
  }

  // ----- A resumed transfer among others -----

  /** When the running transfer of `k` began. */
  ghost function BeganAt(files: map<Path, Bytes>, events: seq<Event>, hash: Resume.Hash, next: Path -> Path, k: Key): (n: nat)
    requires k in Run(files, events, hash, next).incoming
    ensures n < |events|
    decreases |events|
  {
    var before := events[..|events| - 1];
    if k in Run(files, before, hash, next).incoming then BeganAt(files, before, hash, next, k) else |events| - 1
  }

  lemma StepKeepsBeginning(s: State, e: Event, hash: Resume.Hash, next: Path -> Path, k: Key)
    requires k in Step(s, e, hash, next).incoming
    ensures var t := Step(s, e, hash, next).incoming[k];
      if k in s.incoming
      then t.offset == s.incoming[k].offset && t.length == s.incoming[k].length && t.start == s.incoming[k].start
      else e == Begin(k, t.offset, t.length) && t.start == Get(s.files, PartialPath(k))
  {
  }

  /** A running transfer knows what it began with. */
  lemma {:induction false} BeganWith(files: map<Path, Bytes>, events: seq<Event>, hash: Resume.Hash, next: Path -> Path, k: Key)
    requires k in Run(files, events, hash, next).incoming
    ensures var n, t := BeganAt(files, events, hash, next, k), Run(files, events, hash, next).incoming[k];
      && events[n] == Begin(k, t.offset, t.length)
      && t.start == Get(Run(files, events[..n], hash, next).files, PartialPath(k))
    decreases |events|
  {
    var before, e := events[..|events| - 1], events[|events| - 1];
    StepKeepsBeginning(Run(files, before, hash, next), e, hash, next, k);
    if k in Run(files, before, hash, next).incoming {
      BeganWith(files, before, hash, next, k);
      var n := BeganAt(files, before, hash, next, k);
      assert before[..n] == events[..n];
    }
  }

  /** The partial file of `k`, if there is one. */
  function PartialFile(files: map<Path, Bytes>, k: Key): Option<Bytes> {
    if PartialPath(k) in files then Some(files[PartialPath(k)]) else None
  }

  lemma {:induction false} InjectiveNeverCollides(hash: Resume.Hash, p: Bytes, l: Bytes, at: nat)
    requires Injective(hash) && at <= |p| && at <= |l|
    ensures Resume.NoCollision(hash, p, l, at)
    decreases |p| - at
  {
    if at < |p| && at < |l| && Resume.BlockEnd(at, |p|) == Resume.BlockEnd(at, |l|) {
      InjectiveNeverCollides(hash, p, l, Resume.BlockEnd(at, |p|));
    }
  }

  lemma FindsMatch(hash: Resume.Hash, ask: (nat, nat, nat) -> Resume.Reply, files: map<Path, Bytes>, k: Key, content: Bytes)
    requires Injective(hash) && Resume.Serves(ask, hash, PartialFile(files, k))
    ensures Resume.Resume(hash, ask, 0, 0, content, false).at == Resume.Match(Get(files, PartialPath(k)), content, 0) <= |content|
  {
    var file := PartialFile(files, k);
    assert Resume.Held(file) == Get(files, PartialPath(k));
    InjectiveNeverCollides(hash, Resume.Held(file), content, 0);
    Resume.ResumesAtLongestMatch(hash, ask, file, content);
  }

  lemma WholeRest(data: Bytes, rest: Bytes)
    requires data <= rest && |data| == |rest|
    ensures data == rest
  {
  }

  /** However transfers interleave: a sender that was told the checksums of the partial file as it
      was when its transfer began, that announced the rest from the offset it found, and of which no
      more than a part of that rest has come in so far, has all of it stored when the transfer
      finishes; and the final file is the sender's content exactly if something was skipped or the
      partial file was no longer than the content. */
  lemma ResumedAmongOthers(
      files: map<Path, Bytes>, events: seq<Event>, e: Event, hash: Resume.Hash, next: Path -> Path,
      content: Bytes, ask: (nat, nat, nat) -> Resume.Reply)
    requires NeverShares(files, events, hash, next) && KeepsFinal(next) && Injective(hash)
    requires var s := Run(files, events, hash, next);
      && (e.Rename? || e.CompareSums?) && e.k in s.incoming
      && |Step(s, e, hash, next).finished| > |s.finished|
    requires var n := BeganAt(files, events, hash, next, e.k);
      var began, offset := Run(files, events[..n], hash, next).files, Resume.Resume(hash, ask, 0, 0, content, false).at;
      && Resume.Serves(ask, hash, PartialFile(began, e.k)) && offset <= |content|
      && events[n] == Begin(e.k, offset, |content| - offset)
      && Run(files, events, hash, next).incoming[e.k].data <= content[offset..]
    ensures var s := Run(files, events, hash, next);
      var s' := Step(s, e, hash, next);
      var held := Get(Run(files, events[..BeganAt(files, events, hash, next, e.k)], hash, next).files, PartialPath(e.k));
      && var f := s'.finished[|s.finished|];
         && f.k == e.k && Final(f.dst) && f.dst in s'.files && s'.files[f.dst] == f.content
         && PartialPath(e.k) !in s'.files
         && (f.content == content <==> Resume.Resume(hash, ask, 0, 0, content, false).at > 0 || |held| <= |content|)
  {
    var s := Run(files, events, hash, next);
    var n := BeganAt(files, events, hash, next, e.k);
    var began := Run(files, events[..n], hash, next).files;
    NothingOverwritten(files, events, hash, next);
    FinishIsExact(s, e, hash, next);
    BeganWith(files, events, hash, next, e.k);
    FindsMatch(hash, ask, began, e.k, content);
    var t := s.incoming[e.k];
    WholeRest(t.data, content[t.offset..]);
    ResumeRebuilds(t.start, content);
  }
}
