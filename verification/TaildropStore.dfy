/** Storing received files: copying into a partial file, then renaming it to a free name. */
module TaildropStore {
  import opened Wrappers
  import Resume = TaildropResume

  type Path = string

  const PARTIAL_SUFFIX: Path := ".partial"
  const MAX_RETRIES: nat := 10

  /** Identifies a transfer: the client, and where the file is to be stored. */
  datatype Key = Key(id: string, name: Path)

  // ----- Names -----

  function Suffix(id: string): string {
    if id == "" then PARTIAL_SUFFIX else "." + id + PARTIAL_SUFFIX
  }

  function PartialPath(k: Key): Path {
    k.name + Suffix(k.id)
  }

  predicate EndsWith(s: string, suffix: string) {
    |s| >= |suffix| && s[|s| - |suffix|..] == suffix
  }

  /** A name that a received file may have in the end. */
  predicate Final(p: Path) {
    !EndsWith(p, PARTIAL_SUFFIX)
  }

  lemma PartialNotFinal(k: Key)
    ensures !Final(PartialPath(k))
  {
    var p := PartialPath(k);
    assert p[|p| - |PARTIAL_SUFFIX|..] == PARTIAL_SUFFIX;
  }

  /** A name numbered by inserting a number before an extension it has already stays final. */
  lemma NumberedIsFinal(stem: string, number: string, ext: string, name: Path)
    requires Final(name) && EndsWith(name, ext)
    ensures Final(stem + " (" + number + ")" + ext)
  {
    var p := stem + " (" + number + ")" + ext;
    var n := |PARTIAL_SUFFIX|;
    if |ext| >= n {
      assert p[|p| - n..] == ext[|ext| - n..] == name[|name| - n..];
    } else if |p| >= n {
      var i := n - |ext| - 1;
      assert p[|p| - n..][i] == p[|p| - |ext| - 1] == ')';
      assert PARTIAL_SUFFIX[i] != ')';
    }
  }

  predicate DotFree(id: string) {
    id != "" && '.' !in id
  }

  /** Clients with plain identifiers never share a partial file. */
  lemma PartialPathsDistinct(a: Key, b: Key)
    requires DotFree(a.id) && DotFree(b.id) && PartialPath(a) == PartialPath(b)
    ensures a == b
  {
    DottedPath(a);
    DottedPath(b);
    SameFront(a.name + "." + a.id, b.name + "." + b.id, PARTIAL_SUFFIX);
    LastDot(a.name, a.id, b.name, b.id);
  }

  lemma DottedPath(k: Key)
    requires k.id != ""
    ensures PartialPath(k) == (k.name + "." + k.id) + PARTIAL_SUFFIX
  {
  }

  lemma SameFront(x: string, y: string, end: string)
    requires x + end == y + end
    ensures x == y
  {
    var p, q := x + end, y + end;
    assert |x| == |y|;
    assert p[..|x|] == x && q[..|y|] == y;
  }

  lemma LastDot(n: string, i: string, m: string, j: string)
    requires '.' !in i && '.' !in j && n + "." + i == m + "." + j
    ensures n == m && i == j
  {
    if |n| < |m| {
      DotInside(n, i, m, j);
    } else if |m| < |n| {
      DotInside(m, j, n, i);
    } else {
      var s, t := n + "." + i, m + "." + j;
      assert s[..|n|] == n && t[..|m|] == m && s[|n| + 1..] == i && t[|m| + 1..] == j;
    }
  }

  lemma DotInside(n: string, i: string, m: string, j: string)
    requires n + "." + i == m + "." + j && |n| < |m|
    ensures '.' in i
  {
    var s, t := n + "." + i, m + "." + j;
    assert t[|m|] == '.';
    assert s[|m|] == i[|m| - |n| - 1];
  }

  /** An identifier with a dot, or none at all, can make two transfers share a partial file. */
  lemma PartialPathsMayCollide()
    ensures PartialPath(Key("b.c", "a")) == PartialPath(Key("c", "a.b"))
    ensures PartialPath(Key("", "a.b")) == PartialPath(Key("b", "a"))
  {
    assert "a" + ("." + "b.c" + PARTIAL_SUFFIX) == "a.b" + ("." + "c" + PARTIAL_SUFFIX);
    assert "a.b" + PARTIAL_SUFFIX == "a" + ("." + "b" + PARTIAL_SUFFIX);
  }

  /** What a client's identifier adds to a name before the partial suffix. */
  function Dotted(id: string): string {
    if id == "" then "" else "." + id
  }

  lemma SuffixIsDotted(k: Key)
    ensures PartialPath(k) == k.name + Dotted(k.id) + PARTIAL_SUFFIX
  {
  }

  /** Whether a name is final depends only on its end from a dot on. */
  lemma FinalFromDot(n: string, x: string)
    requires x != "" && x[0] == '.'
    ensures Final(n + x) <==> Final(x)
  {
    var p, m := n + x, |PARTIAL_SUFFIX|;
    if |x| >= m {
      assert p[|p| - m..] == x[|x| - m..];
    } else if |p| >= m {
      var i := m - |x|;
      assert p[|p| - m..][i] == x[0];
      assert PARTIAL_SUFFIX[i] != '.';
    }
  }

  /** `a` is `b` with something in front, up to a dot, that leaves a final name final. */
  predicate Extends(a: string, b: string) {
    EndsWith(Dotted(a), Dotted(b)) && Final(Dotted(a)[..|Dotted(a)| - |Dotted(b)|])
  }

  lemma Regroup(n: string, x: string, y: string, z: string)
    ensures n + (x + y) + z == (n + x) + y + z
  {
  }

  lemma FrontAndEnd(s: string, end: string)
    requires EndsWith(s, end)
    ensures s == s[..|s| - |end|] + end
  {
  }

  /** What stands in front starts with a dot, unless the identifiers are the same. */
  lemma FrontHasDot(a: string, b: string)
    requires a != b && EndsWith(Dotted(a), Dotted(b))
    ensures |Dotted(a)| > |Dotted(b)| && Dotted(a)[0] == '.'
  {
    SameIdentifier(a, b);
    FrontAndEnd(Dotted(a), Dotted(b));
  }

  lemma ExtendsCollides(a: string, b: string, n: string) returns (m: string)
    requires a != b && Extends(a, b)
    ensures Final(m) && PartialPath(Key(a, n)) == PartialPath(Key(b, m))
  {
    var x, y := Dotted(a)[..|Dotted(a)| - |Dotted(b)|], Dotted(b);
    FrontHasDot(a, b);
    FrontAndEnd(Dotted(a), y);
    FinalFromDot(n, x);
    m := n + x;
    SuffixIsDotted(Key(a, n));
    SuffixIsDotted(Key(b, m));
    Regroup(n, x, y, PARTIAL_SUFFIX);
  }

  lemma SameIdentifier(a: string, b: string)
    ensures Dotted(a) == Dotted(b) <==> a == b
  {
    if a != "" && b != "" {
      assert Dotted(a)[1..] == a && Dotted(b)[1..] == b;
    }
  }

  lemma CollisionExtends(a: Key, b: Key)
    requires Final(a.name) && Final(b.name) && PartialPath(a) == PartialPath(b) && a.id != b.id
    requires |Dotted(a.id)| >= |Dotted(b.id)|
    ensures Extends(a.id, b.id)
  {
    SuffixIsDotted(a);
    SuffixIsDotted(b);
    SameIdentifier(a.id, b.id);
    var p, n := PartialPath(a), |PARTIAL_SUFFIX|;
    var q := p[..|p| - n];
    assert q == a.name + Dotted(a.id) && q == b.name + Dotted(b.id);
    CommonEnd(a.name, Dotted(a.id), b.name, Dotted(b.id));
    FinalFromDot(a.name, Dotted(a.id)[..|Dotted(a.id)| - |Dotted(b.id)|]);
  }

  /** Of two ends of one string the longer one ends with the shorter one. */
  lemma CommonEnd(n: string, x: string, m: string, y: string)
    requires n + x == m + y && |x| >= |y|
    ensures EndsWith(x, y) && m == n + x[..|x| - |y|]
  {
    var q, r := n + x, m + y;
    assert x[|x| - |y|..] == q[|q| - |y|..] && r[|r| - |y|..] == y;
    assert q[..|q| - |y|] == n + x[..|x| - |y|] && r[..|r| - |y|] == m;
  }

  /** Two different identifiers can share a partial file, for some final names, exactly if one is
      the other with something in front, up to a dot, that leaves names final. */
  lemma CollisionExact(a: string, b: string)
    requires a != b
    ensures (exists n, m :: Final(n) && Final(m) && PartialPath(Key(a, n)) == PartialPath(Key(b, m))) <==>
      Extends(a, b) || Extends(b, a)
  {
    assert Final("f");
    if Extends(a, b) {
      var m := ExtendsCollides(a, b, "f");
      assert Final(m) && PartialPath(Key(a, "f")) == PartialPath(Key(b, m));
    }
    if Extends(b, a) {
      var n := ExtendsCollides(b, a, "f");
      assert Final(n) && PartialPath(Key(a, n)) == PartialPath(Key(b, "f"));
    }
    if n, m :| Final(n) && Final(m) && PartialPath(Key(a, n)) == PartialPath(Key(b, m)) {
      if |Dotted(a)| >= |Dotted(b)| {
        CollisionExtends(Key(a, n), Key(b, m));
      } else {
        CollisionExtends(Key(b, m), Key(a, n));
      }
    }
  }

  // ----- Contents -----

  /** A file that held `start`, after `data` was written from `offset`. A positive offset cuts the
      file there first; offset zero does not, so what is longer than the data stays. */
  function Image(start: Bytes, offset: nat, data: Bytes): Bytes
    requires offset <= |start|
  {
    if offset == 0 then data + (if |data| <= |start| then start[|data|..] else [])
    else start[..offset] + data
  }

  /** `chunk` written over `s` at `pos`. */
  function WriteAt(s: Bytes, pos: nat, chunk: Bytes): Bytes
    requires pos <= |s|
  {
    s[..pos] + chunk + (if pos + |chunk| <= |s| then s[pos + |chunk|..] else [])
  }

  lemma ImageGrows(start: Bytes, offset: nat, data: Bytes, chunk: Bytes)
    requires offset <= |start|
    ensures offset + |data| <= |Image(start, offset, data)|
    ensures WriteAt(Image(start, offset, data), offset + |data|, chunk) == Image(start, offset, data + chunk)
  {
    if offset == 0 {
      FrontGrows(start, data, chunk);
    } else {
      var s := start[..offset] + data;
      assert s[..offset + |data|] == s;
      assert WriteAt(s, offset + |data|, chunk) == s + chunk + [] == start[..offset] + (data + chunk);
    }
  }

  lemma FrontGrows(start: Bytes, data: Bytes, chunk: Bytes)
    ensures WriteAt(Image(start, 0, data), |data|, chunk) == Image(start, 0, data + chunk)
  {
    var tail := if |data| <= |start| then start[|data|..] else [];
    var s := data + tail;
    assert s == Image(start, 0, data) && s[..|data|] == data;
    if |data| + |chunk| <= |start| {
      assert s[|data| + |chunk|..] == tail[|chunk|..] == start[|data| + |chunk|..];
    }
    assert data + chunk + (if |data| + |chunk| <= |start| then start[|data| + |chunk|..] else [])
        == Image(start, 0, data + chunk);
  }

  /** A transfer that resumes after the longest run of equal blocks rebuilds the sender's content
      exactly when it skips something or the partial file is no longer than the content. */
  lemma ResumeRebuilds(partial: Bytes, content: Bytes)
    ensures var offset := Resume.Match(partial, content, 0);
      Image(partial, offset, content[offset..]) == content <==> offset > 0 || |partial| <= |content|
  {
    var offset := Resume.Match(partial, content, 0);
    Resume.MatchIsEqual(partial, content, 0);
    assert content[..offset] + content[offset..] == content;
  }

  /** A stale partial file that is longer and differs from the start is not cut. */
  lemma StalePartialKept()
    ensures Image([1, 2], Resume.Match([1, 2], [3], 0), [3]) == [3, 2]
  {
    var p: Bytes, l: Bytes := [1, 2], [3];
    assert Resume.Block(p, 0) == p && Resume.Block(l, 0) == l;
  }

  // ----- One transfer at a time -----

  ghost predicate Injective(hash: Resume.Hash) {
    forall a, b :: hash(a) == hash(b) ==> a == b
  }

  ghost predicate KeepsFinal(next: Path -> Path) {
    forall p :: Final(p) ==> Final(next(p))
  }

  datatype Error = InvalidFileName | FileExists | CopyFailed | TooManyRetries

  /** The name is free, or taken by the same content. */
  predicate Fits(files: map<Path, Bytes>, dst: Path, content: Bytes, fileLength: nat) {
    dst !in files || (|files[dst]| == fileLength && files[dst] == content)
  }

  /** The first of `n` names that fits. */
  function Choose(files: map<Path, Bytes>, next: Path -> Path, dst: Path, content: Bytes, fileLength: nat, n: nat): Option<Path>
    decreases n
  {
    if n == 0 then None
    else if Fits(files, dst, content, fileLength) then Some(dst)
    else Choose(files, next, next(dst), content, fileLength, n - 1)
  }

  lemma {:induction false} ChosenIsFinal(
      files: map<Path, Bytes>, next: Path -> Path, dst: Path, content: Bytes, fileLength: nat, n: nat)
    requires Final(dst) && KeepsFinal(next)
    ensures var c := Choose(files, next, dst, content, fileLength, n);
      c.Some? ==> Final(c.value) && Fits(files, c.value, content, fileLength)
    decreases n
  {
    if n > 0 {
      ChosenIsFinal(files, next, next(dst), content, fileLength, n - 1);
    }
  }

  function Get(files: map<Path, Bytes>, p: Path): Bytes {
    if p in files then files[p] else []
  }

  function Join(chunks: seq<Bytes>): Bytes {
    if chunks == [] then [] else Join(chunks[..|chunks| - 1]) + chunks[|chunks| - 1]
  }

  lemma JoinSnoc(chunks: seq<Bytes>, i: nat)
    requires i < |chunks|
    ensures Join(chunks[..i + 1]) == Join(chunks[..i]) + chunks[i]
  {
    assert chunks[..i + 1][..i] == chunks[..i];
  }

  predicate OutOfRange(offset: int, size: nat) {
    offset != 0 && (offset < 0 || offset > size)
  }

  class Manager {
    var files: map<Path, Bytes>
    var incoming: set<Key>

    constructor (files: map<Path, Bytes>)
      ensures this.files == files && incoming == {}
    {
      this.files, incoming := files, {};
    }

    /** Writes the chunks into the partial file from `offset`. */
    method CopyChunks(p: Path, offset: nat, chunks: seq<Bytes>) returns (copied: nat)
      requires p in files && offset <= |files[p]|
      modifies this`files
      ensures copied == |Join(chunks)|
      ensures files == old(files)[p := Image(old(files[p]), offset, Join(chunks))]
    {
      copied := 0;
      if offset != 0 {
        files := files[p := files[p][..offset]];
      }
      assert chunks[..0] == [] && Image(old(files[p]), offset, []) == files[p];
      for i := 0 to |chunks|
        invariant files == old(files)[p := Image(old(files[p]), offset, Join(chunks[..i]))]
        invariant copied == |Join(chunks[..i])|
      {
        JoinSnoc(chunks, i);
        ImageGrows(old(files[p]), offset, Join(chunks[..i]), chunks[i]);
        files := files[p := WriteAt(files[p], offset + copied, chunks[i])];
        copied := copied + |chunks[i]|;
      }
      assert chunks[..|chunks|] == chunks;
    }

    /** Renames the partial file to the first name that fits. */
    method RenamePartial(p: Path, name: Path, fileLength: nat, maxRetries: nat, hash: Resume.Hash, next: Path -> Path)
      returns (r: Option<Path>)
      requires p in files && !Final(p) && Final(name) && KeepsFinal(next) && Injective(hash)
      modifies this`files
      ensures r == Choose(old(files), next, name, old(files[p]), fileLength, maxRetries)
      ensures files == if r.Some? then (old(files) - {p})[r.value := old(files[p])] else old(files)
    {
      var dst, left: nat := name, maxRetries;
      ghost var goal := Choose(files, next, name, files[p], fileLength, maxRetries);
      while left > 0
        invariant left <= maxRetries && files == old(files) && Final(dst)
        invariant Choose(files, next, dst, files[p], fileLength, left) == goal
      {
        if dst !in files {
          files := (files - {p})[dst := files[p]];
          return Some(dst);
        }
        if |files[dst]| == fileLength && hash(files[p]) == hash(files[dst]) {
          files := files - {p};
          return Some(dst);
        }
        dst := next(dst);
        left := left - 1;
      }
      return None;
    }

    /** Stores a file. `chunks` is what the reader yields before it ends or, if `broken`, fails. */
    method PutFile(k: Key, chunks: seq<Bytes>, broken: bool, offset: int, length: int, hash: Resume.Hash, next: Path -> Path)
      returns (r: Result<int, Error>)
      requires KeepsFinal(next) && Injective(hash)
      modifies this
      ensures incoming == old(incoming)
      ensures !Final(k.name) ==> r == Err(InvalidFileName) && files == old(files)
      ensures Final(k.name) && k in incoming ==> r == Err(FileExists) && files == old(files)
      ensures Final(k.name) && k !in incoming ==>
        Stored(old(files), files, r, k, Join(chunks), broken, offset, length, MAX_RETRIES, next)
    {
      if !Final(k.name) {
        return Err(InvalidFileName);
      }
      if k in incoming {
        return Err(FileExists);
      }
      incoming := incoming + {k};
      r := Receive(k, chunks, broken, offset, length, MAX_RETRIES, hash, next);
      incoming := incoming - {k};
    }

    /** Opens the partial file, seeks and cuts it, and copies; refuses an offset outside the file. */
    method CopyIn(p: Path, chunks: seq<Bytes>, offset: int) returns (ok: bool, copied: nat)
      modifies this`files
      ensures ok <==> !OutOfRange(offset, |Get(old(files), p)|)
      ensures !ok ==> files == old(files)[p := Get(old(files), p)]
      ensures ok ==> copied == |Join(chunks)| && files == old(files)[p := Image(Get(old(files), p), offset, Join(chunks))]
    {
      copied := 0;
      if p !in files {
        files := files[p := []];
      }
      assert files == old(files)[p := Get(old(files), p)];
      if offset != 0 && (offset < 0 || offset > |files[p]|) {
        return false, 0;
      }
      copied := CopyChunks(p, offset, chunks);
      ok := true;
    }

    /** The transfer proper, with a number of names to try. */
    method Receive(k: Key, chunks: seq<Bytes>, broken: bool, offset: int, length: int, maxRetries: nat,
                   hash: Resume.Hash, next: Path -> Path)
      returns (r: Result<int, Error>)
      requires Final(k.name) && KeepsFinal(next) && Injective(hash)
      modifies this`files
      ensures Stored(old(files), files, r, k, Join(chunks), broken, offset, length, maxRetries, next)
    {
      var p := PartialPath(k);
      PartialNotFinal(k);
      var ok, copied := CopyIn(p, chunks, offset);
      if !ok {
        return Ok(0);
      }
      if broken || (length >= 0 && copied != length) {
        return Err(CopyFailed);
      }
      var dst := RenamePartial(p, k.name, offset + copied, maxRetries, hash, next);
      if dst.None? {
        return Err(TooManyRetries);
      }
      return Ok(offset + copied);
    }
  }

  /** What storing a file does to the files. An offset outside the partial file is reported as a
      success that stored nothing. */
  ghost predicate Stored(files: map<Path, Bytes>, files': map<Path, Bytes>, r: Result<int, Error>,
                         k: Key, data: Bytes, broken: bool, offset: int, length: int, maxRetries: nat, next: Path -> Path)
  {
    var p := PartialPath(k);
    var start := Get(files, p);
    if OutOfRange(offset, |start|) then r == Ok(0) && files' == files[p := start]
    else
      var image := Image(start, offset, data);
      var copied := files[p := image];
      if broken || (length >= 0 && |data| != length) then r == Err(CopyFailed) && files' == copied
      else
        var dst := Choose(copied, next, k.name, image, offset + |data|, maxRetries);
        if dst.None? then r == Err(TooManyRetries) && files' == copied
        else r == Ok(offset + |data|) && files' == (copied - {p})[dst.value := image]
  }

  /** The name after `i` numberings. */
  function Nth(next: Path -> Path, name: Path, i: nat): Path {
    if i == 0 then name else next(Nth(next, name, i - 1))
  }

  lemma {:induction false} NthShift(next: Path -> Path, name: Path, i: nat)
    ensures Nth(next, next(name), i) == Nth(next, name, i + 1)
  {
    if i > 0 {
      NthShift(next, name, i - 1);
    }
  }

  /** Name `i` fits, and none before it does. */
  ghost predicate FirstFit(files: map<Path, Bytes>, next: Path -> Path, name: Path, content: Bytes, fileLength: nat, i: nat) {
    && Fits(files, Nth(next, name, i), content, fileLength)
    && forall j :: 0 <= j < i ==> !Fits(files, Nth(next, name, j), content, fileLength)
  }

  /** The names are tried in order: the first of `n` that fits is chosen, none exactly if none fits. */
  lemma {:induction false} ChosenIsFirst(
      files: map<Path, Bytes>, next: Path -> Path, name: Path, content: Bytes, fileLength: nat, n: nat)
    ensures var c := Choose(files, next, name, content, fileLength, n);
      && (c.Some? ==> exists i :: 0 <= i < n && c.value == Nth(next, name, i) && FirstFit(files, next, name, content, fileLength, i))
      && (c.None? ==> forall i :: 0 <= i < n ==> !Fits(files, Nth(next, name, i), content, fileLength))
    decreases n
  {
    if n > 0 {
      if Fits(files, name, content, fileLength) {
        assert Nth(next, name, 0) == name && FirstFit(files, next, name, content, fileLength, 0);
      } else {
        ChosenIsFirst(files, next, next(name), content, fileLength, n - 1);
        LaterFits(files, next, name, content, fileLength, n);
      }
    }
  }

  lemma OneFirstFit(files: map<Path, Bytes>, next: Path -> Path, name: Path, content: Bytes, fileLength: nat, i: nat, j: nat)
    requires FirstFit(files, next, name, content, fileLength, i) && FirstFit(files, next, name, content, fileLength, j)
    ensures i == j
  {
  }

  /** And the first that fits is chosen. */
  lemma FirstIsChosen(
      files: map<Path, Bytes>, next: Path -> Path, name: Path, content: Bytes, fileLength: nat, n: nat, i: nat)
    requires i < n && FirstFit(files, next, name, content, fileLength, i)
    ensures Choose(files, next, name, content, fileLength, n) == Some(Nth(next, name, i))
  {
    ChosenIsFirst(files, next, name, content, fileLength, n);
    var c := Choose(files, next, name, content, fileLength, n);
    if c.Some? {
      var j: nat :| j < n && c.value == Nth(next, name, j) && FirstFit(files, next, name, content, fileLength, j);
      OneFirstFit(files, next, name, content, fileLength, i, j);
    }
  }

  lemma LaterFits(files: map<Path, Bytes>, next: Path -> Path, name: Path, content: Bytes, fileLength: nat, n: nat)
    requires n > 0 && !Fits(files, name, content, fileLength)
    ensures forall i: nat :: FirstFit(files, next, next(name), content, fileLength, i) ==>
      FirstFit(files, next, name, content, fileLength, i + 1) && Nth(next, name, i + 1) == Nth(next, next(name), i)
    ensures (forall i :: 0 <= i < n - 1 ==> !Fits(files, Nth(next, next(name), i), content, fileLength)) ==>
      forall i :: 0 <= i < n ==> !Fits(files, Nth(next, name, i), content, fileLength)
  {
    forall i: nat ensures Nth(next, next(name), i) == Nth(next, name, i + 1) {
      NthShift(next, name, i);
    }
    assert Nth(next, name, 0) == name;
    forall i: nat | i > 0 ensures Nth(next, name, i) == Nth(next, next(name), i - 1) {
      NthShift(next, name, i - 1);
    }
  }

  /** Whatever comes of it, storing a file changes no file but its partial file, and makes at most
      one new one: under the first of the names that is free or holds the same content. */
  lemma StoringOverwritesNothing(
      files: map<Path, Bytes>, files': map<Path, Bytes>, r: Result<int, Error>, k: Key, data: Bytes, broken: bool,
      offset: int, length: int, maxRetries: nat, next: Path -> Path, q: Path)
    requires Final(k.name) && KeepsFinal(next) && q != PartialPath(k)
    requires Stored(files, files', r, k, data, broken, offset, length, maxRetries, next)
    ensures q in files ==> q in files' && files'[q] == files[q]
    ensures q !in files && q in files' ==>
      && r.Ok? && !OutOfRange(offset, |Get(files, PartialPath(k))|)
      && exists i :: 0 <= i < maxRetries && q == Nth(next, k.name, i) && forall j :: 0 <= j < i ==> Nth(next, k.name, j) in files
  {
    var p := PartialPath(k);
    var start := Get(files, p);
    PartialNotFinal(k);
    if !OutOfRange(offset, |start|) {
      var image := Image(start, offset, data);
      ChosenIsFinal(files[p := image], next, k.name, image, offset + |data|, maxRetries);
      ChosenIsFirst(files[p := image], next, k.name, image, offset + |data|, maxRetries);
      forall j: nat ensures Nth(next, k.name, j) != p {
        NthIsFinal(next, k.name, j);
      }
    }
  }

  lemma {:induction false} NthIsFinal(next: Path -> Path, name: Path, i: nat)
    requires Final(name) && KeepsFinal(next)
    ensures Final(Nth(next, name, i))
  {
    if i > 0 {
      NthIsFinal(next, name, i - 1);
    }
  }
}
