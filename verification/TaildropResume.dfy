/** Resuming a transfer: how much of a file the other side holds already, found by comparing
    checksums of blocks. */
module TaildropResume {
  import opened Wrappers

  const BLOCK_SIZE: nat := 0x1_0000

  /** What one request covers: as many blocks as have checksums that fill a block, 2048. */
  const HASH_LENGTH: nat := 0x800_0000

  const HASH_ALGORITHM := "sha256"

  datatype Checksum = Checksum(cs: Bytes)

  type Hash = Bytes -> Checksum

  datatype FileChecksums = FileChecksums(
    offset: int, length: int, checksums: seq<Checksum>, algorithm: string, blockSize: int)

  const NO_CHECKSUMS := FileChecksums(0, 0, [], "", 0)

  /** The answer to a request for checksums. */
  datatype Reply = Reply(sums: FileChecksums, failed: bool)

  // ----- Blocks -----

  /** Where the block that starts at `at` ends, in a content that ends at `end`. */
  function BlockEnd(at: nat, end: nat): (e: nat)
    requires at <= end
    ensures at <= e <= end && e - at <= BLOCK_SIZE && (at < end ==> at < e)
  {
    if end - at < BLOCK_SIZE then end else at + BLOCK_SIZE
  }

  function Block(s: Bytes, at: nat): Bytes
    requires at <= |s|
  {
    s[at..BlockEnd(at, |s|)]
  }

  predicate WholeBlocks(n: nat) {
    n % 0x1_0000 == 0
  }

  /** The checksums of the blocks of `s` from `at` to `end`; only the last block may be short. */
  function Sums(hash: Hash, s: Bytes, at: nat, end: nat): seq<Checksum>
    requires at <= end <= |s|
    decreases end - at
  {
    if at == end then []
    else [hash(s[at..BlockEnd(at, end)])] + Sums(hash, s, BlockEnd(at, end), end)
  }

  /** Where the run of equal blocks that starts at `at` ends. */
  function Match(p: Bytes, l: Bytes, at: nat): (n: nat)
    requires at <= |p| && at <= |l|
    ensures at <= n <= |p| && n <= |l|
    decreases |p| - at
  {
    if at == |p| || at == |l| || Block(p, at) != Block(l, at) then at
    else
      assert |Block(p, at)| == |Block(l, at)|;
      Match(p, l, BlockEnd(at, |p|))
  }

  /** What matched is equal. */
  lemma {:induction false} MatchIsEqual(p: Bytes, l: Bytes, at: nat)
    requires at <= |p| && at <= |l| && p[..at] == l[..at]
    ensures p[..Match(p, l, at)] == l[..Match(p, l, at)]
    decreases |p| - at
  {
    if at < |p| && at < |l| && Block(p, at) == Block(l, at) {
      var e := BlockEnd(at, |p|);
      assert |Block(p, at)| == |Block(l, at)|;
      assert p[..e] == p[..at] + p[at..e] && l[..e] == l[..at] + l[at..e];
      MatchIsEqual(p, l, e);
    }
  }

  /** And no more would match: the next blocks differ, or one side has ended. */
  lemma {:induction false} MatchIsLongest(p: Bytes, l: Bytes, at: nat)
    requires at <= |p| && at <= |l|
    ensures var n := Match(p, l, at); n == |p| || n == |l| || Block(p, n) != Block(l, n)
    decreases |p| - at
  {
    if at < |p| && at < |l| && Block(p, at) == Block(l, at) {
      assert |Block(p, at)| == |Block(l, at)|;
      MatchIsLongest(p, l, BlockEnd(at, |p|));
    }
  }

  /** The blocks of two contents that are compared with each other do not collide. */
  predicate NoCollision(hash: Hash, p: Bytes, l: Bytes, at: nat)
    requires at <= |p| && at <= |l|
    decreases |p| - at
  {
    at < |p| && at < |l| ==>
      && (hash(Block(p, at)) == hash(Block(l, at)) ==> Block(p, at) == Block(l, at))
      && (BlockEnd(at, |p|) == BlockEnd(at, |l|) ==> NoCollision(hash, p, l, BlockEnd(at, |p|)))
  }

  // ----- The side that holds the partial file -----

  /** Where the part of the file that a request covers ends. A negative length means all of it. */
  function WindowEnd(p: Bytes, offset: nat, length: int): (end: nat)
    requires offset <= |p|
    ensures offset <= end <= |p|
  {
    if 0 <= length < |p| - offset then offset + length else |p|
  }

  function Answer(hash: Hash, file: Option<Bytes>, offset: nat, length: int): Reply {
    if file.None? then Reply(NO_CHECKSUMS, false)
    else
      var at := if offset <= |file.value| then offset else |file.value|;
      var end := WindowEnd(file.value, at, length);
      Reply(FileChecksums(offset, end - at, Sums(hash, file.value, at, end), HASH_ALGORITHM, BLOCK_SIZE), false)
  }

  /** Hashes a partial file block by block. A missing file has no checksums; a negative offset
      cannot be sought; past the end there is nothing to hash. */
  method HashPartialFile(file: Option<Bytes>, offset: int, length: int, hash: Hash) returns (r: Reply)
    ensures file.Some? && offset < 0 ==> r == Reply(NO_CHECKSUMS, true)
    ensures file.None? || offset >= 0 ==> r == Answer(hash, file, if offset >= 0 then offset else 0, length)
  {
    if file.None? {
      return Reply(NO_CHECKSUMS, false);
    }
    if offset < 0 {
      return Reply(NO_CHECKSUMS, true);
    }
    var at := if offset <= |file.value| then offset else |file.value|;
    var sums, total := HashBlocks(file.value, at, WindowEnd(file.value, at, length), hash);
    return Reply(FileChecksums(offset, total, sums, HASH_ALGORITHM, BLOCK_SIZE), false);
  }

  lemma SumsStep(hash: Hash, s: Bytes, at: nat, end: nat, sums: seq<Checksum>)
    requires at < end <= |s|
    ensures sums + Sums(hash, s, at, end)
         == (sums + [hash(s[at..BlockEnd(at, end)])]) + Sums(hash, s, BlockEnd(at, end), end)
  {
  }

  method HashBlocks(s: Bytes, start: nat, end: nat, hash: Hash) returns (sums: seq<Checksum>, total: nat)
    requires start <= end <= |s|
    ensures sums == Sums(hash, s, start, end) && total == end - start
  {
    sums, total := [], 0;
    ghost var all := Sums(hash, s, start, end);
    while true
      invariant start + total <= end
      invariant sums + Sums(hash, s, start + total, end) == all
      decreases end - total
    {
      var at := start + total;
      var b := s[at..BlockEnd(at, end)];
      if |b| == 0 {
        assert Sums(hash, s, end, end) == [] && sums + [] == sums;
        break;
      }
      SumsStep(hash, s, at, end, sums);
      sums := sums + [hash(b)];
      total := total + |b|;
    }
  }

  // ----- The side that sends -----

  /** How comparing ended: everything up to `at` matched, and either all checksums did or the
      comparison stopped, perhaps because reading failed. */
  datatype Compared = Compared(at: nat, stopped: bool, failed: bool)

  /** Compares the blocks of `l` from `at` with checksums. A broken reader fails at its end. */
  function Compare(hash: Hash, sums: seq<Checksum>, l: Bytes, at: nat, broken: bool): (c: Compared)
    requires at <= |l|
    ensures at <= c.at <= |l| && (!c.stopped && sums != [] ==> at < c.at)
  {
    if sums == [] then Compared(at, false, false)
    else
      var b := Block(l, at);
      var failed := |b| < BLOCK_SIZE && broken;
      if |b| == 0 || failed then Compared(at, true, failed)
      else if hash(b) != sums[0] then Compared(at, true, false)
      else Compare(hash, sums[1..], l, BlockEnd(at, |l|), broken)
  }

  /** What one answer leads to, and whether to ask again. */
  function Round(hash: Hash, reply: Reply, l: Bytes, at: nat, broken: bool): (c: Compared)
    requires at <= |l|
    ensures at <= c.at <= |l| && (!c.stopped ==> at < c.at)
  {
    if reply.sums.checksums == [] || reply.failed then Compared(at, true, reply.failed)
    else if reply.sums.blockSize != BLOCK_SIZE || reply.sums.algorithm != HASH_ALGORITHM then Compared(at, true, true)
    else
      var c := Compare(hash, reply.sums.checksums, l, at, broken);
      if !c.stopped && reply.sums.length < HASH_LENGTH then Compared(c.at, true, false) else c
  }

  /** Where a resumed transfer continues, asking for one stretch of checksums after another. The
      answers may depend on the number of the request. */
  function Resume(hash: Hash, ask: (nat, nat, nat) -> Reply, k: nat, at: nat, l: Bytes, broken: bool): Compared
    requires at <= |l|
    decreases |l| - at
  {
    var c := Round(hash, ask(k, at, HASH_LENGTH), l, at, broken);
    if c.stopped then c else Resume(hash, ask, k + 1, c.at, l, broken)
  }

  /** Reads and discards the leading content that the other side has. Whatever it is told, what it
      hands on is exactly the content from the offset it returns. */
  method ResumeReader(content: Bytes, broken: bool, hash: Hash, ask: (nat, nat, nat) -> Reply)
    returns (offset: nat, rest: Bytes, failed: bool)
    ensures offset <= |content| && rest == content[offset..]
    ensures Compared(offset, true, failed) == Resume(hash, ask, 0, 0, content, broken)
  {
    offset := 0;
    var calls: nat := 0;
    ghost var goal := Resume(hash, ask, 0, 0, content, broken);
    while true
      invariant offset <= |content|
      invariant Resume(hash, ask, calls, offset, content, broken) == goal
      decreases |content| - offset
    {
      var c;
      c, rest := CompareReply(hash, ask(calls, offset, HASH_LENGTH), content, offset, broken);
      offset, calls := c.at, calls + 1;
      if c.stopped {
        return offset, rest, c.failed;
      }
    }
  }

  /** The body of the outer loop. */
  method CompareReply(hash: Hash, reply: Reply, content: Bytes, offset: nat, broken: bool)
    returns (c: Compared, rest: Bytes)
    requires offset <= |content|
    ensures c == Round(hash, reply, content, offset, broken) && rest == content[c.at..]
  {
    if |reply.sums.checksums| == 0 || reply.failed {
      return Compared(offset, true, reply.failed), content[offset..];
    } else if reply.sums.blockSize != BLOCK_SIZE || reply.sums.algorithm != HASH_ALGORITHM {
      return Compared(offset, true, true), content[offset..];
    }
    c, rest := CompareBlocks(hash, reply.sums.checksums, content, offset, broken);
    if !c.stopped && reply.sums.length < HASH_LENGTH {
      c := Compared(c.at, true, false);
    }
  }

  lemma BlockInFront(s: Bytes, at: nat)
    requires at <= |s|
    ensures Block(s, at) + s[BlockEnd(at, |s|)..] == s[at..]
  {
  }

  lemma CompareStep(hash: Hash, sums: seq<Checksum>, i: nat, l: Bytes, at: nat, broken: bool)
    requires i < |sums| && at <= |l|
    ensures var b := Block(l, at);
      var failed := |b| < BLOCK_SIZE && broken;
      Compare(hash, sums[i..], l, at, broken) ==
        if |b| == 0 || failed then Compared(at, true, failed)
        else if hash(b) != sums[i] then Compared(at, true, false)
        else Compare(hash, sums[i + 1..], l, BlockEnd(at, |l|), broken)
  {
    assert sums[i..][0] == sums[i] && sums[i..][1..] == sums[i + 1..];
  }

  /** The inner loop: one block for each checksum. The reader has delivered `pos` bytes; a block
      `b` that was read and not matched goes back in front of what is left. */
  method CompareBlocks(hash: Hash, sums: seq<Checksum>, content: Bytes, start: nat, broken: bool)
    returns (c: Compared, rest: Bytes)
    requires start <= |content|
    ensures c == Compare(hash, sums, content, start, broken) && rest == content[c.at..]
  {
    var offset: nat, pos: nat := start, start;
    ghost var goal := Compare(hash, sums, content, start, broken);
    var b: Bytes := [];
    for i := 0 to |sums|
      invariant offset == pos <= |content| && b == []
      invariant Compare(hash, sums[i..], content, offset, broken) == goal
    {
      CompareStep(hash, sums, i, content, pos, broken);
      BlockInFront(content, pos);
      b := Block(content, pos);
      pos := BlockEnd(pos, |content|);
      var failed := |b| < BLOCK_SIZE && broken;
      if |b| == 0 || failed {
        return Compared(offset, true, failed), b + content[pos..];
      }
      if hash(b) != sums[i] {
        return Compared(offset, true, false), b + content[pos..];
      }
      offset := offset + |b|;
      assert offset == pos;
      b := [];
    }
    return Compared(offset, false, false), b + content[pos..];
  }

  // ----- Both sides together -----

  /** The answers come from a partial file, which may be missing. */
  ghost predicate Serves(ask: (nat, nat, nat) -> Reply, hash: Hash, file: Option<Bytes>) {
    forall k: nat, offset: nat, length: nat :: ask(k, offset, length) == Answer(hash, file, offset, length)
  }

  function Held(file: Option<Bytes>): Bytes {
    if file.Some? then file.value else []
  }

  /** Comparing one checksum, then the others. */
  lemma CompareFirst(hash: Hash, sum: Checksum, rest: seq<Checksum>, l: Bytes, at: nat)
    requires at < |l|
    ensures Compare(hash, [sum] + rest, l, at, false) ==
      if hash(Block(l, at)) != sum then Compared(at, true, false)
      else Compare(hash, rest, l, BlockEnd(at, |l|), false)
  {
    var sums := [sum] + rest;
    assert sums[1..] == rest && sums[0] == sum;
    assert |Block(l, at)| > 0;
  }

  lemma MatchStep(p: Bytes, l: Bytes, at: nat)
    requires at < |p| && at < |l| && Block(p, at) == Block(l, at)
    ensures BlockEnd(at, |p|) == BlockEnd(at, |l|) && Match(p, l, at) == Match(p, l, BlockEnd(at, |p|))
  {
    assert |Block(p, at)| == |Block(l, at)|;
  }

  /** Comparing the checksums of a stretch of the partial file: its blocks are those of the file. */
  lemma {:induction false} CompareMatches(hash: Hash, p: Bytes, l: Bytes, at: nat, end: nat)
    requires at <= end <= |p| && at <= |l| && (WholeBlocks(end - at) || end == |p|) && NoCollision(hash, p, l, at)
    ensures var c := Compare(hash, Sums(hash, p, at, end), l, at, false);
      && !c.failed && (c.stopped ==> c.at == Match(p, l, at))
      && (!c.stopped ==> c.at == end && Match(p, l, at) == Match(p, l, end) && NoCollision(hash, p, l, end))
    decreases end - at
  {
    if at < end && at < |l| {
      var e := BlockEnd(at, end);
      assert e == BlockEnd(at, |p|);
      CompareFirst(hash, hash(Block(p, at)), Sums(hash, p, e, end), l, at);
      if Block(p, at) == Block(l, at) {
        MatchStep(p, l, at);
        CompareMatches(hash, p, l, e, end);
      }
    }
  }

  lemma RoundMatches(hash: Hash, p: Bytes, l: Bytes, at: nat)
    requires at <= |p| && at <= |l| && NoCollision(hash, p, l, at)
    ensures var c := Round(hash, Answer(hash, Some(p), at, HASH_LENGTH), l, at, false);
      && !c.failed && (c.stopped ==> c.at == Match(p, l, at))
      && (!c.stopped ==> c.at <= |p| && Match(p, l, at) == Match(p, l, c.at) && NoCollision(hash, p, l, c.at))
  {
    var end := WindowEnd(p, at, HASH_LENGTH);
    assert WholeBlocks(end - at) || end == |p|;
    CompareMatches(hash, p, l, at, end);
  }

  /** Asked about a partial file in stretches, a sender stops exactly at the longest run of equal
      leading blocks. */
  lemma {:induction false} ResumeMatches(hash: Hash, ask: (nat, nat, nat) -> Reply, k: nat, at: nat, p: Bytes, l: Bytes)
    requires Serves(ask, hash, Some(p)) && at <= |p| && at <= |l| && NoCollision(hash, p, l, at)
    ensures Resume(hash, ask, k, at, l, false) == Compared(Match(p, l, at), true, false)
    decreases |l| - at
  {
    RoundMatches(hash, p, l, at);
    assert ask(k, at, HASH_LENGTH) == Answer(hash, Some(p), at, HASH_LENGTH);
    var c := Round(hash, Answer(hash, Some(p), at, HASH_LENGTH), l, at, false);
    if !c.stopped {
      ResumeMatches(hash, ask, k + 1, c.at, p, l);
    }
  }

  /** Whatever the other side holds, the transfer continues after the longest run of equal leading
      blocks; asking for all checksums in one request would give the same answer. */
  lemma ResumesAtLongestMatch(hash: Hash, ask: (nat, nat, nat) -> Reply, file: Option<Bytes>, l: Bytes)
    requires Serves(ask, hash, file) && NoCollision(hash, Held(file), l, 0)
    ensures Resume(hash, ask, 0, 0, l, false) == Compared(Match(Held(file), l, 0), true, false)
    ensures Compare(hash, Answer(hash, file, 0, -1).sums.checksums, l, 0, false).at == Match(Held(file), l, 0)
  {
    if file.Some? {
      ResumeMatches(hash, ask, 0, 0, file.value, l);
      CompareMatches(hash, file.value, l, 0, |file.value|);
    } else {
      assert ask(0, 0, HASH_LENGTH) == Answer(hash, file, 0, HASH_LENGTH);
    }
  }
}
