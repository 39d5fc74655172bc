/** Frames on the wire: a type byte, a big-endian length and a body. */
module DerpFrames {
  import opened Wrappers

  const FRAME_HEADER_LEN := 5
  const KEY_LEN := 32
  const MAX_FRAME_WRITE := 0xa0_0000

  type Uint32 = x: int | 0 <= x < 0x1_0000_0000

  datatype Frame = Frame(t: Byte, body: Bytes)

  datatype Error = EOF | TooLarge | ShortBuffer | BadFrame | NotPermitted

  function Uint32Of(b: Bytes): Uint32
    requires |b| == 4
  {
    var b0: int := b[0];
    ((b0 * 256 + b[1]) * 256 + b[2]) * 256 + b[3]
  }

  function PutUint32(v: Uint32): (b: Bytes)
    ensures |b| == 4 && Uint32Of(b) == v
  {
    var v1: int := v / 256;
    var v2 := v1 / 256;
    [v2 / 256, v2 % 256, v1 % 256, v % 256]
  }

  /** The bytes of a frame whose length fits. */
  function Encode(f: Frame): Bytes
    requires Fits(f)
  {
    [f.t] + PutUint32(|f.body|) + f.body
  }

  predicate Fits(f: Frame) {
    |f.body| < 0x1_0000_0000
  }

  function EncodeAll(l: seq<Frame>): Bytes
    requires forall f :: f in l ==> Fits(f)
  {
    if l == [] then []
    else
      assert Fits(l[0]);
      Encode(l[0]) + EncodeAll(l[1..])
  }

  /** The type and length at the start of a stream. */
  function Header(s: Bytes): (Byte, Uint32)
    requires |s| >= FRAME_HEADER_LEN
  {
    (s[0], Uint32Of(s[1..5]))
  }

  /** The frame at the start of a stream, if all of it is there. */
  function First(s: Bytes): Option<Frame> {
    if |s| < FRAME_HEADER_LEN then None
    else
      var (t, n) := Header(s);
      if |s| - FRAME_HEADER_LEN < n then None else Some(Frame(t, s[5..][..n]))
  }

  /** What follows that frame. */
  function AfterFirst(s: Bytes): Bytes
    requires First(s).Some?
  {
    s[5..][Header(s).1..]
  }

  /** A frame that was written is read back, whatever follows it. */
  lemma FirstOfEncoded(f: Frame, rest: Bytes)
    requires Fits(f)
    ensures var s := Encode(f) + rest;
      && |s| >= FRAME_HEADER_LEN && Header(s) == (f.t, |f.body|)
      && First(s) == Some(f) && AfterFirst(s) == rest
  {
    var s := Encode(f) + rest;
    assert s[1..5] == PutUint32(|f.body|);
    assert s[5..] == f.body + rest;
  }

  /** On the wire: the type, then the length with its highest byte first, then the body. */
  lemma FrameLayout(f: Frame)
    requires Fits(f)
    ensures var b := Encode(f);
      && |b| == 5 + |f.body| && b[0] == f.t && b[5..] == f.body
      && b[1] as int * 0x100_0000 + b[2] as int * 0x1_0000 + b[3] as int * 0x100 + b[4] == |f.body|
  {
    var b := Encode(f);
    assert b[1..5] == PutUint32(|f.body|);
  }

  /** And what is read was written: the stream starts with exactly the bytes of its first frame. */
  lemma EncodedFirst(s: Bytes)
    requires First(s).Some?
    ensures var f := First(s).value; Fits(f) && s == Encode(f) + AfterFirst(s)
  {
    var f := First(s).value;
    var b := s[1..5];
    PutUint32Inverts(b);
    assert s == [s[0]] + b + s[5..];
    assert s[5..] == f.body + AfterFirst(s);
  }

  lemma PutUint32Inverts(b: Bytes)
    requires |b| == 4
    ensures PutUint32(Uint32Of(b)) == b
  {
    var b0: int := b[0];
    var v2 := b0 * 256 + b[1];
    var v1 := v2 * 256 + b[2];
    assert Uint32Of(b) / 256 == v1 && Uint32Of(b) % 256 == b[3];
    assert v1 / 256 == v2 && v1 % 256 == b[2];
    assert v2 / 256 == b0 && v2 % 256 == b[1];
  }

  // ----- Streams -----

  /** A buffered reader over the bytes that the connection is going to deliver. */
  class Reader {
    var input: Bytes
    const size: nat

    constructor (input: Bytes, size: nat)
      ensures this.input == input && this.size == size
    {
      this.input, this.size := input, size;
    }

    method ReadByte() returns (c: Option<Byte>)
      modifies this
      ensures old(input) == [] ==> c == None && input == []
      ensures old(input) != [] ==> c == Some(old(input)[0]) && input == old(input)[1..]
    {
      if |input| == 0 {
        return None;
      }
      c := Some(input[0]);
      input := input[1..];
    }

    /** Reads exactly `n` bytes; if there are fewer they are all consumed and none returned. */
    method ReadFull(n: nat) returns (b: Option<Bytes>)
      modifies this
      ensures n <= |old(input)| ==> b == Some(old(input)[..n]) && input == old(input)[n..]
      ensures n > |old(input)| ==> b == None && input == []
    {
      if n > |input| {
        input := [];
        return None;
      }
      b := Some(input[..n]);
      input := input[n..];
    }

    /** Reads a length a byte at a time. */
    method ReadUint32() returns (v: Option<Uint32>)
      modifies this
      ensures |old(input)| >= 4 ==> v == Some(Uint32Of(old(input)[..4])) && input == old(input)[4..]
      ensures |old(input)| < 4 ==> v == None
    {
      var b := new Byte[4](i => 0);
      for i := 0 to 4
        invariant i <= |old(input)| && input == old(input)[i..]
        invariant b[..i] == old(input)[..i]
      {
        var c := ReadByte();
        if c.None? {
          return None;
        }
        b[i] := c.value;
      }
      assert b[..] == b[..4];
      return Some(Uint32Of(b[..]));
    }

    method ReadFrameHeader() returns (h: Option<(Byte, Uint32)>)
      modifies this
      ensures |old(input)| >= FRAME_HEADER_LEN ==> h == Some(Header(old(input))) && input == old(input)[5..]
      ensures |old(input)| < FRAME_HEADER_LEN ==> h == None
    {
      var t := ReadByte();
      if t.None? {
        return None;
      }
      ghost var rest := input;
      var n := ReadUint32();
      if n.None? {
        return None;
      }
      assert rest[..4] == old(input)[1..5];
      return Some((t.value, n.value));
    }

    /** Reads a frame into a buffer of `capacity` bytes. What does not fit is discarded and reported,
        so that the stream is left after the frame either way. */
    method ReadFrame(maxSize: nat, capacity: nat) returns (r: Result<Frame, Error>)
      modifies this
      ensures r.Ok? ==>
        && First(old(input)) == Some(r.value) && |r.value.body| <= maxSize && |r.value.body| <= capacity
        && input == AfterFirst(old(input))
      ensures r == Err(ShortBuffer) ==>
        && First(old(input)).Some? && capacity < |First(old(input)).value.body| <= maxSize
        && input == AfterFirst(old(input))
      ensures r == Err(TooLarge) <==> |old(input)| >= FRAME_HEADER_LEN && Header(old(input)).1 > maxSize
      ensures r == Err(EOF) <==> First(old(input)).None? && r != Err(TooLarge)
      ensures r.Ok? || r.error in {EOF, TooLarge, ShortBuffer}
    {
      var h := ReadFrameHeader();
      if h.None? {
        return Err(EOF);
      }
      var (t, n) := h.value;
      if n > maxSize {
        return Err(TooLarge);
      }
      var take := if n < capacity then n else capacity;
      var b := ReadFull(take);
      if b.None? {
        return Err(EOF);
      }
      if n > take {
        var d := ReadFull(n - take);
        if d.None? {
          return Err(EOF);
        }
        return Err(ShortBuffer);
      }
      return Ok(Frame(t, b.value));
    }
  }

  class Writer {
    var out: Bytes

    constructor ()
      ensures out == []
    {
      out := [];
    }

    method Write(b: Bytes)
      modifies this
      ensures out == old(out) + b
    {
      out := out + b;
    }

    /** Writes a length a byte at a time. */
    method WriteUint32(v: Uint32)
      modifies this
      ensures out == old(out) + PutUint32(v)
    {
      var b := PutUint32(v);
      for i := 0 to 4
        invariant out == old(out) + b[..i]
      {
        out := out + [b[i]];
      }
    }

    method WriteFrameHeader(t: Byte, n: Uint32)
      modifies this
      ensures out == old(out) + [t] + PutUint32(n)
    {
      out := out + [t];
      WriteUint32(n);
    }

    /** Writes a frame, unless it is unreasonably large. */
    method WriteFrame(t: Byte, b: Bytes) returns (ok: bool)
      modifies this
      ensures ok <==> |b| <= MAX_FRAME_WRITE
      ensures out == if ok then old(out) + Encode(Frame(t, b)) else old(out)
    {
      if |b| > MAX_FRAME_WRITE {
        return false;
      }
      WriteFrameHeader(t, |b|);
      Write(b);
      return true;
    }
  }
}
