/** The server's reading side: one handler for each type of frame that a client sends. */
module DerpHandlers {
  import opened Wrappers
  import opened DerpFrames
  import Disco

  type Key = Disco.Key
  type PingData = b: Bytes | |b| == 8 witness seq(8, i => 0)

  const MAX_PACKET_SIZE := 65536
  const PING_LEN := 8
  const MAX_PING := 1000

  const SEND_PACKET: Byte := 0x04
  const NOTE_PREFERRED: Byte := 0x07
  const FORWARD_PACKET: Byte := 0x0a
  const WATCH_CONNS: Byte := 0x10
  const CLOSE_PEER: Byte := 0x11
  const PING: Byte := 0x12

  /** What a client's frame asks the server to do. */
  datatype Request =
    | NotePreferred(v: bool)
    | SendPacket(dst: Key, contents: Bytes)
    | ForwardPacket(src: Key, dst: Key, contents: Bytes)
    | WatchConns
    | ClosePeer(target: Key)
    | Ping(data: PingData)
    | Unknown(t: Byte)

  /** What a complete frame asks for, and when it is refused. */
  function Meaning(t: Byte, b: Bytes, canMesh: bool): Result<Request, Error> {
    var n := |b|;
    if t == NOTE_PREFERRED then if n != 1 then Err(BadFrame) else Ok(NotePreferred(b[0] != 0))
    else if t == SEND_PACKET then
      if n < KEY_LEN || n - KEY_LEN > MAX_PACKET_SIZE then Err(BadFrame)
      else Ok(SendPacket(b[..KEY_LEN], b[KEY_LEN..]))
    else if t == FORWARD_PACKET then
      if !canMesh then Err(NotPermitted)
      else if n < 2 * KEY_LEN || n - 2 * KEY_LEN > MAX_PACKET_SIZE then Err(BadFrame)
      else Ok(ForwardPacket(b[..KEY_LEN], b[KEY_LEN..2 * KEY_LEN], b[2 * KEY_LEN..]))
    else if t == WATCH_CONNS then
      if n != 0 then Err(BadFrame) else if !canMesh then Err(NotPermitted) else Ok(WatchConns)
    else if t == CLOSE_PEER then
      if n != KEY_LEN then Err(BadFrame) else if !canMesh then Err(NotPermitted) else Ok(ClosePeer(b))
    else if t == PING then if n < PING_LEN || n > MAX_PING then Err(BadFrame) else Ok(Ping(b[..PING_LEN]))
    else Ok(Unknown(t))
  }

  /** A handler succeeds exactly when all of the frame is there and has a meaning, which it then
      finds, having consumed exactly the declared length. */
  ghost predicate Handled(s: Bytes, s': Bytes, t: Byte, fl: Uint32, canMesh: bool, r: Result<Request, Error>) {
    if fl <= |s| && Meaning(t, s[..fl], canMesh).Ok?
    then r == Meaning(t, s[..fl], canMesh) && s' == s[fl..]
    else r.Err?
  }

  method HandleUnknown(br: Reader, t: Byte, fl: Uint32, canMesh: bool) returns (r: Result<Request, Error>)
    requires t !in {NOTE_PREFERRED, SEND_PACKET, FORWARD_PACKET, WATCH_CONNS, CLOSE_PEER, PING}
    modifies br
    ensures Handled(old(br.input), br.input, t, fl, canMesh, r)
  {
    var b := br.ReadFull(fl);
    return if b.None? then Err(EOF) else Ok(Unknown(t));
  }

  method HandleNotePreferred(br: Reader, fl: Uint32, canMesh: bool) returns (r: Result<Request, Error>)
    modifies br
    ensures Handled(old(br.input), br.input, NOTE_PREFERRED, fl, canMesh, r)
  {
    if fl != 1 {
      return Err(BadFrame);
    }
    var v := br.ReadByte();
    return if v.None? then Err(EOF) else Ok(NotePreferred(v.value != 0));
  }

  method HandleWatchConns(br: Reader, fl: Uint32, canMesh: bool) returns (r: Result<Request, Error>)
    modifies br
    ensures Handled(old(br.input), br.input, WATCH_CONNS, fl, canMesh, r)
  {
    if fl != 0 {
      return Err(BadFrame);
    }
    if !canMesh {
      return Err(NotPermitted);
    }
    return Ok(WatchConns);
  }

  method HandlePing(br: Reader, fl: Uint32, canMesh: bool) returns (r: Result<Request, Error>)
    modifies br
    ensures Handled(old(br.input), br.input, PING, fl, canMesh, r)
  {
    if fl < PING_LEN || fl > MAX_PING {
      return Err(BadFrame);
    }
    ghost var s := br.input;
    var m := br.ReadFull(PING_LEN);
    if m.None? {
      return Err(EOF);
    }
    var extra := fl - PING_LEN;
    if extra > 0 {
      var d := br.ReadFull(extra);
      if d.None? {
        return Err(EOF);
      }
    }
    assert s[..fl][..PING_LEN] == s[..PING_LEN];
    return Ok(Ping(m.value));
  }

  /** Reads a key a byte at a time. */
  method ReadKey(br: Reader) returns (k: Option<Key>)
    modifies br
    ensures |old(br.input)| >= KEY_LEN ==> k == Some(old(br.input)[..KEY_LEN]) && br.input == old(br.input)[KEY_LEN..]
    ensures |old(br.input)| < KEY_LEN ==> k == None
  {
    var b := new Byte[KEY_LEN](i => 0);
    for i := 0 to KEY_LEN
      invariant i <= |old(br.input)| && br.input == old(br.input)[i..]
      invariant b[..i] == old(br.input)[..i]
    {
      var c := br.ReadByte();
      if c.None? {
        return None;
      }
      b[i] := c.value;
    }
    assert b[..] == b[..KEY_LEN];
    return Some(b[..]);
  }

  method HandleClosePeer(br: Reader, fl: Uint32, canMesh: bool) returns (r: Result<Request, Error>)
    modifies br
    ensures Handled(old(br.input), br.input, CLOSE_PEER, fl, canMesh, r)
  {
    if fl != KEY_LEN {
      return Err(BadFrame);
    }
    if !canMesh {
      return Err(NotPermitted);
    }
    var target := ReadKey(br);
    return if target.None? then Err(EOF) else Ok(ClosePeer(target.value));
  }

  method HandleSendPacket(br: Reader, fl: Uint32, canMesh: bool) returns (r: Result<Request, Error>)
    modifies br
    ensures Handled(old(br.input), br.input, SEND_PACKET, fl, canMesh, r)
  {
    if fl < KEY_LEN {
      return Err(BadFrame);
    }
    ghost var s := br.input;
    var dst := ReadKey(br);
    if dst.None? {
      return Err(EOF);
    }
    var packetLen := fl - KEY_LEN;
    if packetLen > MAX_PACKET_SIZE {
      return Err(BadFrame);
    }
    var contents := br.ReadFull(packetLen);
    if contents.None? {
      return Err(EOF);
    }
    assert s[..fl][..KEY_LEN] == s[..KEY_LEN] && s[..fl][KEY_LEN..] == s[KEY_LEN..][..packetLen];
    return Ok(SendPacket(dst.value, contents.value));
  }

  method HandleForwardPacket(br: Reader, fl: Uint32, canMesh: bool) returns (r: Result<Request, Error>)
    modifies br
    ensures Handled(old(br.input), br.input, FORWARD_PACKET, fl, canMesh, r)
  {
    if !canMesh {
      return Err(NotPermitted);
    }
    if fl < 2 * KEY_LEN {
      return Err(BadFrame);
    }
    ghost var s := br.input;
    var src := ReadKey(br);
    if src.None? {
      return Err(EOF);
    }
    var dst := ReadKey(br);
    if dst.None? {
      return Err(EOF);
    }
    var packetLen := fl - 2 * KEY_LEN;
    if packetLen > MAX_PACKET_SIZE {
      return Err(BadFrame);
    }
    assert br.input == s[2 * KEY_LEN..];
    var contents := br.ReadFull(packetLen);
    if contents.None? {
      return Err(EOF);
    }
    ghost var b := s[..fl];
    assert b[..KEY_LEN] == s[..KEY_LEN] && b[KEY_LEN..2 * KEY_LEN] == s[KEY_LEN..][..KEY_LEN];
    assert b[2 * KEY_LEN..] == s[2 * KEY_LEN..][..packetLen];
    return Ok(ForwardPacket(src.value, dst.value, contents.value));
  }

  /** Hands a frame to its handler. */
  method Handle(br: Reader, t: Byte, fl: Uint32, canMesh: bool) returns (r: Result<Request, Error>)
    modifies br
    ensures Handled(old(br.input), br.input, t, fl, canMesh, r)
  {
    if t == NOTE_PREFERRED {
      r := HandleNotePreferred(br, fl, canMesh);
    } else if t == SEND_PACKET {
      r := HandleSendPacket(br, fl, canMesh);
    } else if t == FORWARD_PACKET {
      r := HandleForwardPacket(br, fl, canMesh);
    } else if t == WATCH_CONNS {
      r := HandleWatchConns(br, fl, canMesh);
    } else if t == CLOSE_PEER {
      r := HandleClosePeer(br, fl, canMesh);
    } else if t == PING {
      r := HandlePing(br, fl, canMesh);
    } else {
      r := HandleUnknown(br, t, fl, canMesh);
    }
  }

  // ----- The loop over frames -----

  /** What a server gets out of a stream: requests, and whether it ended without error. A header
      that is cut off counts as the end of the stream. */
  datatype Served = Served(requests: seq<Request>, clean: bool)

  function Requests(s: Bytes, canMesh: bool): Served
    decreases |s|
  {
    if |s| < FRAME_HEADER_LEN then Served([], true)
    else if First(s).None? then Served([], false)
    else
      var f := First(s).value;
      match Meaning(f.t, f.body, canMesh)
      case Ok(q) =>
        var rest := Requests(AfterFirst(s), canMesh);
        rest.(requests := [q] + rest.requests)
      case Err(_) => Served([], false)
  }

  function Prepend(l: seq<Request>, v: Served): Served {
    v.(requests := l + v.requests)
  }

  /** Reads frames and handles them until the stream ends or a frame is refused. */
  method Serve(br: Reader, canMesh: bool) returns (v: Served)
    modifies br
    ensures v == Requests(old(br.input), canMesh)
  {
    var l: seq<Request> := [];
    ghost var goal := Requests(br.input, canMesh);
    while true
      invariant Prepend(l, Requests(br.input, canMesh)) == goal
      decreases |br.input|
    {
      ghost var s := br.input;
      var h := br.ReadFrameHeader();
      if h.None? {
        return Served(l, true);
      }
      var (t, fl) := h.value;
      var r := Handle(br, t, fl, canMesh);
      if r.Err? {
        return Served(l, false);
      }
      PrependStep(l, s, canMesh);
      l := l + [r.value];
    }
  }

  lemma PrependStep(l: seq<Request>, s: Bytes, canMesh: bool)
    requires First(s).Some? && Meaning(First(s).value.t, First(s).value.body, canMesh).Ok?
    ensures var q := Meaning(First(s).value.t, First(s).value.body, canMesh).value;
      Prepend(l, Requests(s, canMesh)) == Prepend(l + [q], Requests(AfterFirst(s), canMesh))
  {
    RequestsStep(s, canMesh);
    PrependJoin(l, Meaning(First(s).value.t, First(s).value.body, canMesh).value, Requests(AfterFirst(s), canMesh));
  }

  lemma RequestsStep(s: Bytes, canMesh: bool)
    requires First(s).Some? && Meaning(First(s).value.t, First(s).value.body, canMesh).Ok?
    ensures Requests(s, canMesh) ==
      Prepend([Meaning(First(s).value.t, First(s).value.body, canMesh).value], Requests(AfterFirst(s), canMesh))
  {
  }

  lemma PrependJoin(l: seq<Request>, q: Request, v: Served)
    ensures Prepend(l, Prepend([q], v)) == Prepend(l + [q], v)
  {
    assert l + ([q] + v.requests) == l + [q] + v.requests;
  }

  // ----- The client's sending side -----

  /** The frame for a request. */
  function FrameOf(q: Request): Frame {
    match q
    case NotePreferred(v) => Frame(NOTE_PREFERRED, [if v then 1 else 0])
    case SendPacket(dst, contents) => Frame(SEND_PACKET, dst + contents)
    case ForwardPacket(src, dst, contents) => Frame(FORWARD_PACKET, src + dst + contents)
    case WatchConns => Frame(WATCH_CONNS, [])
    case ClosePeer(target) => Frame(CLOSE_PEER, target)
    case Ping(data) => Frame(PING, data)
    case Unknown(t) => Frame(t, [])
  }

  /** What stands where in the frame of a request: a mesh peer names the source before the
      destination. */
  lemma RequestLayout(q: Request)
    ensures var f := FrameOf(q);
      match q
      case NotePreferred(v) => f.t == 0x07 && f.body == [if v then 1 else 0]
      case SendPacket(dst, contents) => f.t == 0x04 && |f.body| >= 32 && f.body[..32] == dst && f.body[32..] == contents
      case ForwardPacket(src, dst, contents) =>
        f.t == 0x0a && |f.body| >= 64 && f.body[..32] == src && f.body[32..64] == dst && f.body[64..] == contents
      case WatchConns => f.t == 0x10 && f.body == []
      case ClosePeer(target) => f.t == 0x11 && f.body == target
      case Ping(data) => f.t == 0x12 && f.body == data
      case Unknown(t) => f.t == t
  {
    var b := FrameOf(q).body;
    match q
    case SendPacket(dst, contents) => assert b[..32] == dst && b[32..] == contents;
    case ForwardPacket(src, dst, contents) => assert b[..32] == src && b[32..64] == dst && b[64..] == contents;
    case _ =>
  }

  /** A request that a client may send: packets are not too big. */
  predicate Sendable(q: Request) {
    match q
    case SendPacket(_, contents) => |contents| <= MAX_PACKET_SIZE
    case ForwardPacket(_, _, contents) => |contents| <= MAX_PACKET_SIZE
    case Unknown(_) => false
    case _ => true
  }

  predicate Privileged(q: Request) {
    q.ForwardPacket? || q.WatchConns? || q.ClosePeer?
  }

  /** The server finds in a client's frame exactly what was sent, unless the client lacks the
      permission for it. */
  lemma FrameMeans(q: Request, canMesh: bool)
    requires Sendable(q)
    ensures var f := FrameOf(q);
      Fits(f) && Meaning(f.t, f.body, canMesh) == if Privileged(q) && !canMesh then Err(NotPermitted) else Ok(q)
  {
    var b := FrameOf(q).body;
    match q
    case SendPacket(dst, contents) => assert b[..KEY_LEN] == dst && b[KEY_LEN..] == contents;
    case ForwardPacket(src, dst, contents) =>
      assert b[..KEY_LEN] == src && b[KEY_LEN..2 * KEY_LEN] == dst && b[2 * KEY_LEN..] == contents;
    case Ping(data) => assert b[..PING_LEN] == data;
    case _ =>
  }

  function Sent(l: seq<Request>): Bytes
    requires forall q :: q in l ==> Sendable(q)
  {
    if l == [] then []
    else
      assert Sendable(l[0]);
      FrameMeans(l[0], true);
      Encode(FrameOf(l[0])) + Sent(l[1..])
  }

  /** The requests up to the first that is refused. */
  function Permitted(l: seq<Request>, canMesh: bool): Served {
    if l == [] then Served([], true)
    else if Privileged(l[0]) && !canMesh then Served([], false)
    else Prepend([l[0]], Permitted(l[1..], canMesh))
  }

  /** Whatever a client sends, in whatever order, the server gets exactly that, up to the first
      request that the client has no permission for. */
  lemma {:induction false} ServerGetsWhatIsSent(l: seq<Request>, canMesh: bool)
    requires forall q :: q in l ==> Sendable(q)
    ensures Requests(Sent(l), canMesh) == Permitted(l, canMesh)
  {
    if l != [] {
      assert Sendable(l[0]);
      FrameMeans(l[0], true);
      FrameMeans(l[0], canMesh);
      ServerGetsWhatIsSent(l[1..], canMesh);
      FirstOfEncoded(FrameOf(l[0]), Sent(l[1..]));
    }
  }

  /** Sends a packet, unless it is too big or the rate limiter drops it. */
  method Send(bw: Writer, dst: Key, pkt: Bytes, allowed: bool) returns (ok: bool)
    modifies bw
    ensures ok <==> |pkt| <= MAX_PACKET_SIZE
    ensures bw.out == if ok && allowed then old(bw.out) + Sent([SendPacket(dst, pkt)]) else old(bw.out)
  {
    if |pkt| > MAX_PACKET_SIZE {
      return false;
    }
    if !allowed {
      return true;
    }
    bw.WriteFrameHeader(SEND_PACKET, KEY_LEN + |pkt|);
    bw.Write(dst);
    bw.Write(pkt);
    SentOne(SendPacket(dst, pkt));
    return true;
  }

  method SendForward(bw: Writer, src: Key, dst: Key, pkt: Bytes) returns (ok: bool)
    modifies bw
    ensures ok <==> |pkt| <= MAX_PACKET_SIZE
    ensures bw.out == if ok then old(bw.out) + Sent([ForwardPacket(src, dst, pkt)]) else old(bw.out)
  {
    if |pkt| > MAX_PACKET_SIZE {
      return false;
    }
    bw.WriteFrameHeader(FORWARD_PACKET, 2 * KEY_LEN + |pkt|);
    bw.Write(src);
    bw.Write(dst);
    bw.Write(pkt);
    SentOne(ForwardPacket(src, dst, pkt));
    return true;
  }

  lemma SentOne(q: Request)
    requires Sendable(q)
    ensures Fits(FrameOf(q)) && Sent([q]) == Encode(FrameOf(q))
  {
    FrameMeans(q, true);
    assert [q][1..] == [];
    assert Sent([]) == [];
    assert Encode(FrameOf(q)) + [] == Encode(FrameOf(q));
  }
}
