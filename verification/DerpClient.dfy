/** The client's receiving side: messages from a stream of frames. */
module DerpClient {
  import opened Wrappers
  import opened DerpFrames
  import Disco

  type Key = Disco.Key

  const MAX_FRAME := 0x10_0000

  const SERVER_INFO: Byte := 0x03
  const RECV_PACKET: Byte := 0x05
  const KEEP_ALIVE: Byte := 0x06
  const PEER_GONE: Byte := 0x08
  const PEER_PRESENT: Byte := 0x09
  const PING: Byte := 0x12
  const PONG: Byte := 0x13
  const HEALTH: Byte := 0x14
  const RESTARTING: Byte := 0x15

  const GONE_DISCONNECTED: Byte := 0

  datatype Message =
    | ServerInfo(bytesPerSecond: int, bytesBurst: int)
    | ReceivedPacket(source: Key, data: Bytes)
    | KeepAlive
    | PeerGone(peer: Key, reason: Byte)
    | PeerPresent(key: Key, ipPort: Disco.AddrPort)
    | Ping(data: Bytes)
    | Pong(data: Bytes)
    | Health(problem: Bytes)
    | ServerRestarting(reconnectIn: Uint32, tryFor: Uint32)

  const NO_ADDR_PORT := Disco.AddrPort(Disco.NoAddr, 0)

  /** Opens a sealed server info frame; cryptography and encoding are the caller's. */
  type Opener = Bytes -> Option<(int, int)>

  /** What a frame means: a message, nothing, or the end of the connection. */
  datatype Meaning = Says(m: Message) | Skip | Invalid

  function Decode(f: Frame, open: Opener): Meaning {
    var b, n := f.body, |f.body|;
    if f.t == SERVER_INFO then
      (match open(b) case Some((rate, burst)) => Says(ServerInfo(rate, burst)) case None => Invalid)
    else if f.t == KEEP_ALIVE then Says(KeepAlive)
    else if f.t == PEER_GONE then
      if n < KEY_LEN then Skip else Says(PeerGone(b[..KEY_LEN], if n > KEY_LEN then b[KEY_LEN] else GONE_DISCONNECTED))
    else if f.t == PEER_PRESENT then
      if n < KEY_LEN then Skip
      else Says(PeerPresent(b[..KEY_LEN], if n >= KEY_LEN + 18 then Disco.ReadEndpoint(b[KEY_LEN..]) else NO_ADDR_PORT))
    else if f.t == RECV_PACKET then
      if n < KEY_LEN then Skip else Says(ReceivedPacket(b[..KEY_LEN], b[KEY_LEN..]))
    else if f.t == PING then if n < 8 then Skip else Says(Ping(b[..8]))
    else if f.t == PONG then if n < 8 then Skip else Says(Pong(b[..8]))
    else if f.t == HEALTH then Says(Health(b))
    else if f.t == RESTARTING then
      if n < 8 then Skip else Says(ServerRestarting(Uint32Of(b[0..4]), Uint32Of(b[4..8])))
    else Skip
  }

  /** The next message of a stream, and what follows it; or why there is none. */
  datatype Next = Got(m: Message, rest: Bytes) | Dead(e: Error)

  /** Frame-by-frame decoding: the reference for the client. */
  function NextMessage(s: Bytes, open: Opener): Next
    decreases |s|
  {
    if |s| < FRAME_HEADER_LEN then Dead(EOF)
    else if Header(s).1 > MAX_FRAME then Dead(TooLarge)
    else if First(s).None? then Dead(EOF)
    else
      match Decode(First(s).value, open)
      case Says(m) => Got(m, AfterFirst(s))
      case Skip => NextMessage(AfterFirst(s), open)
      case Invalid => Dead(BadFrame)
  }

  class Client {
    const br: Reader
    var peeked: nat
    var readErr: Option<Error>
    var rate: Option<(int, int)>

    constructor (br: Reader)
      ensures this.br == br && peeked == 0 && readErr == None && rate == None
    {
      this.br, peeked, readErr, rate := br, 0, None, None;
    }

    /** The peeked bytes end where a frame ends. */
    ghost predicate Valid()
      reads this, br
    {
      readErr.None? ==> peeked <= |br.input|
    }

    /** What the next call starts from: past the peeked bytes. */
    ghost function Rest(): Bytes
      reads this, br
      requires Valid() && readErr.None?
    {
      br.input[peeked..]
    }

    /** Drops the bytes that the message before last aliased. */
    method DiscardPeeked()
      requires Valid() && readErr.None?
      modifies this`peeked, br
      ensures Valid() && peeked == 0 && br.input == old(Rest())
    {
      if peeked != 0 {
        var b := br.ReadFull(peeked);
        assert b.Some?;
        peeked := 0;
      }
      assert br.input == br.input[0..];
    }

    /** Reads one frame: a small one is only peeked at, a large one is read into new memory. Either
        way the frame is accounted for. */
    method ReadOne() returns (r: Result<Frame, Error>)
      requires Valid() && readErr.None?
      modifies this`peeked, br
      ensures var s := old(Rest());
        && (r.Ok? ==> First(s) == Some(r.value) && |r.value.body| <= MAX_FRAME && Valid() && Rest() == AfterFirst(s))
        && (r == Err(TooLarge) <==> |s| >= FRAME_HEADER_LEN && Header(s).1 > MAX_FRAME)
        && (r == Err(EOF) <==> First(s).None? && r != Err(TooLarge))
        && (r.Err? ==> r.error in {EOF, TooLarge})
    {
      ghost var s := Rest();
      DiscardPeeked();
      var h := br.ReadFrameHeader();
      if h.None? {
        return Err(EOF);
      }
      var (t, n) := h.value;
      if n > MAX_FRAME {
        return Err(TooLarge);
      }
      if n <= br.size {
        peeked := n;
        if n > |br.input| {
          return Err(EOF);
        }
        return Ok(Frame(t, br.input[..n]));
      }
      var b := br.ReadFull(n);
      if b.None? {
        return Err(EOF);
      }
      assert br.input == br.input[0..];
      return Ok(Frame(t, b.value));
    }

    /** Receives a message. For any buffer size this is the next message of frame-by-frame decoding;
        once it has failed it fails for ever, in the same way. */
    method Recv(open: Opener) returns (r: Result<Message, Error>)
      requires Valid()
      modifies this, br
      ensures Valid()
      ensures old(readErr).Some? ==> r == Err(old(readErr).value) && readErr == old(readErr) && br.input == old(br.input)
      ensures old(readErr).None? ==>
        match NextMessage(old(Rest()), open)
        case Got(m, rest) => r == Ok(m) && readErr == None && Rest() == rest
        case Dead(e) => r == Err(e) && readErr == Some(e)
      ensures rate ==
        match r
        case Ok(ServerInfo(perSecond, burst)) => if perSecond == 0 then None else Some((perSecond, burst))
        case _ => old(rate)
    {
      if readErr.Some? {
        return Err(readErr.value);
      }
      ghost var goal := NextMessage(Rest(), open);
      while true
        invariant Valid() && readErr.None? && rate == old(rate) && NextMessage(Rest(), open) == goal
        decreases |Rest()|
      {
        var f := ReadOne();
        if f.Err? {
          readErr := Some(f.error);
          return Err(f.error);
        }
        match Decode(f.value, open)
        case Says(m) =>
          if m.ServerInfo? {
            rate := if m.bytesPerSecond == 0 then None else Some((m.bytesPerSecond, m.bytesBurst));
          }
          return Ok(m);
        case Skip =>
        case Invalid =>
          readErr := Some(BadFrame);
          return Err(BadFrame);
      }
    }
  }

  // ----- Whole streams -----

  /** All messages up to the end of the stream or the first bad frame. */
  function Messages(s: Bytes, open: Opener): seq<Message>
    decreases |s|
  {
    match NextMessage(s, open)
    case Got(m, rest) => (NextShorter(s, open); [m] + Messages(rest, open))
    case Dead(_) => []
  }

  lemma {:induction false} NextShorter(s: Bytes, open: Opener)
    ensures var r := NextMessage(s, open); r.Got? ==> |r.rest| < |s|
    decreases |s|
  {
    if |s| >= FRAME_HEADER_LEN && First(s).Some? && Decode(First(s).value, open).Skip? {
      NextShorter(AfterFirst(s), open);
    }
  }

  /** Calling `Recv` until it fails yields all messages, for any buffer size. */
  method RecvAll(c: Client, open: Opener) returns (l: seq<Message>)
    requires c.Valid() && c.readErr.None?
    modifies c, c.br
    ensures c.readErr.Some? && l == Messages(old(c.Rest()), open)
  {
    l := [];
    ghost var all := Messages(c.Rest(), open);
    while true
      invariant c.Valid() && c.readErr.None? && l + Messages(c.Rest(), open) == all
      decreases |c.Rest()|
    {
      NextShorter(c.Rest(), open);
      var r := c.Recv(open);
      if r.Err? {
        return l;
      }
      l := l + [r.value];
    }
  }

  /** What a list of frames says, skipping frames that are unknown or too short. */
  function Said(l: seq<Frame>, open: Opener): seq<Message> {
    if l == [] then []
    else
      match Decode(l[0], open)
      case Says(m) => [m] + Said(l[1..], open)
      case Skip => Said(l[1..], open)
      case Invalid => []
  }

  predicate Readable(l: seq<Frame>) {
    forall f :: f in l ==> |f.body| <= MAX_FRAME
  }

  /** Receiving over the bytes of any frames gives exactly what the frames say. */
  lemma {:induction false} ReceivesAll(l: seq<Frame>, open: Opener)
    requires Readable(l)
    ensures forall f :: f in l ==> Fits(f)
    ensures Messages(EncodeAll(l), open) == Said(l, open)
  {
    assert forall f :: f in l ==> Fits(f);
    if l != [] {
      var f, rest := l[0], EncodeAll(l[1..]);
      assert f in l;
      FirstOfEncoded(f, rest);
      ReceivesAll(l[1..], open);
      if Decode(f, open).Skip? {
        SkippedFrame(EncodeAll(l), rest, open);
      }
    }
  }

  lemma SkippedFrame(s: Bytes, rest: Bytes, open: Opener)
    requires NextMessage(s, open) == NextMessage(rest, open)
    ensures Messages(s, open) == Messages(rest, open)
  {
  }

  // ----- What the server writes -----

  predicate IsPing(data: Bytes) { |data| == 8 }

  /** The frame the server writes for a message; a packet without a source uses the old format. */
  function ServerFrame(m: Message): Frame
    requires m.ReceivedPacket? || m.KeepAlive? || m.PeerGone? || m.PeerPresent? || m.Pong?
  {
    match m
    case ReceivedPacket(source, data) => Frame(RECV_PACKET, if source != Disco.ZERO_KEY then source + data else data)
    case KeepAlive => Frame(KEEP_ALIVE, [])
    case PeerGone(peer, reason) => Frame(PEER_GONE, peer + [reason])
    case PeerPresent(key, ipPort) => Frame(PEER_PRESENT, key + Disco.Endpoint(ipPort))
    case Pong(data) => Frame(PONG, data)
  }

  /** The client reads back exactly the packets with a source and the peers with a plain address. */
  lemma ServerFrameDecodes(m: Message, open: Opener)
    requires m.ReceivedPacket? || m.KeepAlive? || m.PeerGone? || m.PeerPresent? || (m.Pong? && IsPing(m.data))
    ensures Decode(ServerFrame(m), open) == Says(m) <==>
      && (m.ReceivedPacket? ==> m.source != Disco.ZERO_KEY)
      && (m.PeerPresent? ==> Disco.Plain(m.ipPort.addr))
  {
    var b := ServerFrame(m).body;
    match m
    case ReceivedPacket(source, data) =>
      if source != Disco.ZERO_KEY {
        assert b[..KEY_LEN] == source && b[KEY_LEN..] == data;
      }
    case PeerGone(peer, reason) => assert b[..KEY_LEN] == peer;
    case PeerPresent(key, ipPort) =>
      assert b[..KEY_LEN] == key && b[KEY_LEN..] == Disco.Endpoint(ipPort) + [];
      Disco.EndpointRoundTrip(ipPort, []);
      Disco.AddrRoundTrip(ipPort.addr);
    case Pong(data) => assert b[..8] == data;
    case KeepAlive =>
  }

  /** The bytes of the messages that other servers, or later ones, write; `extra` is what a later
      protocol may append. */
  function OtherFrame(m: Message, extra: Bytes): Frame
    requires m.Ping? || m.Pong? || m.Health? || m.ServerRestarting?
  {
    match m
    case Ping(data) => Frame(PING, data + extra)
    case Pong(data) => Frame(PONG, data + extra)
    case Health(problem) => Frame(HEALTH, problem)
    case ServerRestarting(reconnectIn, tryFor) => Frame(RESTARTING, PutUint32(reconnectIn) + PutUint32(tryFor) + extra)
  }

  /** The client reads these back, too, whatever follows their fixed part: eight bytes of a ping, a
      problem as it is, and when to reconnect before how long to try. */
  lemma OtherFrameDecodes(m: Message, extra: Bytes, open: Opener)
    requires m.Health? || m.ServerRestarting? || ((m.Ping? || m.Pong?) && IsPing(m.data))
    ensures Decode(OtherFrame(m, extra), open) == Says(m)
  {
    var b := OtherFrame(m, extra).body;
    match m
    case Ping(data) => assert b[..8] == data;
    case Pong(data) => assert b[..8] == data;
    case Health(_) =>
    case ServerRestarting(reconnectIn, tryFor) =>
      assert b[0..4] == PutUint32(reconnectIn) && b[4..8] == PutUint32(tryFor);
  }

  /** What a server info frame says is what its sealed contents are; one that cannot be opened ends
      the connection. */
  lemma ServerInfoDecodes(b: Bytes, open: Opener, perSecond: int, burst: int)
    ensures Decode(Frame(SERVER_INFO, b), open) == Says(ServerInfo(perSecond, burst)) <==> open(b) == Some((perSecond, burst))
    ensures Decode(Frame(SERVER_INFO, b), open) == Invalid <==> open(b) == None
  {
  }

  /** A frame is passed over exactly if its type is unknown or it is shorter than its fixed part. */
  lemma SkippedExactly(f: Frame, open: Opener)
    ensures Decode(f, open) == Skip <==>
      || (f.t in {PEER_GONE, PEER_PRESENT, RECV_PACKET} && |f.body| < 32)
      || (f.t in {PING, PONG, RESTARTING} && |f.body| < 8)
      || f.t !in {SERVER_INFO, KEEP_ALIVE, PEER_GONE, PEER_PRESENT, RECV_PACKET, PING, PONG, HEALTH, RESTARTING}
  {
  }
}
