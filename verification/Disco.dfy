/** Discovery messages: the parser and the marshalers of the three message types. */
module Disco {
  import opened Wrappers

  type TxID = b: Bytes | |b| == 12 witness seq(12, i => 0)
  type Key = b: Bytes | |b| == KEY_LEN witness seq(32, i => 0)
  type IP4 = b: Bytes | |b| == 4 witness seq(4, i => 0)
  type IP16 = b: Bytes | |b| == 16 witness seq(16, i => 0)
  type Port = x: int | 0 <= x < 0x1_0000

  const KEY_LEN := 32
  const NONCE_LEN := 24
  const EP_LENGTH := 18
  const PONG_LEN := 30
  const TYPE_PING: Byte := 1
  const TYPE_PONG: Byte := 2
  const TYPE_CALL_ME_MAYBE: Byte := 3
  const MAGIC: Bytes := [0x54, 0x53, 0xf0, 0x9f, 0x92, 0xac]

  const ZERO_KEY: Key := Zeros(32)

  function Zeros(n: nat): (r: Bytes)
    ensures |r| == n && forall i :: 0 <= i < n ==> r[i] == 0
  {
    seq(n, i => 0)
  }

  /** An address of the `netip` package: none, four bytes, or sixteen bytes with a zone. */
  datatype Addr = NoAddr | V4(ip4: IP4) | V6(ip16: IP16, zone: string)

  datatype AddrPort = AddrPort(addr: Addr, port: Port)

  datatype Message =
    | Ping(txID: TxID, nodeKey: Key, padding: nat)
    | Pong(txID: TxID, src: AddrPort)
    | CallMeMaybe(myNumber: seq<AddrPort>)

  datatype Error = Short | UnknownType(t: Byte)

  // ----- The wrapper -----

  predicate LooksLikeDiscoWrapper(p: Bytes) {
    |p| >= |MAGIC| + KEY_LEN + NONCE_LEN && p[..|MAGIC|] == MAGIC
  }

  /** A wrapped payload is recognised whatever it holds, and its sender read back. */
  lemma WrapperHasSource(sender: Key, nonce: Bytes, box: Bytes)
    requires |nonce| == NONCE_LEN
    ensures var p := MAGIC + sender + nonce + box; LooksLikeDiscoWrapper(p) && Source(p) == Some(sender)
  {
    var p := MAGIC + sender + nonce + box;
    assert p[..|MAGIC|] == MAGIC;
    assert p[|MAGIC|..][..KEY_LEN] == sender;
  }

  /** And nothing else is recognised. */
  lemma WrapperExact(p: Bytes)
    ensures LooksLikeDiscoWrapper(p) <==>
      exists sender: Key, nonce: Bytes, box: Bytes :: |nonce| == 24 && p == MAGIC + sender + nonce + box
  {
    if LooksLikeDiscoWrapper(p) {
      var sender: Key, nonce, box := p[6..38], p[38..62], p[62..];
      assert p == MAGIC + sender + nonce + box;
    }
    if sender: Key, nonce: Bytes, box: Bytes :| |nonce| == 24 && p == MAGIC + sender + nonce + box {
      WrapperHasSource(sender, nonce, box);
    }
  }

  function Source(p: Bytes): Option<Key> {
    if LooksLikeDiscoWrapper(p) then Some(p[|MAGIC|..][..KEY_LEN]) else None
  }

  // ----- Addresses -----

  const MAPPED_PREFIX: Bytes := Zeros(10) + [0xff, 0xff]

  /** The IPv4-mapped form of section 2.5.5.2 of RFC 4291. */
  predicate Is4In6(ip: IP16) {
    ip[..12] == MAPPED_PREFIX
  }

  function As16(a: Addr): IP16 {
    match a
    case NoAddr => Zeros(16)
    case V4(ip) => MAPPED_PREFIX + ip
    case V6(ip, _) => ip
  }

  /** The address of sixteen bytes, with the IPv4-mapped form taken back to IPv4. */
  function Unmapped(ip: IP16): Addr {
    if Is4In6(ip) then V4(ip[12..]) else V6(ip, "")
  }

  /** An address that the sixteen-byte form tells apart from all others. */
  predicate Plain(a: Addr) {
    match a
    case NoAddr => false
    case V4(_) => true
    case V6(ip, zone) => zone == "" && !Is4In6(ip)
  }

  /** The sixteen-byte form brings back exactly the plain addresses. */
  lemma AddrRoundTrip(a: Addr)
    ensures Unmapped(As16(a)) == a <==> Plain(a)
  {
    match a
    case V4(ip) =>
      assert As16(a)[..12] == MAPPED_PREFIX;
      assert As16(a)[12..] == ip;
    case _ =>
  }

  /** What is read is plain, and reading loses nothing. */
  lemma UnmappedPlain(ip: IP16)
    ensures Plain(Unmapped(ip)) && As16(Unmapped(ip)) == ip
  {
    if Is4In6(ip) {
      assert ip == ip[..12] + ip[12..];
    }
  }

  function Uint16(p: Bytes): Port
    requires |p| >= 2
  {
    var hi: int := p[0];
    hi * 256 + p[1]
  }

  function PutUint16(x: Port): (r: Bytes)
    ensures |r| == 2 && Uint16(r) == x
  {
    [x / 256, x % 256]
  }

  lemma PutUint16Inverts(p: Bytes)
    requires |p| == 2
    ensures PutUint16(Uint16(p)) == p
  {
  }

  /** Eighteen bytes for an address and a port. */
  function Endpoint(a: AddrPort): (r: Bytes)
    ensures |r| == EP_LENGTH
  {
    As16(a.addr) + PutUint16(a.port)
  }

  function ReadEndpoint(p: Bytes): AddrPort
    requires |p| >= EP_LENGTH
  {
    AddrPort(Unmapped(p[..16]), Uint16(p[16..18]))
  }

  lemma EndpointRoundTrip(a: AddrPort, rest: Bytes)
    ensures ReadEndpoint(Endpoint(a) + rest) == AddrPort(Unmapped(As16(a.addr)), a.port)
  {
    var p := Endpoint(a) + rest;
    assert p[..16] == As16(a.addr);
    assert p[16..18] == PutUint16(a.port);
  }

  lemma ReadEndpointInverts(p: Bytes)
    requires |p| == EP_LENGTH
    ensures Endpoint(ReadEndpoint(p)) == p
  {
    UnmappedPlain(p[..16]);
    PutUint16Inverts(p[16..18]);
    assert p == p[..16] + p[16..18];
  }

  // ----- The wire format -----

  function Endpoints(l: seq<AddrPort>): Bytes {
    if l == [] then [] else Endpoint(l[0]) + Endpoints(l[1..])
  }

  lemma {:induction false} EndpointsSize(l: seq<AddrPort>)
    ensures |Endpoints(l)| == EP_LENGTH * |l|
  {
    if l != [] {
      EndpointsSize(l[1..]);
    }
  }

  function ReadEndpoints(p: Bytes): seq<AddrPort>
    requires |p| % EP_LENGTH == 0
  {
    if p == [] then [] else [ReadEndpoint(p)] + ReadEndpoints(p[EP_LENGTH..])
  }

  function HasKey(m: Message): bool
    requires m.Ping?
  {
    m.nodeKey != ZERO_KEY
  }

  /** The bytes of a message. */
  function Encode(m: Message): Bytes {
    match m
    case Ping(txID, nodeKey, padding) =>
      [TYPE_PING, 0] + txID + (if HasKey(m) then nodeKey else []) + Zeros(padding)
    case Pong(txID, src) => [TYPE_PONG, 0] + txID + Endpoint(src)
    case CallMeMaybe(l) => [TYPE_CALL_ME_MAYBE, 0] + Endpoints(l)
  }

  /** Sixteen bytes of address, then the port with its high byte first. */
  ghost predicate EndpointAt(b: Bytes, n: nat, a: AddrPort) {
    n + 18 <= |b| && b[n..n + 16] == As16(a.addr) && b[n + 16] as int * 256 + b[n + 17] == a.port
  }

  /** What stands where in the bytes of a message. */
  lemma WireLayout(m: Message)
    ensures var b := Encode(m);
      && |b| >= 2 && b[1] == 0
      && match m
         case Ping(txID, nodeKey, padding) =>
           var n := if nodeKey == ZERO_KEY then 14 else 46;
           && b[0] == 1 && |b| == n + padding && b[2..14] == txID && (nodeKey != ZERO_KEY ==> b[14..46] == nodeKey)
           && forall i :: n <= i < |b| ==> b[i] == 0
         case Pong(txID, src) => b[0] == 2 && |b| == 32 && b[2..14] == txID && EndpointAt(b, 14, src)
         case CallMeMaybe(l) =>
           b[0] == 3 && |b| == 2 + 18 * |l| && forall i :: 0 <= i < |l| ==> EndpointAt(b, 2 + 18 * i, l[i])
  {
    var b := Encode(m);
    match m
    case Ping(txID, nodeKey, padding) =>
      assert b[2..14] == txID;
      assert HasKey(m) ==> b[14..46] == nodeKey;
    case Pong(txID, src) =>
      assert b[2..14] == txID;
      EndpointLayout([2, 0] + txID, src, []);
      assert b == [2, 0] + txID + Endpoint(src) + [];
    case CallMeMaybe(l) =>
      EndpointsSize(l);
      forall i | 0 <= i < |l| ensures EndpointAt(b, 2 + 18 * i, l[i]) {
        EndpointsLayout([3, 0], l, i);
      }
  }

  lemma EndpointLayout(front: Bytes, a: AddrPort, rest: Bytes)
    ensures EndpointAt(front + Endpoint(a) + rest, |front|, a)
  {
    var b, n := front + Endpoint(a) + rest, |front|;
    assert b[n..n + 16] == As16(a.addr);
    assert b[n + 16] == PutUint16(a.port)[0] && b[n + 17] == PutUint16(a.port)[1];
  }

  lemma {:induction false} EndpointsLayout(front: Bytes, l: seq<AddrPort>, i: nat)
    requires i < |l|
    ensures EndpointAt(front + Endpoints(l), |front| + 18 * i, l[i])
    decreases |l|
  {
    assert front + Endpoints(l) == front + Endpoint(l[0]) + Endpoints(l[1..]);
    if i == 0 {
      EndpointLayout(front, l[0], Endpoints(l[1..]));
    } else {
      EndpointsLayout(front + Endpoint(l[0]), l[1..], i - 1);
    }
  }

  function ParsePing(p: Bytes): Result<Message, Error> {
    if |p| < 12 then Err(Short)
    else if |p| - 12 >= KEY_LEN then Ok(Ping(p[..12], p[12..][..KEY_LEN], |p| - 12 - KEY_LEN))
    else Ok(Ping(p[..12], ZERO_KEY, |p| - 12))
  }

  function ParsePong(p: Bytes): Result<Message, Error> {
    if |p| < PONG_LEN then Err(Short)
    else Ok(Pong(p[..12], ReadEndpoint(p[12..])))
  }

  function ParseCallMeMaybe(ver: Byte, p: Bytes): Message {
    if |p| % EP_LENGTH != 0 || ver != 0 || |p| == 0 then CallMeMaybe([])
    else CallMeMaybe(ReadEndpoints(p))
  }

  function Parse(p: Bytes): Result<Message, Error> {
    if |p| < 2 then Err(Short)
    else if p[0] == TYPE_PING then ParsePing(p[2..])
    else if p[0] == TYPE_PONG then ParsePong(p[2..])
    else if p[0] == TYPE_CALL_ME_MAYBE then Ok(ParseCallMeMaybe(p[1], p[2..]))
    else Err(UnknownType(p[0]))
  }

  // ----- Round trips -----

  /** A message that survives the trip. */
  predicate Encodable(m: Message) {
    match m
    case Ping(_, nodeKey, padding) => nodeKey != ZERO_KEY || padding < KEY_LEN
    case Pong(_, src) => Plain(src.addr)
    case CallMeMaybe(l) => forall a :: a in l ==> Plain(a.addr)
  }

  /** What comes out at the other end, for any message. */
  function Received(m: Message): Message {
    match m
    case Ping(txID, nodeKey, padding) =>
      if nodeKey == ZERO_KEY && padding >= KEY_LEN then Ping(txID, nodeKey, padding - KEY_LEN) else m
    case Pong(txID, src) => Pong(txID, AddrPort(Unmapped(As16(src.addr)), src.port))
    case CallMeMaybe(l) => CallMeMaybe(seq(|l|, i requires 0 <= i < |l| => AddrPort(Unmapped(As16(l[i].addr)), l[i].port)))
  }

  lemma PingParses(m: Message)
    requires m.Ping?
    ensures Parse(Encode(m)) == Ok(Received(m))
  {
    var key := if HasKey(m) then m.nodeKey else [];
    var p := Encode(m)[2..];
    assert p == m.txID + key + Zeros(m.padding);
    assert p[..12] == m.txID;
    assert p[12..] == key + Zeros(m.padding);
    if HasKey(m) {
      assert p[12..][..KEY_LEN] == m.nodeKey;
    } else if m.padding >= KEY_LEN {
      assert p[12..][..KEY_LEN] == ZERO_KEY;
    }
  }

  lemma PongParses(m: Message)
    requires m.Pong?
    ensures Parse(Encode(m)) == Ok(Received(m))
  {
    var p := Encode(m)[2..];
    assert p == m.txID + Endpoint(m.src);
    assert p[..12] == m.txID;
    assert p[12..] == Endpoint(m.src) + [];
    EndpointRoundTrip(m.src, []);
  }

  lemma {:induction false} EndpointsParse(l: seq<AddrPort>)
    ensures |Endpoints(l)| % EP_LENGTH == 0
    ensures ReadEndpoints(Endpoints(l)) == Received(CallMeMaybe(l)).myNumber
  {
    EndpointsSize(l);
    if l != [] {
      EndpointsParse(l[1..]);
      var p := Endpoints(l);
      EndpointRoundTrip(l[0], Endpoints(l[1..]));
      assert p[EP_LENGTH..] == Endpoints(l[1..]);
      var all, rest := Received(CallMeMaybe(l)).myNumber, Received(CallMeMaybe(l[1..])).myNumber;
      assert all == [ReadEndpoint(p)] + rest;
    }
  }

  /** What is parsed from any marshaled message. */
  lemma ParseEncode(m: Message)
    ensures Parse(Encode(m)) == Ok(Received(m))
  {
    match m
    case Ping(_, _, _) => PingParses(m);
    case Pong(_, _) => PongParses(m);
    case CallMeMaybe(l) =>
      EndpointsParse(l);
      EndpointsSize(l);
      assert Encode(m)[2..] == Endpoints(l);
  }

  /** Parsing inverts marshaling exactly for the encodable messages. */
  lemma RoundTrip(m: Message)
    ensures Parse(Encode(m)) == Ok(m) <==> Encodable(m)
  {
    ParseEncode(m);
    match m
    case Ping(_, _, _) =>
    case Pong(_, src) => AddrRoundTrip(src.addr);
    case CallMeMaybe(l) =>
      var r := Received(m).myNumber;
      forall i | 0 <= i < |l| ensures r[i] == l[i] <==> Plain(l[i].addr) {
        AddrRoundTrip(l[i].addr);
      }
      if Encodable(m) {
        assert r == l;
      } else {
        var a :| a in l && !Plain(a.addr);
        var i :| 0 <= i < |l| && l[i] == a;
        assert r[i] != l[i];
      }
  }

  /** Different encodable messages have different bytes. */
  lemma EncodeInjective(m: Message, n: Message)
    requires Encodable(m) && Encodable(n) && Encode(m) == Encode(n)
    ensures m == n
  {
    RoundTrip(m);
    RoundTrip(n);
  }

  lemma {:induction false} ReadEndpointsInverts(p: Bytes)
    requires |p| % EP_LENGTH == 0
    ensures Endpoints(ReadEndpoints(p)) == p
    ensures forall a :: a in ReadEndpoints(p) ==> Plain(a.addr)
  {
    if p != [] {
      var r := p[..EP_LENGTH];
      ReadEndpointsInverts(p[EP_LENGTH..]);
      assert p[..16] == r[..16] && p[16..18] == r[16..18];
      ReadEndpointInverts(r);
      UnmappedPlain(p[..16]);
      assert p == r + p[EP_LENGTH..];
      assert ReadEndpoints(p)[1..] == ReadEndpoints(p[EP_LENGTH..]);
    }
  }

  /** A message that was parsed can be marshaled and parsed again without change, except for a
      ping that carries an all-zero key followed by a key's length of padding or more. */
  lemma ParsedIsEncodable(p: Bytes)
    requires Parse(p).Ok?
    ensures var m := Parse(p).value;
      Encodable(m) <==> !(p[0] == TYPE_PING && |p| >= 14 + 2 * KEY_LEN && p[14..14 + KEY_LEN] == ZERO_KEY)
  {
    var q := p[2..];
    if p[0] == TYPE_PING {
      assert |q| >= 12 + KEY_LEN ==> q[12..][..KEY_LEN] == p[14..14 + KEY_LEN];
    } else if p[0] == TYPE_PONG {
      UnmappedPlain(q[12..][..16]);
    } else if |q| % EP_LENGTH == 0 {
      ReadEndpointsInverts(q);
    }
  }

  // ----- The marshalers and the parsing loop -----

  /** Extends `b` with a header and room for the data. */
  method AppendMsgHeader(b: Bytes, t: Byte, ver: Byte, dataLen: nat) returns (all: array<Byte>, data: nat)
    ensures fresh(all) && data == |b| + 2 && all[..] == b + [t, ver] + Zeros(dataLen)
  {
    all := new Byte[|b| + dataLen + 2](i => 0);
    data := |b| + 2;
    for i := 0 to |b|
      invariant all[..i] == b[..i]
      invariant forall j :: |b| <= j < all.Length ==> all[j] == 0
    {
      all[i] := b[i];
    }
    all[|b|] := t;
    all[|b| + 1] := ver;
    assert all[..|b|] == b;
  }

  /** `s` with `src` written over it from position `at`. */
  function Splice(s: Bytes, at: nat, src: Bytes): Bytes
    requires at + |src| <= |s|
  {
    s[..at] + src + s[at + |src|..]
  }

  lemma SpliceZeros(s: Bytes, src: Bytes, n: nat)
    requires |src| <= n
    ensures Splice(s + Zeros(n), |s|, src) == s + src + Zeros(n - |src|)
  {
  }

  /** Copies `src` into `dst` from position `at`. */
  method CopyInto(dst: array<Byte>, at: nat, src: Bytes)
    requires at + |src| <= dst.Length
    modifies dst
    ensures dst[..] == Splice(old(dst[..]), at, src)
  {
    for i := 0 to |src|
      invariant forall j :: 0 <= j < dst.Length ==> dst[j] == if at <= j < at + i then src[j - at] else old(dst[j])
    {
      dst[at + i] := src[i];
    }
  }

  /** Writes `src` at the start of the room that is left after `done`. */
  method Fill(dst: array<Byte>, ghost done: Bytes, d: nat, src: Bytes, ghost room: nat) returns (d': nat)
    requires dst[..] == done + Zeros(room) && d == |done| && |src| <= room
    modifies dst
    ensures dst[..] == done + src + Zeros(room - |src|) && d' == d + |src|
  {
    CopyInto(dst, d, src);
    SpliceZeros(done, src, room);
    d' := d + |src|;
  }

  method MarshalPing(m: Message, b: Bytes) returns (r: Bytes)
    requires m.Ping?
    ensures r == b + Encode(m)
  {
    var hasKey := m.nodeKey != ZERO_KEY;
    var dataLen := if hasKey then 12 + KEY_LEN else 12;
    var ret, d := AppendMsgHeader(b, TYPE_PING, 0, dataLen + m.padding);
    ghost var head := b + [TYPE_PING, 0];
    d := Fill(ret, head, d, m.txID, dataLen + m.padding);
    if hasKey {
      d := Fill(ret, head + m.txID, d, m.nodeKey, KEY_LEN + m.padding);
    }
    r := ret[..];
  }

  method MarshalPong(m: Message, b: Bytes) returns (r: Bytes)
    requires m.Pong?
    ensures r == b + Encode(m)
  {
    var ret, d := AppendMsgHeader(b, TYPE_PONG, 0, PONG_LEN);
    ghost var head := b + [TYPE_PONG, 0];
    d := Fill(ret, head, d, m.txID, PONG_LEN);
    d := Fill(ret, head + m.txID, d, As16(m.src.addr), EP_LENGTH);
    d := Fill(ret, head + m.txID + As16(m.src.addr), d, PutUint16(m.src.port), 2);
    r := ret[..];
  }

  method MarshalCallMeMaybe(m: Message, b: Bytes) returns (r: Bytes)
    requires m.CallMeMaybe?
    ensures r == b + Encode(m)
  {
    var l := m.myNumber;
    var ret, p := AppendMsgHeader(b, TYPE_CALL_ME_MAYBE, 0, EP_LENGTH * |l|);
    ghost var done := b + [TYPE_CALL_ME_MAYBE, 0];
    for i := 0 to |l|
      invariant ret[..] == done + Zeros(EP_LENGTH * (|l| - i)) && p == |done|
      invariant done + Endpoints(l[i..]) == b + Encode(m)
    {
      ghost var room := EP_LENGTH * (|l| - i);
      p := Fill(ret, done, p, As16(l[i].addr), room);
      p := Fill(ret, done + As16(l[i].addr), p, PutUint16(l[i].port), room - 16);
      EndpointsStep(done, l, i);
      done := done + Endpoint(l[i]);
      assert done == done[..|done| - EP_LENGTH] + As16(l[i].addr) + PutUint16(l[i].port);
    }
    r := ret[..];
  }

  lemma EndpointsStep(done: Bytes, l: seq<AddrPort>, i: nat)
    requires i < |l|
    ensures done + Endpoints(l[i..]) == (done + Endpoint(l[i])) + Endpoints(l[i + 1..])
  {
    assert l[i..][1..] == l[i + 1..];
  }

  /** Marshals any message after what `b` holds already. */
  method AppendMarshal(m: Message, b: Bytes) returns (r: Bytes)
    ensures r == b + Encode(m)
  {
    match m
    case Ping(_, _, _) => r := MarshalPing(m, b);
    case Pong(_, _) => r := MarshalPong(m, b);
    case CallMeMaybe(_) => r := MarshalCallMeMaybe(m, b);
  }

  lemma ReadEndpointsStep(p: Bytes)
    requires |p| % EP_LENGTH == 0 && |p| > 0
    ensures |p| >= EP_LENGTH && |p[EP_LENGTH..]| % EP_LENGTH == 0
    ensures ReadEndpoints(p) == [ReadEndpoint(p)] + ReadEndpoints(p[EP_LENGTH..])
  {
  }

  lemma Regroup(l: seq<AddrPort>, a: AddrPort, rest: seq<AddrPort>)
    ensures l + ([a] + rest) == (l + [a]) + rest
  {
  }

  method ParseCallMeMaybeLoop(ver: Byte, p: Bytes) returns (m: Message)
    ensures m == ParseCallMeMaybe(ver, p)
  {
    if |p| % EP_LENGTH != 0 || ver != 0 || |p| == 0 {
      return CallMeMaybe([]);
    }
    var l: seq<AddrPort> := [];
    var rest := p;
    ghost var all := ReadEndpoints(p);
    while |rest| > 0
      invariant |rest| % EP_LENGTH == 0
      invariant l + ReadEndpoints(rest) == all
    {
      ReadEndpointsStep(rest);
      Regroup(l, ReadEndpoint(rest), ReadEndpoints(rest[EP_LENGTH..]));
      l := l + [AddrPort(Unmapped(rest[..16]), Uint16(rest[16..18]))];
      rest := rest[EP_LENGTH..];
    }
    assert l + [] == l;
    return CallMeMaybe(l);
  }
}
