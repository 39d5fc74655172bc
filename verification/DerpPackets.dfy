/** Packets on their way through the relay, over every interleaving of the goroutines that read
    from, route between and write to the connections. */
module DerpPackets {
  import opened Wrappers
  import opened MapSum
  import opened DerpTypes
  import Disco
  import Clients = DerpClients
  import Mesh = DerpMesh
  import Machine = DerpServer

  const QUEUE_DEPTH := 32
  const ATTEMPTS := 3

  datatype Pkt = Pkt(bs: Bytes, src: NodeKey, dst: NodeKey)

  /** The two queues of a connection. */
  datatype Queue = Queue(conn: ConnNum, disco: bool)

  datatype Reason =
    | UnknownDest | UnknownDestOnFwd | GoneDisconnected | QueueHead | QueueTail | WriteError | DupClient

  /** Each connection has a goroutine that reads from it and one that writes to it. */
  datatype Worker = Reader(c: ConnNum) | Writer(c: ConnNum)

  datatype Phase = CheckDone | TryPut | TryEvict

  /** An unfinished attempt to queue a packet for a connection. */
  datatype Job = Job(p: Pkt, to: ConnNum, attempt: nat)

  /** Where a goroutine is between two atomic actions, and the packets it holds there. Recording a
      drop takes two actions: the total, then the counter of the reason. */
  datatype Hand =
    | Idle
    | Routing(p: Pkt, forwarded: bool)
    | Forwarding(p: Pkt)
    | Sending(job: Job, phase: Phase)
    | Writing(p: Pkt)
    | Dropping(v: Pkt, reason: Reason, rest: Option<Job>)
    | Counting(reason: Reason, rest: Option<Job>)

  /** `received` to `dropped` list the packets behind each counter; `names` remembers the key that
      a connection number was registered under. */
  datatype Relay = Relay(
    srv: Machine.Srv, names: map<ConnNum, NodeKey>, closed: set<ConnNum>,
    packetsRecv: nat, packetsForwardedIn: nat, packetsForwardedOut: nat, packetsSent: nat, packetsDropped: nat,
    reasons: map<Reason, nat>,
    queues: map<Queue, seq<Pkt>>, hands: map<Worker, Hand>,
    received: seq<Pkt>, forwardedIn: seq<Pkt>, forwardedOut: seq<Pkt>, sent: seq<Pkt>, dropped: seq<Pkt>)

  datatype Event =
    | Control(e: Machine.Event)
    | Close(c: ConnNum)
    | Receive(c: ConnNum, bs: Bytes, dst: NodeKey)
    | ReceiveForward(c: ConnNum, bs: Bytes, src: NodeKey, dst: NodeKey)
    | Go(w: Worker)
    | Take(c: ConnNum, disco: bool, draining: bool)
    | Wrote(c: ConnNum, ok: bool)

  function Start(policy: DupPolicy, publicKey: NodeKey): Relay {
    Relay(Machine.Start(policy, publicKey), map[], {}, 0, 0, 0, 0, 0, map[], map[], map[], [], [], [], [], [])
  }

  function HandOf(s: Relay, w: Worker): Hand {
    if w in s.hands then s.hands[w] else Idle
  }

  function QueueOf(s: Relay, q: Queue): seq<Pkt> {
    if q in s.queues then s.queues[q] else []
  }

  function SetHand(s: Relay, w: Worker, h: Hand): Relay {
    s.(hands := s.hands[w := h])
  }

  function SetQueue(s: Relay, q: Queue, l: seq<Pkt>): Relay {
    s.(queues := s.queues[q := l])
  }

  function QueueFor(job: Job): Queue {
    Queue(job.to, Disco.LooksLikeDiscoWrapper(job.p.bs))
  }

  // ----- Steps -----

  /** What a goroutine that holds a routed packet does with the decision. */
  function Decided(p: Pkt, forwarded: bool, d: Machine.Decision): Hand {
    match d
    case Deliver(c) => Sending(Job(p, c, 0), CheckDone)
    case Forward(_) => Forwarding(p)
    case DropDup => Dropping(p, DupClient, None)
    case DropUnknown => Dropping(p, if forwarded then UnknownDestOnFwd else UnknownDest, None)
  }

  function Route(s: Relay, w: Worker, p: Pkt, forwarded: bool): Relay {
    var d := if forwarded then Machine.RouteForwarded(s.srv, p.dst) else Machine.RouteSend(s.srv, p.dst);
    SetHand(s.(srv := Machine.NoteRoute(s.srv, p.src, p.dst, d)), w, Decided(p, forwarded, d))
  }

  /** One action of an attempt to queue a packet: give up, look whether the connection is gone,
      queue without blocking, or make room at the head without blocking. */
  function Send(s: Relay, w: Worker, job: Job, phase: Phase): Relay {
    var q := QueueFor(job);
    var l := QueueOf(s, q);
    match phase
    case CheckDone =>
      SetHand(s, w,
              if job.attempt >= ATTEMPTS then Dropping(job.p, QueueTail, None)
              else if job.to in s.closed then Dropping(job.p, GoneDisconnected, None)
              else Sending(job, TryPut))
    case TryPut =>
      if |l| < QUEUE_DEPTH then SetHand(SetQueue(s, q, l + [job.p]), w, Idle) else SetHand(s, w, Sending(job, TryEvict))
    case TryEvict =>
      var again := job.(attempt := job.attempt + 1);
      if |l| > 0 then SetHand(SetQueue(s, q, l[1..]), w, Dropping(l[0], QueueHead, Some(again)))
      else SetHand(s, w, Sending(again, CheckDone))
  }

  function Count(reasons: map<Reason, nat>, r: Reason): map<Reason, nat> {
    reasons[r := (if r in reasons then reasons[r] else 0) + 1]
  }

  /** The next action of a goroutine; one that waits for input or a write stays as it is. */
  function Advance(s: Relay, w: Worker): Relay {
    match HandOf(s, w)
    case Routing(p, forwarded) => Route(s, w, p, forwarded)
    case Forwarding(p) =>
      SetHand(s.(packetsForwardedOut := s.packetsForwardedOut + 1, forwardedOut := s.forwardedOut + [p]), w, Idle)
    case Sending(job, phase) => Send(s, w, job, phase)
    case Dropping(v, reason, rest) =>
      SetHand(s.(packetsDropped := s.packetsDropped + 1, dropped := s.dropped + [v]), w, Counting(reason, rest))
    case Counting(reason, rest) =>
      SetHand(s.(reasons := Count(s.reasons, reason)), w, if rest.Some? then Sending(rest.value, CheckDone) else Idle)
    case _ => s
  }

  function ReceiveOne(s: Relay, c: ConnNum, p: Pkt): Relay {
    SetHand(s.(packetsRecv := s.packetsRecv + 1, received := s.received + [p]), Reader(c), Routing(p, false))
  }

  function ReceiveForwarded(s: Relay, c: ConnNum, p: Pkt): Relay {
    SetHand(s.(packetsForwardedIn := s.packetsForwardedIn + 1, forwardedIn := s.forwardedIn + [p]),
            Reader(c), Routing(p, true))
  }

  function TakeOne(s: Relay, c: ConnNum, q: Queue, draining: bool): Relay
    requires QueueOf(s, q) != []
  {
    var l := QueueOf(s, q);
    SetHand(SetQueue(s, q, l[1..]), Writer(c), if draining then Dropping(l[0], GoneDisconnected, None) else Writing(l[0]))
  }

  function WroteOne(s: Relay, c: ConnNum, p: Pkt, ok: bool): Relay {
    if ok then SetHand(s.(packetsSent := s.packetsSent + 1, sent := s.sent + [p]), Writer(c), Idle)
    else SetHand(s, Writer(c), Dropping(p, WriteError, None))
  }

  /** A step under the server lock that routes nothing; a registration gives a number its name. */
  ghost function ControlStep(s: Relay, e: Machine.Event): Relay {
    if e.SendPacket? || e.ForwardPacket? then s
    else
      s.(srv := Machine.Step(s.srv, e),
         names := NamesAfter(s.srv, s.names, e))
  }

  /** An event that cannot happen in a state leaves it as it is. */
  ghost function Step(s: Relay, e: Event): Relay {
    match e
    case Control(e) => ControlStep(s, e)
    case Close(c) => s.(closed := s.closed + {c})
    case Receive(c, bs, dst) =>
      if c in s.srv.table.conns && HandOf(s, Reader(c)).Idle?
      then ReceiveOne(s, c, Pkt(bs, s.srv.table.conns[c].key, dst)) else s
    case ReceiveForward(c, bs, src, dst) =>
      if c in s.srv.table.conns && s.srv.table.conns[c].canMesh && HandOf(s, Reader(c)).Idle?
      then ReceiveForwarded(s, c, Pkt(bs, src, dst)) else s
    case Go(w) => Advance(s, w)
    case Take(c, disco, draining) =>
      if HandOf(s, Writer(c)).Idle? && QueueOf(s, Queue(c, disco)) != []
      then TakeOne(s, c, Queue(c, disco), draining) else s
    case Wrote(c, ok) =>
      if HandOf(s, Writer(c)).Writing? then WroteOne(s, c, HandOf(s, Writer(c)).p, ok) else s
  }

  ghost function Run(policy: DupPolicy, publicKey: NodeKey, events: seq<Event>): Relay {
    if events == [] then Start(policy, publicKey)
    else Step(Run(policy, publicKey, events[..|events| - 1]), events[|events| - 1])
  }

  // ----- Conservation, for any way of weighing packets -----

  ghost function Weigh(l: seq<Pkt>, f: Pkt -> int): int {
    if l == [] then 0 else Weigh(l[..|l| - 1], f) + f(l[|l| - 1])
  }

  lemma WeighSnoc(l: seq<Pkt>, p: Pkt, f: Pkt -> int)
    ensures Weigh(l + [p], f) == Weigh(l, f) + f(p)
  {
    assert (l + [p])[..|l + [p]| - 1] == l;
  }

  lemma {:induction false} WeighHead(l: seq<Pkt>, f: Pkt -> int)
    requires l != []
    ensures Weigh(l, f) == f(l[0]) + Weigh(l[1..], f)
    decreases |l|
  {
    if |l| == 1 {
      assert l[..0] == [] && l[1..] == [];
    } else {
      WeighHead(l[..|l| - 1], f);
      assert l[..|l| - 1][1..] == l[1..][..|l| - 2];
    }
  }

  ghost function QueueWeight(f: Pkt -> int): (Queue, seq<Pkt>) -> int {
    (q: Queue, l: seq<Pkt>) => Weigh(l, f)
  }

  ghost function Held(h: Hand, f: Pkt -> int): int {
    match h
    case Idle => 0
    case Routing(p, _) => f(p)
    case Forwarding(p) => f(p)
    case Sending(job, _) => f(job.p)
    case Writing(p) => f(p)
    case Dropping(v, _, rest) => f(v) + if rest.Some? then f(rest.value.p) else 0
    case Counting(_, rest) => if rest.Some? then f(rest.value.p) else 0
  }

  ghost function HandWeight(f: Pkt -> int): (Worker, Hand) -> int {
    (w: Worker, h: Hand) => Held(h, f)
  }

  /** What came in, less what went out or was dropped, less what is still inside. */
  ghost function Balance(s: Relay, f: Pkt -> int): int {
    Weigh(s.received, f) + Weigh(s.forwardedIn, f)
    - Weigh(s.forwardedOut, f) - Weigh(s.sent, f) - Weigh(s.dropped, f)
    - Sum(s.queues, QueueWeight(f)) - Sum(s.hands, HandWeight(f))
  }

  lemma SetHandWeighs(s: Relay, w: Worker, h: Hand, f: Pkt -> int)
    ensures Balance(SetHand(s, w, h), f) == Balance(s, f) + Held(HandOf(s, w), f) - Held(h, f)
  {
    SumUpdate(s.hands, HandWeight(f), w, h);
  }

  lemma SetQueueWeighs(s: Relay, q: Queue, l: seq<Pkt>, f: Pkt -> int)
    ensures Balance(SetQueue(s, q, l), f) == Balance(s, f) + Weigh(QueueOf(s, q), f) - Weigh(l, f)
  {
    SumUpdate(s.queues, QueueWeight(f), q, l);
  }

  lemma PutBalanced(s: Relay, w: Worker, q: Queue, job: Job, phase: Phase, f: Pkt -> int)
    requires HandOf(s, w) == Sending(job, phase)
    ensures Balance(SetHand(SetQueue(s, q, QueueOf(s, q) + [job.p]), w, Idle), f) == Balance(s, f)
  {
    var l := QueueOf(s, q) + [job.p];
    var s1 := SetQueue(s, q, l);
    WeighSnoc(QueueOf(s, q), job.p, f);
    SetQueueWeighs(s, q, l, f);
    assert HandOf(s1, w) == HandOf(s, w);
    assert Balance(s1, f) == Balance(s, f) - f(job.p);
    SetHandWeighs(s1, w, Idle, f);
  }

  lemma EvictBalanced(s: Relay, w: Worker, q: Queue, job: Job, phase: Phase, again: Job, f: Pkt -> int)
    requires HandOf(s, w) == Sending(job, phase) && again.p == job.p && QueueOf(s, q) != []
    ensures var l := QueueOf(s, q);
      Balance(SetHand(SetQueue(s, q, l[1..]), w, Dropping(l[0], QueueHead, Some(again))), f) == Balance(s, f)
  {
    var l := QueueOf(s, q);
    var s1 := SetQueue(s, q, l[1..]);
    SetQueueWeighs(s, q, l[1..], f);
    WeighHead(l, f);
    SetHandWeighs(s1, w, Dropping(l[0], QueueHead, Some(again)), f);
    assert HandOf(s1, w) == HandOf(s, w);
  }

  lemma SendBalanced(s: Relay, w: Worker, job: Job, phase: Phase, f: Pkt -> int)
    requires HandOf(s, w) == Sending(job, phase)
    ensures Balance(Send(s, w, job, phase), f) == Balance(s, f)
  {
    var q := QueueFor(job);
    var again := job.(attempt := job.attempt + 1);
    match phase
    case CheckDone =>
      var h := if job.attempt >= ATTEMPTS then Dropping(job.p, QueueTail, None)
        else if job.to in s.closed then Dropping(job.p, GoneDisconnected, None) else Sending(job, TryPut);
      SetHandWeighs(s, w, h, f);
    case TryPut =>
      PutBalanced(s, w, q, job, phase, f);
      SetHandWeighs(s, w, Sending(job, TryEvict), f);
    case TryEvict =>
      if |QueueOf(s, q)| > 0 {
        EvictBalanced(s, w, q, job, phase, again, f);
      } else {
        SetHandWeighs(s, w, Sending(again, CheckDone), f);
      }
  }

  lemma RouteBalanced(s: Relay, w: Worker, p: Pkt, forwarded: bool, d: Machine.Decision, srv: Machine.Srv, f: Pkt -> int)
    requires HandOf(s, w) == Routing(p, forwarded)
    ensures Balance(SetHand(s.(srv := srv), w, Decided(p, forwarded, d)), f) == Balance(s, f)
  {
    SetHandWeighs(s, w, Decided(p, forwarded, d), f);
    assert SetHand(s.(srv := srv), w, Decided(p, forwarded, d)) == SetHand(s, w, Decided(p, forwarded, d)).(srv := srv);
  }

  lemma ForwardBalanced(s: Relay, w: Worker, p: Pkt, f: Pkt -> int)
    requires HandOf(s, w) == Forwarding(p)
    ensures Balance(Advance(s, w), f) == Balance(s, f)
  {
    WeighSnoc(s.forwardedOut, p, f);
    SetHandWeighs(s, w, Idle, f);
  }

  lemma DropBalanced(s: Relay, w: Worker, f: Pkt -> int)
    requires HandOf(s, w).Dropping? || HandOf(s, w).Counting?
    ensures Balance(Advance(s, w), f) == Balance(s, f)
  {
    match HandOf(s, w)
    case Dropping(v, reason, rest) =>
      WeighSnoc(s.dropped, v, f);
      SetHandWeighs(s, w, Counting(reason, rest), f);
    case Counting(reason, rest) =>
      SetHandWeighs(s, w, if rest.Some? then Sending(rest.value, CheckDone) else Idle, f);
  }

  lemma AdvanceBalanced(s: Relay, w: Worker, f: Pkt -> int)
    ensures Balance(Advance(s, w), f) == Balance(s, f)
  {
    match HandOf(s, w)
    case Routing(p, forwarded) =>
      var d := if forwarded then Machine.RouteForwarded(s.srv, p.dst) else Machine.RouteSend(s.srv, p.dst);
      RouteBalanced(s, w, p, forwarded, d, Machine.NoteRoute(s.srv, p.src, p.dst, d), f);
    case Forwarding(p) => ForwardBalanced(s, w, p, f);
    case Sending(job, phase) => SendBalanced(s, w, job, phase, f);
    case Dropping(_, _, _) => DropBalanced(s, w, f);
    case Counting(_, _) => DropBalanced(s, w, f);
    case _ =>
  }

  lemma TakeBalanced(s: Relay, c: ConnNum, q: Queue, draining: bool, f: Pkt -> int)
    requires HandOf(s, Writer(c)).Idle? && QueueOf(s, q) != []
    ensures Balance(TakeOne(s, c, q, draining), f) == Balance(s, f)
  {
    var l := QueueOf(s, q);
    SetQueueWeighs(s, q, l[1..], f);
    WeighHead(l, f);
    SetHandWeighs(SetQueue(s, q, l[1..]), Writer(c), HandOf(TakeOne(s, c, q, draining), Writer(c)), f);
  }

  lemma ReceiveBalanced(s: Relay, c: ConnNum, p: Pkt, f: Pkt -> int)
    requires HandOf(s, Reader(c)).Idle?
    ensures Balance(ReceiveOne(s, c, p), f) == Balance(s, f)
  {
    WeighSnoc(s.received, p, f);
    SetHandWeighs(s, Reader(c), Routing(p, false), f);
  }

  lemma ReceiveForwardedBalanced(s: Relay, c: ConnNum, p: Pkt, f: Pkt -> int)
    requires HandOf(s, Reader(c)).Idle?
    ensures Balance(ReceiveForwarded(s, c, p), f) == Balance(s, f)
  {
    WeighSnoc(s.forwardedIn, p, f);
    SetHandWeighs(s, Reader(c), Routing(p, true), f);
  }

  lemma WroteBalanced(s: Relay, c: ConnNum, p: Pkt, ok: bool, f: Pkt -> int)
    requires HandOf(s, Writer(c)) == Writing(p)
    ensures Balance(WroteOne(s, c, p, ok), f) == Balance(s, f)
  {
    WeighSnoc(s.sent, p, f);
    SetHandWeighs(s, Writer(c), if ok then Idle else Dropping(p, WriteError, None), f);
  }

  lemma ControlBalanced(s: Relay, srv: Machine.Srv, names: map<ConnNum, NodeKey>, closed: set<ConnNum>, f: Pkt -> int)
    ensures Balance(s.(srv := srv, names := names, closed := closed), f) == Balance(s, f)
  {
  }

  /** No step changes the balance. */
  lemma StepBalanced(s: Relay, e: Event, f: Pkt -> int)
    ensures Balance(Step(s, e), f) == Balance(s, f)
  {
    match e
    case Control(e) => ControlBalanced(s, ControlStep(s, e).srv, ControlStep(s, e).names, s.closed, f);
    case Close(c) => ControlBalanced(s, s.srv, s.names, s.closed + {c}, f);
    case Receive(c, bs, dst) =>
      if c in s.srv.table.conns && HandOf(s, Reader(c)).Idle? {
        ReceiveBalanced(s, c, Pkt(bs, s.srv.table.conns[c].key, dst), f);
      }
    case ReceiveForward(c, bs, src, dst) =>
      if HandOf(s, Reader(c)).Idle? {
        ReceiveForwardedBalanced(s, c, Pkt(bs, src, dst), f);
      }
    case Go(w) => AdvanceBalanced(s, w, f);
    case Take(c, disco, draining) =>
      if HandOf(s, Writer(c)).Idle? && QueueOf(s, Queue(c, disco)) != [] {
        TakeBalanced(s, c, Queue(c, disco), draining, f);
      }
    case Wrote(c, ok) =>
      if HandOf(s, Writer(c)).Writing? {
        WroteBalanced(s, c, HandOf(s, Writer(c)).p, ok, f);
      }
  }

  /** Over every interleaving, and however packets are weighed, what came in is what went out,
      was dropped, or is still inside. */
  lemma {:induction false} RunBalanced(policy: DupPolicy, publicKey: NodeKey, events: seq<Event>, f: Pkt -> int)
    ensures Balance(Run(policy, publicKey, events), f) == 0
    decreases |events|
  {
    if events != [] {
      var before := events[..|events| - 1];
      RunBalanced(policy, publicKey, before, f);
      StepBalanced(Run(policy, publicKey, before), events[|events| - 1], f);
    }
  }

  // ----- The counters -----

  ghost function ReasonWeight(): (Reason, nat) -> int {
    (r: Reason, n: nat) => n
  }

  /** A goroutine between the two actions of recording a drop. */
  ghost function MidDrop(): (Worker, Hand) -> int {
    (w: Worker, h: Hand) => if h.Counting? then 1 else 0
  }

  /** Each counter counts its packets; the total of drops is that of the reasons, but for the
      goroutines that have counted the total only. */
  ghost predicate Tallied(s: Relay) {
    && s.packetsRecv == |s.received| && s.packetsForwardedIn == |s.forwardedIn|
    && s.packetsForwardedOut == |s.forwardedOut| && s.packetsSent == |s.sent| && s.packetsDropped == |s.dropped|
    && s.packetsDropped == Sum(s.reasons, ReasonWeight()) + Sum(s.hands, MidDrop())
  }

  lemma MidDropPut(hands: map<Worker, Hand>, w: Worker, h: Hand)
    ensures Sum(hands[w := h], MidDrop()) == Sum(hands, MidDrop())
      - (if w in hands && hands[w].Counting? then 1 else 0) + (if h.Counting? then 1 else 0)
  {
    SumUpdate(hands, MidDrop(), w, h);
  }

  lemma CountTallied(s: Relay, w: Worker)
    requires Tallied(s) && (HandOf(s, w).Counting? || HandOf(s, w).Dropping?)
    ensures Tallied(Advance(s, w))
  {
    match HandOf(s, w)
    case Dropping(v, r, rest) => MidDropPut(s.hands, w, Counting(r, rest));
    case Counting(r, rest) =>
      MidDropPut(s.hands, w, if rest.Some? then Sending(rest.value, CheckDone) else Idle);
      SumUpdate(s.reasons, ReasonWeight(), r, (if r in s.reasons then s.reasons[r] else 0) + 1);
  }

  lemma HandTallied(s: Relay, srv: Machine.Srv, queues: map<Queue, seq<Pkt>>, w: Worker, h: Hand)
    requires Tallied(s) && !HandOf(s, w).Counting? && !h.Counting?
    ensures Tallied(s.(srv := srv, queues := queues, hands := s.hands[w := h]))
  {
    MidDropPut(s.hands, w, h);
  }

  lemma SendTallied(s: Relay, w: Worker, job: Job, phase: Phase)
    requires Tallied(s) && HandOf(s, w) == Sending(job, phase)
    ensures Tallied(Send(s, w, job, phase))
  {
    var s' := Send(s, w, job, phase);
    HandTallied(s, s.srv, s'.queues, w, HandOf(s', w));
  }

  lemma ForwardTallied(s: Relay, w: Worker, p: Pkt)
    requires Tallied(s) && HandOf(s, w) == Forwarding(p)
    ensures Tallied(Advance(s, w))
  {
    HandTallied(s, s.srv, s.queues, w, Idle);
  }

  lemma AdvanceTallied(s: Relay, w: Worker)
    requires Tallied(s)
    ensures Tallied(Advance(s, w))
  {
    match HandOf(s, w)
    case Routing(p, forwarded) =>
      var d := if forwarded then Machine.RouteForwarded(s.srv, p.dst) else Machine.RouteSend(s.srv, p.dst);
      HandTallied(s, Machine.NoteRoute(s.srv, p.src, p.dst, d), s.queues, w, Decided(p, forwarded, d));
    case Forwarding(p) => ForwardTallied(s, w, p);
    case Sending(job, phase) => SendTallied(s, w, job, phase);
    case Dropping(_, _, _) => CountTallied(s, w);
    case Counting(_, _) => CountTallied(s, w);
    case _ =>
  }

  lemma ReceiveTallied(s: Relay, c: ConnNum, p: Pkt)
    requires Tallied(s) && HandOf(s, Reader(c)).Idle?
    ensures Tallied(ReceiveOne(s, c, p)) && Tallied(ReceiveForwarded(s, c, p))
  {
    MidDropPut(s.hands, Reader(c), Routing(p, false));
    MidDropPut(s.hands, Reader(c), Routing(p, true));
  }

  lemma TakeTallied(s: Relay, c: ConnNum, q: Queue, draining: bool)
    requires Tallied(s) && HandOf(s, Writer(c)).Idle? && QueueOf(s, q) != []
    ensures Tallied(TakeOne(s, c, q, draining))
  {
    var l := QueueOf(s, q);
    HandTallied(s, s.srv, s.queues[q := l[1..]], Writer(c),
                if draining then Dropping(l[0], GoneDisconnected, None) else Writing(l[0]));
  }

  lemma WroteTallied(s: Relay, c: ConnNum, p: Pkt, ok: bool)
    requires Tallied(s) && HandOf(s, Writer(c)) == Writing(p)
    ensures Tallied(WroteOne(s, c, p, ok))
  {
    MidDropPut(s.hands, Writer(c), if ok then Idle else Dropping(p, WriteError, None));
  }

  lemma StepTallied(s: Relay, e: Event)
    requires Tallied(s)
    ensures Tallied(Step(s, e))
  {
    match e
    case Receive(c, bs, dst) =>
      if c in s.srv.table.conns && HandOf(s, Reader(c)).Idle? {
        ReceiveTallied(s, c, Pkt(bs, s.srv.table.conns[c].key, dst));
      }
    case ReceiveForward(c, bs, src, dst) =>
      if HandOf(s, Reader(c)).Idle? {
        ReceiveTallied(s, c, Pkt(bs, src, dst));
      }
    case Go(w) => AdvanceTallied(s, w);
    case Take(c, disco, draining) =>
      if HandOf(s, Writer(c)).Idle? && QueueOf(s, Queue(c, disco)) != [] {
        TakeTallied(s, c, Queue(c, disco), draining);
      }
    case Wrote(c, ok) =>
      if HandOf(s, Writer(c)).Writing? {
        WroteTallied(s, c, HandOf(s, Writer(c)).p, ok);
      }
    case _ =>
  }

  lemma {:induction false} RunTallied(policy: DupPolicy, publicKey: NodeKey, events: seq<Event>)
    ensures Tallied(Run(policy, publicKey, events))
    decreases |events|
  {
    if events != [] {
      var before := events[..|events| - 1];
      RunTallied(policy, publicKey, before);
      StepTallied(Run(policy, publicKey, before), events[|events| - 1]);
    }
  }

  // ----- Conservation in numbers -----

  function One(p: Pkt): int { 1 }

  lemma {:induction false} WeighOne(l: seq<Pkt>)
    ensures Weigh(l, One) == |l|
  {
    if l != [] {
      WeighOne(l[..|l| - 1]);
    }
  }

  ghost function QueueLength(): (Queue, seq<Pkt>) -> int {
    (q: Queue, l: seq<Pkt>) => |l|
  }

  ghost function HeldCount(): (Worker, Hand) -> int {
    (w: Worker, h: Hand) => Held(h, One)
  }

  /** The law of the packet counters, at every point of every interleaving: packets that came in
      were forwarded, sent or dropped, or are in a queue or in a goroutine's hands; and the total
      of drops is that of the reasons, but for goroutines caught between the two counters. */
  lemma PacketConservation(policy: DupPolicy, publicKey: NodeKey, events: seq<Event>)
    ensures var s := Run(policy, publicKey, events);
      && s.packetsRecv + s.packetsForwardedIn ==
           s.packetsForwardedOut + s.packetsSent + s.packetsDropped + Sum(s.queues, QueueLength()) + Sum(s.hands, HeldCount())
      && s.packetsDropped == Sum(s.reasons, ReasonWeight()) + Sum(s.hands, MidDrop())
  {
    var s := Run(policy, publicKey, events);
    RunBalanced(policy, publicKey, events, One);
    RunTallied(policy, publicKey, events);
    WeighOne(s.received);
    WeighOne(s.forwardedIn);
    WeighOne(s.forwardedOut);
    WeighOne(s.sent);
    WeighOne(s.dropped);
    forall q | q in s.queues ensures QueueWeight(One)(q, s.queues[q]) == QueueLength()(q, s.queues[q]) {
      WeighOne(s.queues[q]);
    }
    SumCongruent(s.queues, QueueWeight(One), s.queues, QueueLength());
    SumCongruent(s.hands, HandWeight(One), s.hands, HeldCount());
  }

  /** When no goroutine is in the middle of anything the law needs no exceptions. */
  lemma QuietConservation(policy: DupPolicy, publicKey: NodeKey, events: seq<Event>)
    requires var s := Run(policy, publicKey, events); forall w :: w in s.hands ==> s.hands[w].Idle?
    ensures var s := Run(policy, publicKey, events);
      && s.packetsRecv + s.packetsForwardedIn ==
           s.packetsForwardedOut + s.packetsSent + s.packetsDropped + Sum(s.queues, QueueLength())
      && s.packetsDropped == Sum(s.reasons, ReasonWeight())
  {
    var s := Run(policy, publicKey, events);
    PacketConservation(policy, publicKey, events);
    SumIdle(s.hands, HeldCount());
    SumIdle(s.hands, MidDrop());
  }

  lemma {:induction false} SumIdle(hands: map<Worker, Hand>, f: (Worker, Hand) -> int)
    requires forall w :: w in hands ==> f(w, hands[w]) == 0
    ensures Sum(hands, f) == 0
    decreases |hands|
  {
    if hands != map[] {
      var w :| w in hands;
      SumSplit(hands, f, w);
      SumIdle(hands - {w}, f);
    }
  }

  /** Nothing is made up or duplicated: no packet is sent more often than it came in. */
  lemma SentWasReceived(policy: DupPolicy, publicKey: NodeKey, events: seq<Event>, x: Pkt)
    ensures var s := Run(policy, publicKey, events);
      multiset(s.sent)[x] <= multiset(s.received)[x] + multiset(s.forwardedIn)[x]
  {
    var s := Run(policy, publicKey, events);
    var f := (p: Pkt) => if p == x then 1 else 0;
    RunBalanced(policy, publicKey, events, f);
    WeighCount(s.received, x, f);
    WeighCount(s.forwardedIn, x, f);
    WeighCount(s.forwardedOut, x, f);
    WeighCount(s.sent, x, f);
    WeighCount(s.dropped, x, f);
    forall q | q in s.queues ensures QueueWeight(f)(q, s.queues[q]) >= 0 {
      WeighCount(s.queues[q], x, f);
    }
    SumNonNegative(s.queues, QueueWeight(f));
    SumNonNegative(s.hands, HandWeight(f));
  }

  lemma {:induction false} WeighCount(l: seq<Pkt>, x: Pkt, f: Pkt -> int)
    requires forall p :: f(p) == if p == x then 1 else 0
    ensures Weigh(l, f) == multiset(l)[x]
  {
    if l != [] {
      WeighCount(l[..|l| - 1], x, f);
      assert l == l[..|l| - 1] + [l[|l| - 1]];
    }
  }

  // ----- Where packets end up -----

  ghost predicate JobOk(names: map<ConnNum, NodeKey>, job: Job) {
    job.to in names && names[job.to] == job.p.dst && job.attempt <= ATTEMPTS
  }

  /** A goroutine sends a packet only towards a connection of the key it is for, and a connection's
      writer holds only packets for that connection's key. */
  ghost predicate HandOk(names: map<ConnNum, NodeKey>, w: Worker, h: Hand) {
    match h
    case Sending(job, phase) => JobOk(names, job) && (phase.CheckDone? || job.attempt < ATTEMPTS)
    case Dropping(_, _, rest) => rest.Some? ==> JobOk(names, rest.value)
    case Counting(_, rest) => rest.Some? ==> JobOk(names, rest.value)
    case Writing(p) => w.Writer? && w.c in names && names[w.c] == p.dst
    case _ => true
  }

  /** A queue is never longer than its depth, and holds only packets of its class for its key. */
  ghost predicate QueueOk(names: map<ConnNum, NodeKey>, q: Queue, l: seq<Pkt>) {
    && |l| <= QUEUE_DEPTH
    && forall p :: p in l ==> q.conn in names && names[q.conn] == p.dst && Disco.LooksLikeDiscoWrapper(p.bs) == q.disco
  }

  ghost predicate NamesOk(srv: Machine.Srv, names: map<ConnNum, NodeKey>) {
    && (forall c :: c in srv.table.conns ==> c in names && names[c] == srv.table.conns[c].key)
    && (forall c :: c in names ==> c !in srv.accepted && c <= srv.accepts)
  }

  ghost predicate PlacesOk(s: Relay) {
    && (forall q :: q in s.queues ==> QueueOk(s.names, q, s.queues[q]))
    && (forall w :: w in s.hands ==> HandOk(s.names, w, s.hands[w]))
  }

  ghost predicate DropsDup(h: Hand) {
    (h.Dropping? || h.Counting?) && h.reason == DupClient
  }

  /** Under the last-writer policy nothing is dropped because of a second connection. */
  ghost predicate NoDupDrops(s: Relay) {
    s.srv.policy == LastWriterIsActive ==>
      DupClient !in s.reasons && forall w :: w in s.hands ==> !DropsDup(s.hands[w])
  }

  ghost predicate Inv(s: Relay) {
    Machine.Inv(s.srv) && NamesOk(s.srv, s.names) && PlacesOk(s) && NoDupDrops(s)
  }

  lemma ControlKeeps(s: Relay, e: Machine.Event)
    requires Inv(s)
    ensures Inv(ControlStep(s, e))
  {
    if !e.SendPacket? && !e.ForwardPacket? {
      Machine.StepKeepsInv(s.srv, e);
      Machine.StepKeepsNames(s.srv, e);
      ControlNames(s.srv, s.names, e);
      NamesGrow(s, ControlStep(s, e).names);
    }
  }

  ghost function NamesAfter(srv: Machine.Srv, names: map<ConnNum, NodeKey>, e: Machine.Event): map<ConnNum, NodeKey> {
    if e.Register? && e.c in srv.accepted then names[e.c := e.key] else names
  }

  lemma ConnsNamed(srv: Machine.Srv, names: map<ConnNum, NodeKey>, e: Machine.Event)
    requires Clients.Agree(srv.table.clients, srv.table.conns) && Machine.Numbered(srv) && NamesOk(srv, names)
    ensures var conns', names' := Machine.Step(srv, e).table.conns, NamesAfter(srv, names, e);
      forall c :: c in conns' ==> c in names' && names'[c] == conns'[c].key
  {
    Machine.StepConns(srv, e);
    var conns', names' := Machine.Step(srv, e).table.conns, NamesAfter(srv, names, e);
    forall c | c in conns' ensures c in names' && names'[c] == conns'[c].key {
      if e.Register? && e.c in srv.accepted && c != e.c {
        assert c in conns' - {e.c};
      }
    }
  }

  lemma ControlNames(srv: Machine.Srv, names: map<ConnNum, NodeKey>, e: Machine.Event)
    requires Clients.Agree(srv.table.clients, srv.table.conns) && Machine.Numbered(srv) && NamesOk(srv, names)
    ensures NamesOk(Machine.Step(srv, e), NamesAfter(srv, names, e))
  {
    ConnsNamed(srv, names, e);
    Machine.StepNumbers(srv, e);
  }

  lemma NamesGrow(s: Relay, names: map<ConnNum, NodeKey>)
    requires PlacesOk(s)
    requires forall c :: c in s.names ==> c in names && names[c] == s.names[c]
    ensures PlacesOk(s.(names := names))
  {
    forall q | q in s.queues ensures QueueOk(names, q, s.queues[q]) {
      assert QueueOk(s.names, q, s.queues[q]);
    }
    forall w | w in s.hands ensures HandOk(names, w, s.hands[w]) {
      assert HandOk(s.names, w, s.hands[w]);
    }
  }

  lemma PutHand(s: Relay, w: Worker, h: Hand)
    requires PlacesOk(s) && HandOk(s.names, w, h)
    ensures PlacesOk(SetHand(s, w, h))
  {
  }

  lemma PutQueue(s: Relay, q: Queue, l: seq<Pkt>)
    requires PlacesOk(s) && QueueOk(s.names, q, l)
    ensures PlacesOk(SetQueue(s, q, l))
  {
  }

  lemma QueueRest(names: map<ConnNum, NodeKey>, q: Queue, l: seq<Pkt>)
    requires QueueOk(names, q, l) && l != []
    ensures QueueOk(names, q, l[1..]) && q.conn in names && names[q.conn] == l[0].dst
  {
    assert l[0] in l;
    forall p | p in l[1..] ensures p in l {
    }
  }

  lemma SendPlaces(s: Relay, w: Worker, job: Job, phase: Phase)
    requires PlacesOk(s) && HandOf(s, w) == Sending(job, phase)
    ensures PlacesOk(Send(s, w, job, phase))
  {
    var q := QueueFor(job);
    var l := QueueOf(s, q);
    assert HandOk(s.names, w, s.hands[w]);
    assert QueueOk(s.names, q, l);
    match phase
    case CheckDone => PutHand(s, w, HandOf(Send(s, w, job, phase), w));
    case TryPut =>
      if |l| < QUEUE_DEPTH {
        PutQueue(s, q, l + [job.p]);
        PutHand(SetQueue(s, q, l + [job.p]), w, Idle);
      } else {
        PutHand(s, w, Sending(job, TryEvict));
      }
    case TryEvict =>
      var again := job.(attempt := job.attempt + 1);
      if |l| > 0 {
        QueueRest(s.names, q, l);
        PutQueue(s, q, l[1..]);
        PutHand(SetQueue(s, q, l[1..]), w, Dropping(l[0], QueueHead, Some(again)));
      } else {
        PutHand(s, w, Sending(again, CheckDone));
      }
  }

  lemma SendNoDup(s: Relay, w: Worker, job: Job, phase: Phase)
    requires NoDupDrops(s)
    ensures NoDupDrops(Send(s, w, job, phase))
  {
  }

  lemma RouteKeeps(s: Relay, w: Worker, p: Pkt, forwarded: bool)
    requires Inv(s)
    ensures Inv(Route(s, w, p, forwarded))
  {
    var d := if forwarded then Machine.RouteForwarded(s.srv, p.dst) else Machine.RouteSend(s.srv, p.dst);
    var srv := Machine.NoteRoute(s.srv, p.src, p.dst, d);
    Machine.NoteRouteKeeps(s.srv, p.src, p.dst, d);
    RouteAddressed(s.srv, s.names, p, forwarded, d);
    PutHand(s.(srv := srv), w, Decided(p, forwarded, d));
  }

  /** The decision sends a packet only towards its key, and never to a double connection's drop
      under the last-writer policy. */
  lemma RouteAddressed(srv: Machine.Srv, names: map<ConnNum, NodeKey>, p: Pkt, forwarded: bool, d: Machine.Decision)
    requires Machine.Inv(srv) && NamesOk(srv, names)
    requires d == if forwarded then Machine.RouteForwarded(srv, p.dst) else Machine.RouteSend(srv, p.dst)
    ensures forall w :: HandOk(names, w, Decided(p, forwarded, d))
    ensures srv.policy == LastWriterIsActive ==> !DropsDup(Decided(p, forwarded, d))
  {
    if d.Deliver? {
      Machine.DeliveredToKey(srv, p.dst);
    }
    if srv.policy == LastWriterIsActive && p.dst in srv.table.clients {
      Clients.EveryKeyActive(srv.table, p.dst);
    }
  }

  lemma DropKeeps(s: Relay, w: Worker)
    requires PlacesOk(s) && NoDupDrops(s) && w in s.hands && (s.hands[w].Dropping? || s.hands[w].Counting?)
    ensures PlacesOk(Advance(s, w)) && NoDupDrops(Advance(s, w))
  {
    assert HandOk(s.names, w, s.hands[w]);
    assert s.srv.policy == LastWriterIsActive ==> !DropsDup(s.hands[w]);
  }

  /** The part of the invariant about packets in hands and queues. */
  ghost predicate Placed(s: Relay) {
    PlacesOk(s) && NoDupDrops(s)
  }

  lemma MoveHand(s: Relay, w: Worker, h: Hand)
    requires Placed(s) && HandOk(s.names, w, h) && !DropsDup(h)
    ensures Placed(SetHand(s, w, h))
  {
    PutHand(s, w, h);
  }

  lemma AdvancePlaced(s: Relay, w: Worker)
    requires Placed(s) && !HandOf(s, w).Routing?
    ensures Placed(Advance(s, w)) && Advance(s, w).srv == s.srv && Advance(s, w).names == s.names
  {
    match HandOf(s, w)
    case Forwarding(p) => MoveHand(s, w, Idle);
    case Sending(job, phase) =>
      SendPlaces(s, w, job, phase);
      SendNoDup(s, w, job, phase);
    case Dropping(_, _, _) => DropKeeps(s, w);
    case Counting(_, _) => DropKeeps(s, w);
    case _ =>
  }

  lemma AdvanceKeeps(s: Relay, w: Worker)
    requires Inv(s)
    ensures Inv(Advance(s, w))
  {
    if HandOf(s, w).Routing? {
      RouteKeeps(s, w, HandOf(s, w).p, HandOf(s, w).forwarded);
    } else {
      AdvancePlaced(s, w);
    }
  }

  lemma WrotePlaced(s: Relay, c: ConnNum, p: Pkt, ok: bool)
    requires Placed(s)
    ensures Placed(WroteOne(s, c, p, ok))
  {
    MoveHand(s, Writer(c), if ok then Idle else Dropping(p, WriteError, None));
  }

  lemma ReceivePlaced(s: Relay, c: ConnNum, p: Pkt)
    requires Placed(s)
    ensures Placed(ReceiveOne(s, c, p)) && Placed(ReceiveForwarded(s, c, p))
  {
    MoveHand(s, Reader(c), Routing(p, false));
    MoveHand(s, Reader(c), Routing(p, true));
  }

  lemma TakeKeeps(s: Relay, c: ConnNum, disco: bool, draining: bool)
    requires PlacesOk(s) && NoDupDrops(s) && QueueOf(s, Queue(c, disco)) != []
    ensures PlacesOk(TakeOne(s, c, Queue(c, disco), draining)) && NoDupDrops(TakeOne(s, c, Queue(c, disco), draining))
  {
    var q := Queue(c, disco);
    var l := QueueOf(s, q);
    QueueRest(s.names, q, l);
    PutQueue(s, q, l[1..]);
    PutHand(SetQueue(s, q, l[1..]), Writer(c), if draining then Dropping(l[0], GoneDisconnected, None) else Writing(l[0]));
  }

  lemma PacketStepKeeps(s: Relay, e: Event)
    requires Placed(s) && (e.Receive? || e.ReceiveForward? || e.Take? || e.Wrote?)
    ensures Placed(Step(s, e)) && Step(s, e).srv == s.srv && Step(s, e).names == s.names
  {
    match e
    case Receive(c, bs, dst) =>
      if c in s.srv.table.conns {
        ReceivePlaced(s, c, Pkt(bs, s.srv.table.conns[c].key, dst));
      }
    case ReceiveForward(c, bs, src, dst) => ReceivePlaced(s, c, Pkt(bs, src, dst));
    case Take(c, disco, draining) =>
      if QueueOf(s, Queue(c, disco)) != [] {
        TakeKeeps(s, c, disco, draining);
      }
    case Wrote(c, ok) =>
      if HandOf(s, Writer(c)).Writing? {
        WrotePlaced(s, c, HandOf(s, Writer(c)).p, ok);
      }
  }

  /** Every step keeps the invariant. */
  lemma StepKeepsInv(s: Relay, e: Event)
    requires Inv(s)
    ensures Inv(Step(s, e))
  {
    match e
    case Control(e) => ControlKeeps(s, e);
    case Go(w) => AdvanceKeeps(s, w);
    case Close(c) => assert Placed(s) && Placed(s.(closed := s.closed + {c}));
    case _ => PacketStepKeeps(s, e);
  }

  /** A relay that holds no packets and knows no connection satisfies the invariant if its server does. */
  lemma IdleInv(s: Relay)
    requires Machine.Inv(s.srv) && s.srv.table.conns == map[]
    requires s.names == map[] && s.queues == map[] && s.hands == map[] && s.reasons == map[]
    ensures Inv(s)
  {
  }

  lemma StartInv(policy: DupPolicy, publicKey: NodeKey)
    ensures Inv(Start(policy, publicKey))
  {
    Machine.StartInv(policy, publicKey);
    IdleInv(Start(policy, publicKey));
  }

  lemma {:induction false} RunKeepsInv(policy: DupPolicy, publicKey: NodeKey, events: seq<Event>)
    ensures Inv(Run(policy, publicKey, events)) && Run(policy, publicKey, events).srv.policy == policy
    decreases |events|
  {
    if events == [] {
      StartInv(policy, publicKey);
    } else {
      var before := events[..|events| - 1];
      RunKeepsInv(policy, publicKey, before);
      StepKeepsInv(Run(policy, publicKey, before), events[|events| - 1]);
      StepKeepsPolicy(Run(policy, publicKey, before), events[|events| - 1]);
    }
  }

  lemma StepKeepsPolicy(s: Relay, e: Event)
    ensures Step(s, e).srv.policy == s.srv.policy
  {
    if e.Control? {
      Machine.StepKeepsNames(s.srv, e.e);
    }
  }

  /** At every point of every interleaving a connection's queues hold at most their depth, and
      they and its writer hold only packets for the key that the connection registered under. */
  lemma NothingMisdelivered(policy: DupPolicy, publicKey: NodeKey, events: seq<Event>, c: ConnNum, disco: bool, p: Pkt)
    ensures var s := Run(policy, publicKey, events);
      && |QueueOf(s, Queue(c, disco))| <= QUEUE_DEPTH
      && (p in QueueOf(s, Queue(c, disco)) || HandOf(s, Writer(c)) == Writing(p) ==> c in s.names && s.names[c] == p.dst)
      && (c in s.srv.table.conns ==> c in s.names && s.names[c] == s.srv.table.conns[c].key)
  {
    RunKeepsInv(policy, publicKey, events);
    var s := Run(policy, publicKey, events);
    assert QueueOk(s.names, Queue(c, disco), QueueOf(s, Queue(c, disco)));
    assert HandOk(s.names, Writer(c), HandOf(s, Writer(c)));
  }

  /** What becomes of a packet when it is routed, in terms of who is connected: delivered if its key
      has an active connection, dropped as for a double connection exactly if it is connected but
      has none, forwarded if it is only known to a mesh peer and did not come from one, and
      otherwise dropped as unknown, under the reason for where it came from. */
  lemma RouteOutcome(policy: DupPolicy, publicKey: NodeKey, events: seq<Event>, w: Worker, p: Pkt, forwarded: bool)
    ensures var s := Run(policy, publicKey, events);
      var h := HandOf(Route(s, w, p, forwarded), w);
      var peer := Mesh.Used(Mesh.EntryOf(s.srv.mesh, p.dst));
      if p.dst in s.srv.table.clients then
        match Clients.Active(s.srv.table.conns, s.srv.table.clients[p.dst])
        case Some(c) => h == Sending(Job(p, c, 0), CheckDone)
        case None => h == Dropping(p, DupClient, None)
      else if forwarded then h == Dropping(p, UnknownDestOnFwd, None)
      else h == if peer.Some? then Forwarding(p) else Dropping(p, UnknownDest, None)
  {
    KnownKeyCounts(policy, publicKey, events, p.dst);
  }

  /** A connected key without an active connection has several. */
  lemma KnownKeyCounts(policy: DupPolicy, publicKey: NodeKey, events: seq<Event>, dst: NodeKey)
    ensures var t := Run(policy, publicKey, events).srv.table;
      dst in t.clients && Machine.Local(t, dst).None? ==> Machine.LocalCount(t, dst) > 1
  {
    RunKeepsInv(policy, publicKey, events);
    var srv := Run(policy, publicKey, events).srv;
    if dst in srv.table.clients {
      assert Clients.SetOk(dst, srv.table.clients[dst], srv.table.conns);
    }
  }

  /** Under the last-writer policy no packet is ever counted as dropped for a second connection. */
  lemma NeverDropsDup(publicKey: NodeKey, events: seq<Event>)
    ensures DupClient !in Run(LastWriterIsActive, publicKey, events).reasons
  {
    RunKeepsInv(LastWriterIsActive, publicKey, events);
  }

  // ----- Queueing a packet -----

  datatype Drop = Drop(p: Pkt, reason: Reason)

  /** What other goroutines do to the queue before each non-blocking action. */
  ghost predicate Bounded(env: (nat, seq<Pkt>) -> seq<Pkt>) {
    forall i, l :: |l| <= QUEUE_DEPTH ==> |env(i, l)| <= QUEUE_DEPTH
  }

  ghost predicate Undisturbed(env: (nat, seq<Pkt>) -> seq<Pkt>, gone: nat -> bool) {
    (forall i, l :: env(i, l) == l) && forall i :: !gone(i)
  }

  /** The queue after `p`, at the expense of its oldest packet if it was full. */
  function Queued(l: seq<Pkt>, p: Pkt): (r: seq<Pkt>)
    ensures |l| <= QUEUE_DEPTH ==> |r| <= QUEUE_DEPTH
  {
    if |l| < QUEUE_DEPTH then l + [p] else l[1..] + [p]
  }

  /** Queues a packet, making room at the head; other goroutines may change the queue before each
      action, as `env` says, and `gone` says whether the connection is closed at each attempt. The
      packet is queued or dropped, never both and never neither; nobody else's packet is dropped
      but from the head, at most one per attempt. Undisturbed, the packet is always queued and at
      most one is dropped for it. */
  method SendPkt(queue: seq<Pkt>, p: Pkt, env: (nat, seq<Pkt>) -> seq<Pkt>, gone: nat -> bool)
    returns (queue': seq<Pkt>, queued: bool, drops: seq<Drop>)
    requires |queue| <= QUEUE_DEPTH && Bounded(env)
    ensures |queue'| <= QUEUE_DEPTH
    ensures queued ==> queue' != [] && queue'[|queue'| - 1] == p
    ensures !queued ==> drops != [] && drops[|drops| - 1].p == p && drops[|drops| - 1].reason in {GoneDisconnected, QueueTail}
    ensures forall i :: 0 <= i < |drops| && (queued || i < |drops| - 1) ==> drops[i].reason == QueueHead
    ensures |drops| <= if queued then ATTEMPTS - 1 else ATTEMPTS + 1
    ensures Undisturbed(env, gone) ==>
      queued && queue' == Queued(queue, p) && drops == if |queue| < QUEUE_DEPTH then [] else [Drop(queue[0], QueueHead)]
  {
    queue', drops := queue, [];
    for attempt := 0 to ATTEMPTS
      invariant |queue'| <= QUEUE_DEPTH
      invariant |drops| <= attempt && forall i :: 0 <= i < |drops| ==> drops[i].reason == QueueHead
      invariant Undisturbed(env, gone) ==> attempt <= 1
      invariant Undisturbed(env, gone) && attempt == 0 ==> queue' == queue && drops == []
      invariant Undisturbed(env, gone) && attempt == 1 ==>
        |queue| == QUEUE_DEPTH && queue' == queue[1..] && drops == [Drop(queue[0], QueueHead)]
    {
      if gone(attempt) {
        return queue', false, drops + [Drop(p, GoneDisconnected)];
      }
      queue' := env(2 * attempt, queue');
      if |queue'| < QUEUE_DEPTH {
        return queue' + [p], true, drops;
      }
      queue' := env(2 * attempt + 1, queue');
      if |queue'| > 0 {
        drops := drops + [Drop(queue'[0], QueueHead)];
        queue' := queue'[1..];
      }
    }
    return queue', false, drops + [Drop(p, QueueTail)];
  }

  /** `states` are those that goroutine `w` goes through when only it acts. */
  ghost predicate Walk(states: seq<Relay>, w: Worker) {
    |states| > 0 && forall i, j :: 0 <= i && j == i + 1 && j < |states| ==> states[j] == Advance(states[i], w)
  }

  /** `w` gets from `s` to `s'` undisturbed. */
  ghost predicate Reaches(s: Relay, w: Worker, s': Relay) {
    exists states :: Walk(states, w) && states[0] == s && states[|states| - 1] == s'
  }

  lemma ReachesNext(s: Relay, w: Worker)
    ensures Reaches(s, w, Advance(s, w))
  {
    assert Walk([s, Advance(s, w)], w);
  }

  lemma ReachesOn(s: Relay, w: Worker, s1: Relay, s2: Relay)
    requires Reaches(s, w, s1) && Reaches(s1, w, s2)
    ensures Reaches(s, w, s2)
  {
    var a :| Walk(a, w) && a[0] == s && a[|a| - 1] == s1;
    var b :| Walk(b, w) && b[0] == s1 && b[|b| - 1] == s2;
    var c := a + b[1..];
    forall i, j | 0 <= i && j == i + 1 && j < |c| ensures c[j] == Advance(c[i], w) {
      if j < |a| {
        assert a[j] == Advance(a[i], w);
      } else {
        assert b[j - |a| + 1] == Advance(b[i - |a| + 1], w);
        assert c[j] == b[j - |a| + 1] && c[i] == b[i - |a| + 1];
      }
    }
    assert Walk(c, w);
  }

  /** A goroutine that starts to queue a packet for an open connection. */
  ghost predicate Starts(s: Relay, w: Worker, job: Job) {
    HandOf(s, w) == Sending(job, CheckDone) && job.attempt < ATTEMPTS && job.to !in s.closed
  }

  /** Two actions: see that the connection is there, then put the packet. */
  lemma PutsIntoRoom(s: Relay, w: Worker, job: Job) returns (s': Relay)
    requires Starts(s, w, job) && |QueueOf(s, QueueFor(job))| < QUEUE_DEPTH
    ensures Reaches(s, w, s')
    ensures s' == SetHand(SetQueue(s, QueueFor(job), QueueOf(s, QueueFor(job)) + [job.p]), w, Idle)
  {
    var h := Sending(job, TryPut);
    var s1 := SetHand(s, w, h);
    ReachesNext(s, w);
    assert Advance(s, w) == s1;
    s' := Advance(s1, w);
    ReachesNext(s1, w);
    ReachesOn(s, w, s1, s');
    assert s.hands[w := h][w := Idle] == s.hands[w := Idle];
  }

  /** Two actions: see that the connection is there, then find no room. */
  lemma FindsNoRoom(s: Relay, w: Worker, job: Job) returns (s': Relay)
    requires Starts(s, w, job) && |QueueOf(s, QueueFor(job))| >= QUEUE_DEPTH
    ensures Reaches(s, w, s') && s' == SetHand(s, w, Sending(job, TryEvict))
  {
    var h := Sending(job, TryPut);
    var s1 := SetHand(s, w, h);
    ReachesNext(s, w);
    assert Advance(s, w) == s1;
    s' := Advance(s1, w);
    ReachesNext(s1, w);
    ReachesOn(s, w, s1, s');
  }

  /** In the machine, too: a goroutine that starts to queue a packet for an open connection and is
      not disturbed ends with the packet queued, having dropped the oldest one only if the queue
      was full. */
  lemma UndisturbedQueues(s: Relay, w: Worker, job: Job) returns (s': Relay)
    requires Starts(s, w, job) && job.attempt == 0 && |QueueOf(s, QueueFor(job))| <= QUEUE_DEPTH
    ensures Reaches(s, w, s')
    ensures var l := QueueOf(s, QueueFor(job));
      var full := |l| == QUEUE_DEPTH;
      && s'.hands == s.hands[w := Idle] && s'.queues == s.queues[QueueFor(job) := Queued(l, job.p)]
      && s'.dropped == s.dropped + (if full then [l[0]] else [])
      && s'.reasons == (if full then Count(s.reasons, QueueHead) else s.reasons)
  {
    if |QueueOf(s, QueueFor(job))| < QUEUE_DEPTH {
      s' := PutsIntoRoom(s, w, job);
    } else {
      s' := EvictsAndPuts(s, w, job);
    }
  }

  lemma EvictsAndPuts(s: Relay, w: Worker, job: Job) returns (s': Relay)
    requires Starts(s, w, job) && job.attempt == 0 && |QueueOf(s, QueueFor(job))| == QUEUE_DEPTH
    ensures Reaches(s, w, s')
    ensures var l := QueueOf(s, QueueFor(job));
      && s'.hands == s.hands[w := Idle] && s'.queues == s.queues[QueueFor(job) := l[1..] + [job.p]]
      && s'.dropped == s.dropped + [l[0]] && s'.reasons == Count(s.reasons, QueueHead)
  {
    var s2 := FindsNoRoom(s, w, job);
    var s5 := Evict(s2, w, job);
    s' := PutsIntoRoom(s5, w, job.(attempt := 1));
    ReachesOn(s, w, s2, s5);
    ReachesOn(s, w, s5, s');
  }

  /** Three actions: take the oldest packet out, count its drop, count the reason. */
  lemma Evict(s: Relay, w: Worker, job: Job) returns (s3: Relay)
    requires HandOf(s, w) == Sending(job, TryEvict) && |QueueOf(s, QueueFor(job))| > 0
    ensures Reaches(s, w, s3)
    ensures var q, l := QueueFor(job), QueueOf(s, QueueFor(job));
      s3 == SetHand(SetQueue(s, q, l[1..]), w, Sending(job.(attempt := job.attempt + 1), CheckDone))
              .(packetsDropped := s.packetsDropped + 1, dropped := s.dropped + [l[0]], reasons := Count(s.reasons, QueueHead))
  {
    var l, again := QueueOf(s, QueueFor(job)), job.(attempt := job.attempt + 1);
    var s1 := SetHand(SetQueue(s, QueueFor(job), l[1..]), w, Dropping(l[0], QueueHead, Some(again)));
    assert Advance(s, w) == s1;
    ReachesNext(s, w);
    var s2;
    s2, s3 := RecordDrop(s1, w, l[0], again);
    ReachesOn(s, w, s1, s3);
  }

  lemma RecordDrop(s: Relay, w: Worker, v: Pkt, again: Job) returns (s1: Relay, s2: Relay)
    requires HandOf(s, w) == Dropping(v, QueueHead, Some(again))
    ensures Reaches(s, w, s2)
    ensures s2 == s.(packetsDropped := s.packetsDropped + 1, dropped := s.dropped + [v], reasons := Count(s.reasons, QueueHead),
                     hands := s.hands[w := Sending(again, CheckDone)])
  {
    s1 := CountTotal(s, w, v, again);
    s2 := CountReason(s1, w, again);
    ReachesOn(s, w, s1, s2);
    assert s.hands[w := Counting(QueueHead, Some(again))][w := Sending(again, CheckDone)]
        == s.hands[w := Sending(again, CheckDone)];
  }

  lemma CountTotal(s: Relay, w: Worker, v: Pkt, again: Job) returns (s': Relay)
    requires HandOf(s, w) == Dropping(v, QueueHead, Some(again))
    ensures Reaches(s, w, s')
    ensures s' == s.(packetsDropped := s.packetsDropped + 1, dropped := s.dropped + [v],
                     hands := s.hands[w := Counting(QueueHead, Some(again))])
  {
    s' := Advance(s, w);
    ReachesNext(s, w);
  }

  lemma CountReason(s: Relay, w: Worker, again: Job) returns (s': Relay)
    requires HandOf(s, w) == Counting(QueueHead, Some(again))
    ensures Reaches(s, w, s')
    ensures s' == s.(reasons := Count(s.reasons, QueueHead), hands := s.hands[w := Sending(again, CheckDone)])
  {
    s' := Advance(s, w);
    ReachesNext(s, w);
  }
}
