/** Why packets are dropped: each reason counts exactly its causes, over every interleaving. */
module DerpDrops {
  import opened Wrappers
  import opened MapSum
  import opened DerpTypes
  import opened DerpPackets

  /** Routing finds that the packet cannot go anywhere, for reason `r`: its key is connected but has
      no active connection, or is unknown here and came from a mesh peer, or is unknown everywhere. */
  ghost predicate Unroutable(srv: Machine.Srv, p: Pkt, forwarded: bool, r: Reason) {
    if p.dst in srv.table.clients
    then r == DupClient && Clients.Active(srv.table.conns, srv.table.clients[p.dst]).None?
    else if forwarded then r == UnknownDestOnFwd
    else r == UnknownDest && Mesh.Used(Mesh.EntryOf(srv.mesh, p.dst)).None?
  }

  /** Queueing goes wrong for reason `r`: after three attempts the packet is given up, its connection
      is found closed, or the oldest packet has to make room. */
  ghost predicate Unqueueable(s: Relay, job: Job, phase: Phase, r: Reason) {
    match r
    case QueueTail => phase.CheckDone? && job.attempt >= 3
    case GoneDisconnected => phase.CheckDone? && job.attempt < 3 && job.to in s.closed
    case QueueHead => phase.TryEvict? && QueueOf(s, QueueFor(job)) != []
    case _ => false
  }

  /** The event makes one packet be dropped for reason `r`. */
  ghost predicate Causes(s: Relay, e: Event, r: Reason) {
    match e
    case Take(c, disco, draining) =>
      draining && r == GoneDisconnected && HandOf(s, Writer(c)).Idle? && QueueOf(s, Queue(c, disco)) != []
    case Wrote(c, ok) => !ok && r == WriteError && HandOf(s, Writer(c)).Writing?
    case Go(w) =>
      (match HandOf(s, w)
       case Routing(p, forwarded) => Unroutable(s.srv, p, forwarded, r)
       case Sending(job, phase) => Unqueueable(s, job, phase, r)
       case _ => false)
    case _ => false
  }

  ghost function Caused(policy: DupPolicy, publicKey: NodeKey, events: seq<Event>, r: Reason): nat {
    if events == [] then 0
    else
      var before := events[..|events| - 1];
      Caused(policy, publicKey, before, r) + if Causes(Run(policy, publicKey, before), events[|events| - 1], r) then 1 else 0
  }

  function CountOf(reasons: map<Reason, nat>, r: Reason): nat {
    if r in reasons then reasons[r] else 0
  }

  predicate IsDropping(h: Hand, r: Reason) {
    (h.Dropping? || h.Counting?) && h.reason == r
  }

  /** Goroutines that have still to count a drop under its reason. */
  ghost function Uncounted(r: Reason): (Worker, Hand) -> int {
    (w: Worker, h: Hand) => if IsDropping(h, r) then 1 else 0
  }

  ghost function Level(s: Relay, r: Reason): int {
    CountOf(s.reasons, r) + Sum(s.hands, Uncounted(r))
  }

  function Bit(b: bool): int { if b then 1 else 0 }

  lemma LevelHand(s: Relay, w: Worker, s': Relay, r: Reason)
    requires s'.reasons == s.reasons && s'.hands == s.hands[w := HandOf(s', w)]
    ensures Level(s', r) == Level(s, r) - Bit(IsDropping(HandOf(s, w), r)) + Bit(IsDropping(HandOf(s', w), r))
  {
    SumUpdate(s.hands, Uncounted(r), w, HandOf(s', w));
  }

  lemma CountLevel(s: Relay, w: Worker, reason: Reason, rest: Option<Job>, r: Reason)
    requires HandOf(s, w) == Counting(reason, rest)
    ensures Level(Advance(s, w), r) == Level(s, r)
  {
    SumUpdate(s.hands, Uncounted(r), w, if rest.Some? then Sending(rest.value, CheckDone) else Idle);
  }

  lemma SendLevel(s: Relay, w: Worker, job: Job, phase: Phase, r: Reason)
    requires HandOf(s, w) == Sending(job, phase)
    ensures Level(Send(s, w, job, phase), r) == Level(s, r) + Bit(Unqueueable(s, job, phase, r))
  {
    LevelHand(s, w, Send(s, w, job, phase), r);
  }

  lemma RouteLevel(policy: DupPolicy, publicKey: NodeKey, events: seq<Event>, w: Worker, p: Pkt, forwarded: bool, r: Reason)
    requires HandOf(Run(policy, publicKey, events), w) == Routing(p, forwarded)
    ensures var s := Run(policy, publicKey, events);
      Level(Route(s, w, p, forwarded), r) == Level(s, r) + Bit(Unroutable(s.srv, p, forwarded, r))
  {
    var s := Run(policy, publicKey, events);
    RouteOutcome(policy, publicKey, events, w, p, forwarded);
    LevelHand(s, w, Route(s, w, p, forwarded), r);
  }

  lemma IdleLevel(s: Relay, w: Worker, r: Reason)
    requires HandOf(s, w).Dropping? || HandOf(s, w).Forwarding?
    ensures Level(Advance(s, w), r) == Level(s, r)
  {
    LevelHand(s, w, Advance(s, w), r);
  }

  lemma AdvanceLevel(s: Relay, w: Worker, r: Reason)
    requires var h := HandOf(s, w);
      h.Routing? ==> Level(Route(s, w, h.p, h.forwarded), r) == Level(s, r) + Bit(Unroutable(s.srv, h.p, h.forwarded, r))
    ensures Level(Advance(s, w), r) == Level(s, r) + Bit(Causes(s, Go(w), r))
  {
    match HandOf(s, w)
    case Sending(job, phase) => SendLevel(s, w, job, phase, r);
    case Counting(reason, rest) => CountLevel(s, w, reason, rest, r);
    case Dropping(_, _, _) => IdleLevel(s, w, r);
    case Forwarding(_) => IdleLevel(s, w, r);
    case _ =>
  }

  lemma GoLevel(policy: DupPolicy, publicKey: NodeKey, events: seq<Event>, w: Worker, r: Reason)
    ensures var s := Run(policy, publicKey, events); Level(Step(s, Go(w)), r) == Level(s, r) + Bit(Causes(s, Go(w), r))
  {
    var s := Run(policy, publicKey, events);
    if HandOf(s, w).Routing? {
      RouteLevel(policy, publicKey, events, w, HandOf(s, w).p, HandOf(s, w).forwarded, r);
    }
    AdvanceLevel(s, w, r);
  }

  lemma TakeLevel(s: Relay, c: ConnNum, disco: bool, draining: bool, r: Reason)
    ensures var e := Take(c, disco, draining); Level(Step(s, e), r) == Level(s, r) + Bit(Causes(s, e, r))
  {
    var e := Take(c, disco, draining);
    if HandOf(s, Writer(c)).Idle? && QueueOf(s, Queue(c, disco)) != [] {
      LevelHand(s, Writer(c), TakeOne(s, c, Queue(c, disco), draining), r);
    }
  }

  lemma WroteLevel(s: Relay, c: ConnNum, ok: bool, r: Reason)
    ensures Level(Step(s, Wrote(c, ok)), r) == Level(s, r) + Bit(Causes(s, Wrote(c, ok), r))
  {
    if HandOf(s, Writer(c)).Writing? {
      WroteOneLevel(s, c, HandOf(s, Writer(c)).p, ok, r);
    }
  }

  lemma WroteOneLevel(s: Relay, c: ConnNum, p: Pkt, ok: bool, r: Reason)
    requires HandOf(s, Writer(c)) == Writing(p)
    ensures Level(WroteOne(s, c, p, ok), r) == Level(s, r) + Bit(!ok && r == WriteError)
  {
    LevelHand(s, Writer(c), WroteOne(s, c, p, ok), r);
  }

  lemma ControlLevel(s: Relay, e: Event, r: Reason)
    requires e.Control? || e.Close?
    ensures Level(Step(s, e), r) == Level(s, r)
  {
    assert Step(s, e).reasons == s.reasons && Step(s, e).hands == s.hands;
  }

  lemma ReceiveLevel(s: Relay, e: Event, r: Reason)
    requires e.Receive? || e.ReceiveForward?
    ensures Level(Step(s, e), r) == Level(s, r)
  {
    if HandOf(s, Reader(e.c)).Idle? && Step(s, e) != s {
      LevelHand(s, Reader(e.c), Step(s, e), r);
    }
  }

  lemma StepLevel(policy: DupPolicy, publicKey: NodeKey, events: seq<Event>, e: Event, r: Reason)
    ensures var s := Run(policy, publicKey, events); Level(Step(s, e), r) == Level(s, r) + Bit(Causes(s, e, r))
  {
    var s := Run(policy, publicKey, events);
    match e
    case Go(w) => GoLevel(policy, publicKey, events, w, r);
    case Take(c, disco, draining) => TakeLevel(s, c, disco, draining, r);
    case Wrote(c, ok) => WroteLevel(s, c, ok, r);
    case Receive(_, _, _) => ReceiveLevel(s, e, r);
    case ReceiveForward(_, _, _, _) => ReceiveLevel(s, e, r);
    case _ => ControlLevel(s, e, r);
  }

  /** Over every interleaving: the counter of a reason, and the goroutines about to count under it,
      make up the number of times that it was the cause. */
  lemma {:induction false} ReasonsCountCauses(policy: DupPolicy, publicKey: NodeKey, events: seq<Event>, r: Reason)
    ensures Level(Run(policy, publicKey, events), r) == Caused(policy, publicKey, events, r)
    decreases |events|
  {
    if events != [] {
      var before := events[..|events| - 1];
      ReasonsCountCauses(policy, publicKey, before, r);
      StepLevel(policy, publicKey, before, events[|events| - 1], r);
    }
  }
}
