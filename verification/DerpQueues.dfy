/** The order of packets: every queue is first in, first out, over every interleaving; and where
    packets come from. */
module DerpQueues {
  import opened Wrappers
  import opened DerpTypes
  import opened DerpPackets

  // ----- What goes into a queue and what comes out -----

  /** The job is for queue `q`: of its connection, and of its class. */
  predicate IsFor(job: Job, q: Queue) {
    job.to == q.conn && Disco.LooksLikeDiscoWrapper(job.p.bs) == q.disco
  }

  /** The packet that the event puts into `q`: one that a goroutine was to queue there and is rid of. */
  ghost function PutBy(s: Relay, e: Event, q: Queue): seq<Pkt> {
    if e.Go? && HandOf(s, e.w).Sending? && HandOf(s, e.w).phase.TryPut? && IsFor(HandOf(s, e.w).job, q)
       && HandOf(Step(s, e), e.w).Idle?
    then [HandOf(s, e.w).job.p] else []
  }

  /** The packet that a goroutine holds after it took one from a queue. */
  function TakenBy(h: Hand): seq<Pkt> {
    match h
    case Writing(p) => [p]
    case Dropping(v, _, _) => [v]
    case _ => []
  }

  /** The connection's writer, which holds nothing, takes a packet from `q`. */
  ghost predicate Takes(s: Relay, e: Event, q: Queue) {
    e.Take? && Queue(e.c, e.disco) == q && HandOf(s, Writer(e.c)).Idle? && QueueOf(s, q) != []
  }

  /** The packet that the event removes from `q`, to write it, to drain it, or to make room: the one
      that the goroutine holds afterwards. */
  ghost function RemovedBy(s: Relay, e: Event, q: Queue): seq<Pkt> {
    if Takes(s, e, q) then TakenBy(HandOf(Step(s, e), Writer(e.c)))
    else if e.Go? && HandOf(s, e.w).Sending? && HandOf(s, e.w).phase.TryEvict? && IsFor(HandOf(s, e.w).job, q)
    then TakenBy(HandOf(Step(s, e), e.w))
    else []
  }

  /** All packets ever put into `q`, in order. */
  ghost function Puts(policy: DupPolicy, publicKey: NodeKey, events: seq<Event>, q: Queue): seq<Pkt> {
    if events == [] then []
    else
      var before := events[..|events| - 1];
      Puts(policy, publicKey, before, q) + PutBy(Run(policy, publicKey, before), events[|events| - 1], q)
  }

  /** All packets ever removed from `q`, in order. */
  ghost function Removed(policy: DupPolicy, publicKey: NodeKey, events: seq<Event>, q: Queue): seq<Pkt> {
    if events == [] then []
    else
      var before := events[..|events| - 1];
      Removed(policy, publicKey, before, q) + RemovedBy(Run(policy, publicKey, before), events[|events| - 1], q)
  }

  lemma PutInOrder(s: Relay, w: Worker, job: Job, q: Queue)
    requires HandOf(s, w) == Sending(job, TryPut)
    ensures QueueOf(Send(s, w, job, TryPut), q) ==
      QueueOf(s, q) + if IsFor(job, q) && HandOf(Send(s, w, job, TryPut), w).Idle? then [job.p] else []
  {
    assert IsFor(job, q) <==> QueueFor(job) == q;
    assert QueueOf(s, q) + [] == QueueOf(s, q);
  }

  lemma EvictInOrder(s: Relay, w: Worker, job: Job, q: Queue)
    requires HandOf(s, w) == Sending(job, TryEvict)
    ensures var s' := Send(s, w, job, TryEvict);
      QueueOf(s, q) == (if IsFor(job, q) then TakenBy(HandOf(s', w)) else []) + QueueOf(s', q)
  {
    assert IsFor(job, q) <==> QueueFor(job) == q;
    var l := QueueOf(s, QueueFor(job));
    assert l != [] ==> l == [l[0]] + l[1..];
  }

  lemma SendInOrder(s: Relay, w: Worker, q: Queue)
    requires HandOf(s, w).Sending?
    ensures QueueOf(s, q) + PutBy(s, Go(w), q) == RemovedBy(s, Go(w), q) + QueueOf(Step(s, Go(w)), q)
  {
    var job, phase := HandOf(s, w).job, HandOf(s, w).phase;
    assert Step(s, Go(w)) == Send(s, w, job, phase);
    match phase
    case CheckDone =>
    case TryPut => PutInOrder(s, w, job, q);
    case TryEvict => EvictInOrder(s, w, job, q);
  }

  lemma TakeInOrder(s: Relay, c: ConnNum, disco: bool, draining: bool, q: Queue)
    ensures var e := Take(c, disco, draining);
      QueueOf(s, q) + PutBy(s, e, q) == RemovedBy(s, e, q) + QueueOf(Step(s, e), q)
  {
    if Takes(s, Take(c, disco, draining), q) {
      var l := QueueOf(s, q);
      assert l == [l[0]] + l[1..];
    }
  }

  lemma OthersKeepQueues(s: Relay, e: Event, q: Queue)
    requires !e.Take? && (e.Go? ==> !HandOf(s, e.w).Sending?)
    ensures QueueOf(Step(s, e), q) == QueueOf(s, q) && PutBy(s, e, q) == [] && RemovedBy(s, e, q) == []
  {
  }

  /** Every event removes from the front and adds at the back. */
  lemma StepInOrder(s: Relay, e: Event, q: Queue)
    ensures QueueOf(s, q) + PutBy(s, e, q) == RemovedBy(s, e, q) + QueueOf(Step(s, e), q)
  {
    if e.Take? {
      TakeInOrder(s, e.c, e.disco, e.draining, q);
    } else if e.Go? && HandOf(s, e.w).Sending? {
      SendInOrder(s, e.w, q);
    } else {
      OthersKeepQueues(s, e, q);
    }
  }

  lemma Rejoin<T>(a: seq<T>, l: seq<T>, i: seq<T>, o: seq<T>, l': seq<T>)
    requires l + i == o + l'
    ensures (a + l) + i == (a + o) + l'
  {
    assert (a + l) + i == a + (l + i);
    assert (a + o) + l' == a + (o + l');
  }

  /** Over every interleaving: the packets ever put into a queue are, in order, those ever removed
      from it, written, evicted or drained, followed by those that are in it. */
  lemma {:induction false} FirstInFirstOut(policy: DupPolicy, publicKey: NodeKey, events: seq<Event>, q: Queue)
    ensures Puts(policy, publicKey, events, q) ==
      Removed(policy, publicKey, events, q) + QueueOf(Run(policy, publicKey, events), q)
    decreases |events|
  {
    if events != [] {
      var before, e := events[..|events| - 1], events[|events| - 1];
      var s := Run(policy, publicKey, before);
      FirstInFirstOut(policy, publicKey, before, q);
      StepInOrder(s, e, q);
      Rejoin(Removed(policy, publicKey, before, q), QueueOf(s, q), PutBy(s, e, q), RemovedBy(s, e, q), QueueOf(Step(s, e), q));
    }
  }

  // ----- What is written -----

  /** The queue from which the writer of `c` last took a packet. */
  ghost function LastFrom(policy: DupPolicy, publicKey: NodeKey, events: seq<Event>, c: ConnNum): Option<Queue> {
    if events == [] then None
    else
      var before, e := events[..|events| - 1], events[|events| - 1];
      if e.Take? && e.c == c && Takes(Run(policy, publicKey, before), e, Queue(c, e.disco))
      then Some(Queue(c, e.disco))
      else LastFrom(policy, publicKey, before, c)
  }

  /** What the event adds to the packets sent. */
  ghost function SentBy(s: Relay, e: Event): seq<Pkt> {
    if |Step(s, e).sent| > |s.sent| then Step(s, e).sent[|s.sent|..] else []
  }

  /** All packets from `q` whose write succeeded, in the order of the writes. */
  ghost function Written(policy: DupPolicy, publicKey: NodeKey, events: seq<Event>, q: Queue): seq<Pkt> {
    if events == [] then []
    else
      var before, e := events[..|events| - 1], events[|events| - 1];
      Written(policy, publicKey, before, q) +
      if e.Wrote? && LastFrom(policy, publicKey, before, e.c) == Some(q) then SentBy(Run(policy, publicKey, before), e) else []
  }

  /** `a` is `b` with some elements left out. */
  ghost predicate Within<T(!new)>(a: seq<T>, b: seq<T>) {
    a == [] ||
    (b != [] && ((a[|a| - 1] == b[|b| - 1] && Within(a[..|a| - 1], b[..|b| - 1])) || Within(a, b[..|b| - 1])))
  }

  lemma WithinOneMore<T(!new)>(a: seq<T>, b: seq<T>, x: T)
    requires Within(a, b)
    ensures Within(a, b + [x]) && Within(a + [x], b + [x])
  {
    assert (b + [x])[..|b + [x]| - 1] == b && (a + [x])[..|a + [x]| - 1] == a;
  }

  lemma {:induction false} WithinShorter<T(!new)>(a: seq<T>, x: T, b: seq<T>)
    requires Within(a + [x], b)
    ensures Within(a, b)
    decreases |b|
  {
    assert (a + [x])[..|a + [x]| - 1] == a;
    var n := |b| - 1;
    if Within(a + [x], b[..n]) {
      WithinShorter(a, x, b[..n]);
    }
    assert b[..n] + [b[n]] == b;
    WithinOneMore(a, b[..n], b[n]);
  }

  lemma {:induction false} WithinLonger<T(!new)>(a: seq<T>, b: seq<T>, c: seq<T>)
    requires Within(a, b)
    ensures Within(a, b + c)
    decreases |c|
  {
    if c == [] {
      assert b + c == b;
    } else {
      var n := |c| - 1;
      WithinLonger(a, b, c[..n]);
      WithinOneMore(a, b + c[..n], c[n]);
      assert b + c == b + c[..n] + [c[n]];
    }
  }

  /** The packet from `q` that is being written, if there is one. */
  ghost function InWriting(policy: DupPolicy, publicKey: NodeKey, events: seq<Event>, q: Queue): seq<Pkt> {
    var h := HandOf(Run(policy, publicKey, events), Writer(q.conn));
    if h.Writing? && LastFrom(policy, publicKey, events, q.conn) == Some(q) then [h.p] else []
  }

  /** Goroutine `w` did something that neither starts a write nor takes anything in. */
  ghost predicate Unheard(s: Relay, w: Worker, s': Relay) {
    && !HandOf(s', w).Writing? && (forall v :: v != w ==> HandOf(s', v) == HandOf(s, v))
    && s'.names == s.names && s'.received == s.received && s'.forwardedIn == s.forwardedIn && s'.sent == s.sent
  }

  lemma SendUnheard(s: Relay, w: Worker, job: Job, phase: Phase)
    ensures Unheard(s, w, Send(s, w, job, phase))
  {
  }

  lemma RouteUnheard(s: Relay, w: Worker, p: Pkt, forwarded: bool)
    ensures Unheard(s, w, Route(s, w, p, forwarded))
  {
  }

  lemma AdvanceUnheard(s: Relay, w: Worker)
    ensures Advance(s, w) == s || Unheard(s, w, Advance(s, w))
  {
    match HandOf(s, w)
    case Routing(p, forwarded) => RouteUnheard(s, w, p, forwarded);
    case Sending(job, phase) => SendUnheard(s, w, job, phase);
    case _ =>
  }

  lemma AdvanceWriter(s: Relay, w: Worker, c: ConnNum)
    ensures HandOf(Advance(s, w), Writer(c)).Writing? ==> HandOf(Advance(s, w), Writer(c)) == HandOf(s, Writer(c))
    ensures Advance(s, w).names == s.names && Advance(s, w).received == s.received && Advance(s, w).forwardedIn == s.forwardedIn
  {
    AdvanceUnheard(s, w);
  }

  lemma TakeWriter(s: Relay, q: Queue, draining: bool, c: ConnNum)
    requires QueueOf(s, q) != []
    ensures var h' := HandOf(TakeOne(s, q.conn, q, draining), Writer(c));
      if q.conn == c then h'.Writing? ==> TakenBy(h') == [h'.p] else h' == HandOf(s, Writer(c))
  {
  }

  /** A writer comes to write a packet only by taking it from one of its queues, and is rid of it
      after the write; nothing else is ever sent. */
  lemma WriterStep(s: Relay, e: Event, c: ConnNum)
    ensures var h, h' := HandOf(s, Writer(c)), HandOf(Step(s, e), Writer(c));
      h'.Writing? ==>
        && !(e.Wrote? && e.c == c)
        && if e.Take? && Takes(s, e, Queue(c, e.disco)) then RemovedBy(s, e, Queue(c, e.disco)) == [h'.p] else h' == h
  {
    match e
    case Go(w) => AdvanceWriter(s, w, c);
    case Take(x, disco, draining) =>
      if QueueOf(s, Queue(x, disco)) != [] {
        TakeWriter(s, Queue(x, disco), draining, c);
      }
    case _ =>
  }

  lemma SentStep(s: Relay, e: Event)
    ensures SentBy(s, e) == if e.Wrote? && e.ok && HandOf(s, Writer(e.c)).Writing? then [HandOf(s, Writer(e.c)).p] else []
  {
    if e.Wrote? && HandOf(s, Writer(e.c)).Writing? {
      var p := HandOf(s, Writer(e.c)).p;
      assert Step(s, e).sent == if e.ok then s.sent + [p] else s.sent;
      assert (s.sent + [p])[|s.sent|..] == [p];
    } else {
      SentUnchanged(s, e);
    }
  }

  lemma SentUnchanged(s: Relay, e: Event)
    requires e.Wrote? ==> !HandOf(s, Writer(e.c)).Writing?
    ensures Step(s, e).sent == s.sent
  {
    if e.Go? {
      AdvanceUnheard(s, e.w);
    }
  }

  lemma RemovesOne(s: Relay, e: Event, q: Queue)
    ensures |RemovedBy(s, e, q)| <= 1
  {
  }

  lemma LastFromOwn(policy: DupPolicy, publicKey: NodeKey, events: seq<Event>, c: ConnNum)
    ensures LastFrom(policy, publicKey, events, c).Some? ==> LastFrom(policy, publicKey, events, c).value.conn == c
    decreases |events|
  {
  }

  lemma WithinSnoc<T(!new)>(w: seq<T>, i: seq<T>, r: seq<T>, o: seq<T>)
    requires Within(w + i, r) && |i| <= 1 && |o| <= 1
    ensures Within(w + i, r + o) && Within(w, r + o) && (i == [] ==> Within(w + o, r + o))
  {
    WithinLonger(w + i, r, o);
    if i == [] {
      assert w + i == w;
      if o != [] {
        assert o == [o[0]];
        WithinOneMore(w, r, o[0]);
      } else {
        assert w + o == w;
      }
    } else {
      assert i == [i[0]];
      WithinShorter(w, i[0], r + o);
    }
  }

  lemma WithinAfter<T(!new)>(w: seq<T>, i: seq<T>, r: seq<T>, o: seq<T>, w': seq<T>, i': seq<T>)
    requires Within(w + i, r) && |i| <= 1 && |o| <= 1
    requires (w' == w && (i' == [] || i' == i || (i == [] && i' == o))) || (w' == w + i && i' == [])
    ensures Within(w' + i', r + o)
  {
    WithinSnoc(w, i, r, o);
    assert w + [] == w && (w + i) + [] == w + i;
  }

  lemma WrittenStep(policy: DupPolicy, publicKey: NodeKey, events: seq<Event>, q: Queue)
    requires events != []
    ensures var before, e := events[..|events| - 1], events[|events| - 1];
      var s := Run(policy, publicKey, before);
      var w, w' := Written(policy, publicKey, before, q), Written(policy, publicKey, events, q);
      var i, i' := InWriting(policy, publicKey, before, q), InWriting(policy, publicKey, events, q);
      || (w' == w && (i' == [] || i' == i || (i == [] && i' == RemovedBy(s, e, q))))
      || (w' == w + i && i' == [])
  {
    var before, e := events[..|events| - 1], events[|events| - 1];
    var s := Run(policy, publicKey, before);
    WriterStep(s, e, q.conn);
    SentStep(s, e);
    LastFromOwn(policy, publicKey, before, q.conn);
    if e.Wrote? {
      LastFromOwn(policy, publicKey, before, e.c);
    }
    assert Written(policy, publicKey, before, q) + [] == Written(policy, publicKey, before, q);
  }

  lemma {:induction false} WrittenWithinRemoved(policy: DupPolicy, publicKey: NodeKey, events: seq<Event>, q: Queue)
    ensures Within(Written(policy, publicKey, events, q) + InWriting(policy, publicKey, events, q), Removed(policy, publicKey, events, q))
    decreases |events|
  {
    if events != [] {
      var before, e := events[..|events| - 1], events[|events| - 1];
      var s := Run(policy, publicKey, before);
      WrittenWithinRemoved(policy, publicKey, before, q);
      WrittenStep(policy, publicKey, events, q);
      RemovesOne(s, e, q);
      var w, i := Written(policy, publicKey, before, q), InWriting(policy, publicKey, before, q);
      WithinAfter(w, i, Removed(policy, publicKey, before, q), RemovedBy(s, e, q),
                  Written(policy, publicKey, events, q), InWriting(policy, publicKey, events, q));
    }
  }

  /** Over every interleaving: the packets written from a queue keep the order in which they were
      put into it. */
  lemma WrittenInOrder(policy: DupPolicy, publicKey: NodeKey, events: seq<Event>, q: Queue)
    ensures Within(Written(policy, publicKey, events, q), Puts(policy, publicKey, events, q))
  {
    WrittenWithinRemoved(policy, publicKey, events, q);
    FirstInFirstOut(policy, publicKey, events, q);
    var w, i := Written(policy, publicKey, events, q), InWriting(policy, publicKey, events, q);
    var r := Removed(policy, publicKey, events, q);
    if i == [] {
      assert w + i == w;
    } else {
      assert i == [i[0]];
      WithinShorter(w, i[0], r);
    }
    WithinLonger(w, r, QueueOf(Run(policy, publicKey, events), q));
  }

  /** And every packet that is being written comes from one of the two queues of its connection, so
      that what is sent is what is written from the queues. */
  lemma {:induction false} WritesFromQueue(policy: DupPolicy, publicKey: NodeKey, events: seq<Event>, c: ConnNum)
    ensures HandOf(Run(policy, publicKey, events), Writer(c)).Writing? ==> LastFrom(policy, publicKey, events, c).Some?
    decreases |events|
  {
    if events != [] {
      var before, e := events[..|events| - 1], events[|events| - 1];
      WritesFromQueue(policy, publicKey, before, c);
      WriterStep(Run(policy, publicKey, before), e, c);
    }
  }

  /** Routing a packet is the server's own step for it. */
  lemma RoutingIsServerStep(s: Relay, w: Worker, c: ConnNum, p: Pkt)
    ensures Route(s, w, p, true).srv == Machine.Step(s.srv, Machine.ForwardPacket(p.src, p.dst))
    ensures c in s.srv.table.conns && s.srv.table.conns[c].key == p.src ==>
      Route(s, w, p, false).srv == Machine.Step(s.srv, Machine.SendPacket(c, p.dst))
  {
  }

  // ----- Where packets come from -----

  /** The key that number `c` registered under in a run. */
  ghost function NameOf(policy: DupPolicy, publicKey: NodeKey, events: seq<Event>, c: ConnNum): Option<NodeKey> {
    if events == [] then None
    else
      var before, e := events[..|events| - 1], events[|events| - 1];
      if e.Control? && e.e.Register? && e.e.c == c && c in Run(policy, publicKey, before).srv.accepted then Some(e.e.key)
      else NameOf(policy, publicKey, before, c)
  }

  /** The packets that clients have sent, each under the key that its connection registered under. */
  ghost function FromClients(policy: DupPolicy, publicKey: NodeKey, events: seq<Event>): seq<Pkt> {
    if events == [] then []
    else
      var before, e := events[..|events| - 1], events[|events| - 1];
      var s := Run(policy, publicKey, before);
      FromClients(policy, publicKey, before) +
      if e.Receive? && e.c in s.srv.table.conns && HandOf(s, Reader(e.c)).Idle? && NameOf(policy, publicKey, before, e.c).Some?
      then [Pkt(e.bs, NameOf(policy, publicKey, before, e.c).value, e.dst)] else []
  }

  /** The packets that mesh peers have sent, as they sent them. */
  ghost function FromPeers(policy: DupPolicy, publicKey: NodeKey, events: seq<Event>): seq<Pkt> {
    if events == [] then []
    else
      var before, e := events[..|events| - 1], events[|events| - 1];
      var s := Run(policy, publicKey, before);
      FromPeers(policy, publicKey, before) +
      if e.ReceiveForward? && e.c in s.srv.table.conns && s.srv.table.conns[e.c].canMesh && HandOf(s, Reader(e.c)).Idle?
      then [Pkt(e.bs, e.src, e.dst)] else []
  }

  lemma {:induction false} NamesAreRegistered(policy: DupPolicy, publicKey: NodeKey, events: seq<Event>, c: ConnNum)
    ensures var s := Run(policy, publicKey, events);
      NameOf(policy, publicKey, events, c) == if c in s.names then Some(s.names[c]) else None
    decreases |events|
  {
    if events != [] {
      NamesAreRegistered(policy, publicKey, events[..|events| - 1], c);
      NamesStep(Run(policy, publicKey, events[..|events| - 1]), events[|events| - 1]);
    }
  }

  lemma NamesStep(s: Relay, e: Event)
    ensures Step(s, e).names ==
      if e.Control? && e.e.Register? && e.e.c in s.srv.accepted then s.names[e.e.c := e.e.key] else s.names
  {
    match e
    case Control(e) => ControlNamed(s, e);
    case Go(w) => AdvanceWriter(s, w, 0);
    case _ =>
  }

  lemma ControlNamed(s: Relay, e: Machine.Event)
    ensures ControlStep(s, e).names == if e.Register? && e.c in s.srv.accepted then s.names[e.c := e.key] else s.names
  {
  }

  lemma ReceivedStep(s: Relay, e: Event)
    ensures Step(s, e).received == s.received +
      if e.Receive? && e.c in s.srv.table.conns && HandOf(s, Reader(e.c)).Idle?
      then [Pkt(e.bs, s.srv.table.conns[e.c].key, e.dst)] else []
    ensures Step(s, e).forwardedIn == s.forwardedIn +
      if e.ReceiveForward? && e.c in s.srv.table.conns && s.srv.table.conns[e.c].canMesh && HandOf(s, Reader(e.c)).Idle?
      then [Pkt(e.bs, e.src, e.dst)] else []
  {
    assert s.received + [] == s.received && s.forwardedIn + [] == s.forwardedIn;
    if e.Go? {
      AdvanceWriter(s, e.w, 0);
    }
  }

  /** Over every interleaving: what was received from clients is what they sent, each packet under
      the key that its connection registered under; what mesh peers forwarded is as they sent it. */
  lemma {:induction false} SourcesAreGenuine(policy: DupPolicy, publicKey: NodeKey, events: seq<Event>)
    ensures var s := Run(policy, publicKey, events);
      s.received == FromClients(policy, publicKey, events) && s.forwardedIn == FromPeers(policy, publicKey, events)
    decreases |events|
  {
    if events != [] {
      var before, e := events[..|events| - 1], events[|events| - 1];
      SourcesAreGenuine(policy, publicKey, before);
      ReceivedStep(Run(policy, publicKey, before), e);
      RunKeepsInv(policy, publicKey, before);
      if e.Receive? {
        NamesAreRegistered(policy, publicKey, before, e.c);
      }
    }
  }
}
