/** Watchers: mesh peers that mirror the set of connected keys from a stream of events. */
module DerpWatch {
  import opened DerpTypes
  import Frames = DerpFrames

  datatype PeerEvent = PeerEvent(peer: NodeKey, present: bool, addr: AddrPort)

  /** For each watcher, the events already written to it and those still pending. */
  datatype Watch = Watch(
    watchers: set<ConnNum>, pending: map<ConnNum, seq<PeerEvent>>, written: map<ConnNum, seq<PeerEvent>>)

  const NO_WATCH := Watch({}, map[], map[])

  function Events(m: map<ConnNum, seq<PeerEvent>>, c: ConnNum): seq<PeerEvent> {
    if c in m then m[c] else []
  }

  /** The keys that a peer believes connected after some events, starting from `start`. */
  function View(start: set<NodeKey>, events: seq<PeerEvent>): set<NodeKey> {
    if events == [] then start
    else
      var before := View(start, events[..|events| - 1]);
      var e := events[|events| - 1];
      if e.present then before + {e.peer} else before - {e.peer}
  }

  lemma {:induction false} ViewAppend(start: set<NodeKey>, a: seq<PeerEvent>, b: seq<PeerEvent>)
    ensures View(start, a + b) == View(View(start, a), b)
    decreases |b|
  {
    if b == [] {
      assert a + b == a;
    } else {
      ViewAppend(start, a, b[..|b| - 1]);
      assert (a + b)[..|a + b| - 1] == a + b[..|b| - 1];
    }
  }

  /** Only the last event about a key matters. */
  lemma {:induction false} ViewOfKey(start: set<NodeKey>, events: seq<PeerEvent>, k: NodeKey)
    ensures (forall e :: e in events ==> e.peer != k) ==> (k in View(start, events) <==> k in start)
    ensures (exists e :: e in events && e.peer == k) ==>
      (k in View(start, events) <==> k in View({}, events))
  {
    if events != [] {
      var n := |events| - 1;
      ViewOfKey(start, events[..n], k);
      assert events == events[..n] + [events[n]];
    }
  }

  /** Writing the first events again before all of them changes nothing: a failed write that
      leaves the queue as it was does not spoil the mirror. */
  lemma RewrittenPrefix(start: set<NodeKey>, prefix: seq<PeerEvent>, events: seq<PeerEvent>)
    requires prefix <= events
    ensures View(start, prefix + events) == View(start, events)
  {
    ViewAppend(start, prefix, events);
    forall k ensures k in View(View(start, prefix), events) <==> k in View(start, events) {
      ViewOfKey(start, prefix, k);
      ViewOfKey(start, events, k);
      ViewOfKey(View(start, prefix), events, k);
      if forall e :: e in events ==> e.peer != k {
        forall e | e in prefix ensures e.peer != k {
          var i :| 0 <= i < |prefix| && prefix[i] == e;
          assert events[i] == e;
        }
      }
    }
  }

  /** A list of arrivals adds its keys. */
  lemma {:induction false} ViewArrivals(start: set<NodeKey>, events: seq<PeerEvent>)
    requires forall e :: e in events ==> e.present
    ensures View(start, events) == start + set e | e in events :: e.peer
  {
    if events != [] {
      var n := |events| - 1;
      ViewArrivals(start, events[..n]);
      assert events == events[..n] + [events[n]];
      assert (set e | e in events :: e.peer) == (set e | e in events[..n] :: e.peer) + {events[n].peer};
    } else {
      assert (set e | e in events :: e.peer) == {};
    }
  }

  // ----- Frames -----

  /** The bytes of the frame that tells an event: a departure carries a key and a reason, an arrival
      a key, an address and a port. */
  function FrameLen(e: PeerEvent): nat {
    Frames.FRAME_HEADER_LEN + Frames.KEY_LEN + if e.present then 16 + 2 else 1
  }

  /** The test before each frame. */
  predicate RoomSeen(available: int) {
    available > Frames.FRAME_HEADER_LEN + Frames.KEY_LEN
  }

  /** A frame that the test lets through fits into the buffer without a flush exactly if it tells a
      departure or there is room for an arrival. */
  lemma FitsWithoutFlush(e: PeerEvent, available: int)
    requires RoomSeen(available)
    ensures FrameLen(e) <= available <==> !e.present || available >= 55
  {
  }

  /** So the test is too weak: with 38 bytes free it lets an arrival through, which does not fit. */
  lemma MayFlush(peer: NodeKey, addr: AddrPort)
    ensures RoomSeen(38) && FrameLen(PeerEvent(peer, true, addr)) > 38
  {
  }

  // ----- Steps -----

  function Broadcast(w: Watch, e: PeerEvent): Watch {
    w.(pending := map c | c in w.pending.Keys + w.watchers ::
         if c in w.watchers then Events(w.pending, c) + [e] else Events(w.pending, c))
  }

  function Enroll(w: Watch, c: ConnNum, events: seq<PeerEvent>): Watch {
    w.(watchers := w.watchers + {c}, pending := w.pending[c := Events(w.pending, c) + events])
  }

  /** The connection is gone, with whatever was still to be told to it. */
  function Leave(w: Watch, c: ConnNum): Watch {
    Watch(w.watchers - {c}, w.pending - {c}, w.written - {c})
  }

  /** `n` pending events were written; they stay pending if the last write failed. */
  function Drain(w: Watch, c: ConnNum, n: nat, failed: bool): Watch
    requires n <= |Events(w.pending, c)|
  {
    var p := Events(w.pending, c);
    w.(written := w.written[c := Events(w.written, c) + p[..n]],
       pending := w.pending[c := if failed then p else p[n..]])
  }

  // ----- The mirror -----

  /** What `c` will believe once everything pending is written. */
  function Mirror(w: Watch, c: ConnNum): set<NodeKey> {
    View({}, Events(w.written, c) + Events(w.pending, c))
  }

  /** A watcher `c` mirrors the connected keys but for those in `u`, which it has not been told of;
      a connection that does not watch has been told nothing. */
  ghost predicate Believes(w: Watch, keys: set<NodeKey>, c: ConnNum, u: set<NodeKey>) {
    && (c in w.watchers ==> u <= keys && Mirror(w, c) == keys - u)
    && (c !in w.watchers ==> Events(w.pending, c) == [] && Events(w.written, c) == [])
  }

  function Told(keys: set<NodeKey>, e: PeerEvent): set<NodeKey> {
    if e.present then keys + {e.peer} else keys - {e.peer}
  }

  lemma ViewSnoc(a: seq<PeerEvent>, b: seq<PeerEvent>, e: PeerEvent)
    ensures View({}, a + (b + [e])) == Told(View({}, a + b), e)
  {
    var s := a + (b + [e]);
    assert s[..|s| - 1] == a + b && s[|s| - 1] == e;
  }

  lemma BroadcastEvents(w: Watch, e: PeerEvent, c: ConnNum)
    ensures Events(Broadcast(w, e).pending, c) == if c in w.watchers then Events(w.pending, c) + [e] else Events(w.pending, c)
    ensures Broadcast(w, e).watchers == w.watchers && Broadcast(w, e).written == w.written
  {
  }

  /** An event queued for every watcher brings its mirror up to date. */
  lemma BroadcastBelieves(w: Watch, keys: set<NodeKey>, e: PeerEvent, c: ConnNum, u: set<NodeKey>)
    requires Believes(w, keys, c, u)
    ensures Believes(Broadcast(w, e), Told(keys, e), c, u - {e.peer})
  {
    BroadcastEvents(w, e, c);
    ViewSnoc(Events(w.written, c), Events(w.pending, c), e);
  }

  /** A watcher that is told of some connected keys, even if it asks twice, misses only others. */
  lemma EnrollBelieves(w: Watch, keys: set<NodeKey>, c: ConnNum, events: seq<PeerEvent>, u: set<NodeKey>)
    requires Believes(w, keys, c, u) && (forall e :: e in events ==> e.present)
    requires (set e | e in events :: e.peer) <= keys
    ensures var told := set e | e in events :: e.peer;
      Believes(Enroll(w, c, events), keys, c, (if c in w.watchers then u else keys) - told)
  {
    var a, b := Events(w.written, c), Events(w.pending, c);
    assert a + (b + events) == (a + b) + events;
    ViewAppend({}, a + b, events);
    ViewArrivals(View({}, a + b), events);
    assert c !in w.watchers ==> a + b == [];
  }

  lemma EnrollOthers(w: Watch, keys: set<NodeKey>, x: ConnNum, events: seq<PeerEvent>, c: ConnNum, u: set<NodeKey>)
    requires Believes(w, keys, c, u) && c != x
    ensures Believes(Enroll(w, x, events), keys, c, u)
  {
  }

  lemma LeaveBelieves(w: Watch, keys: set<NodeKey>, x: ConnNum, c: ConnNum, u: set<NodeKey>)
    requires Believes(w, keys, c, u)
    ensures Believes(Leave(w, x), keys, c, u)
  {
  }

  /** Draining moves a prefix in order and loses nothing, even when it fails. */
  lemma DrainBelieves(w: Watch, keys: set<NodeKey>, x: ConnNum, n: nat, failed: bool, c: ConnNum, u: set<NodeKey>)
    requires Believes(w, keys, c, u) && x in w.watchers && n <= |Events(w.pending, x)|
    ensures Believes(Drain(w, x, n, failed), keys, c, u)
  {
    if c == x {
      var a, p := Events(w.written, c), Events(w.pending, c);
      if failed {
        assert (a + p[..n]) + p == a + (p[..n] + p);
        ViewAppend({}, a, p[..n] + p);
        RewrittenPrefix(View({}, a), p[..n], p);
        ViewAppend({}, a, p);
      } else {
        assert (a + p[..n]) + p[n..] == a + p;
      }
    }
  }
}
