/** Who sent to whom: the record that decides who learns that a sender has left the region. */
module DerpRoutes {
  import opened Wrappers
  import opened DerpTypes

  /** For each source and destination key, the connection last used. */
  type Sent = map<NodeKey, map<NodeKey, ConnNum>>

  /** What happened: a packet was routed to a connection, or a source left the region. */
  datatype RouteEvent = Routed(src: NodeKey, dst: NodeKey, c: ConnNum) | Left(src: NodeKey)

  function Lookup(sent: Sent, src: NodeKey, dst: NodeKey): Option<ConnNum> {
    if src in sent && dst in sent[src] then Some(sent[src][dst]) else None
  }

  function Note(sent: Sent, src: NodeKey, dst: NodeKey, c: ConnNum): Sent {
    sent[src := (if src in sent then sent[src] else map[])[dst := c]]
  }

  function Forget(sent: Sent, src: NodeKey): Sent {
    sent - {src}
  }

  /** The connection of the latest packet from `src` to `dst` since `src` last left. */
  function Latest(log: seq<RouteEvent>, src: NodeKey, dst: NodeKey): Option<ConnNum> {
    if log == [] then None
    else
      match log[|log| - 1]
      case Routed(s, d, c) => if s == src && d == dst then Some(c) else Latest(log[..|log| - 1], src, dst)
      case Left(s) => if s == src then None else Latest(log[..|log| - 1], src, dst)
  }

  /** The record says what the history says. */
  ghost predicate Faithful(sent: Sent, log: seq<RouteEvent>) {
    forall src, dst :: Lookup(sent, src, dst) == Latest(log, src, dst)
  }

  lemma NoteFaithful(sent: Sent, log: seq<RouteEvent>, src: NodeKey, dst: NodeKey, c: ConnNum)
    requires Faithful(sent, log)
    ensures Faithful(Note(sent, src, dst, c), log + [Routed(src, dst, c)])
  {
    var log' := log + [Routed(src, dst, c)];
    assert log'[..|log'| - 1] == log;
    forall s, d ensures Lookup(Note(sent, src, dst, c), s, d) == Latest(log', s, d) {
      assert Lookup(sent, s, d) == Latest(log, s, d);
    }
  }

  lemma ForgetFaithful(sent: Sent, log: seq<RouteEvent>, src: NodeKey)
    requires Faithful(sent, log)
    ensures Faithful(Forget(sent, src), log + [Left(src)])
  {
    var log' := log + [Left(src)];
    assert log'[..|log'| - 1] == log;
    forall s, d ensures Lookup(Forget(sent, src), s, d) == Latest(log', s, d) {
      assert Lookup(sent, s, d) == Latest(log, s, d);
    }
  }
}
