/** Names used throughout the relay server. */
module DerpTypes {
  import opened Wrappers

  /** A client's public key. */
  datatype NodeKey = NodeKey(raw: Bytes)

  /** The number of a connection, unique in the life of the server. */
  type ConnNum = nat

  /** A remote address and port. */
  datatype AddrPort = AddrPort(text: string)

  /** A packet forwarder: a peer server of the mesh, known by identity. */
  type Fwd = nat

  datatype DupPolicy = LastWriterIsActive | DisableFighters
}
