/** Where a shard can live: this node's own store, or a peer. */
module Locations {

  datatype Location = Local | Peer(id: nat)

  /** The order of location names: peer ids are hexadecimal, so they all sort before
      the name "local". */
  predicate NameBefore(a: Location, b: Location) {
    match (a, b)
    case (Peer(i), Peer(j)) => i < j
    case (Peer(_), Local) => true
    case (Local, _) => false
  }
}
