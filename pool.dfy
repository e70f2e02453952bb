/** The test peer pool: the registry of admitted peers, keyed by node id. */
module PeerPool {
  import opened Wrappers
  import opened BzzHandshake

  /** A running peer as the pool holds it: its node id and the overlay
      address its handshake announced. */
  datatype Peer = Peer(id: NodeId, addr: PeerAddr)

  class Pool {
    var peers: map<NodeId, Peer>

    /** `NewTestPeerPool()` */
    constructor ()
      ensures peers == map[]
    {
      peers := map[];
    }

    /** Inserts the peer, overwriting an entry with the same id. */
    method Add(p: Peer)
      modifies this
      ensures peers == old(peers)[p.id := p]
    {
      peers := peers[p.id := p];
    }

    /** Deletes the entry for `id`; nothing happens when there is none. */
    method Remove(id: NodeId)
      modifies this
      ensures peers == old(peers) - {id}
    {
      peers := peers - {id};
    }

    method Has(id: NodeId) returns (b: bool)
      ensures b <==> id in peers
    {
      b := id in peers;
    }

    method Get(id: NodeId) returns (p: Option<Peer>)
      ensures p.Some? <==> id in peers
      ensures p.Some? ==> p.value == peers[id]
    {
      p := if id in peers then Some(peers[id]) else None;
    }
  }
}
