/** The scripts the exchange harness runs, and how a handshake test builds them. */
module Exchange {
  import opened BzzHandshake

  /** A message the protocol under test must send to `peer`. */
  datatype Expect = Expect(code: nat, msg: Handshake, peer: NodeId)

  /** A message the simulated `peer` sends to the protocol under test. */
  datatype Trigger = Trigger(code: nat, msg: Handshake, peer: NodeId)

  /** One step of a script. */
  datatype Exchange = Exchange(expects: seq<Expect>, triggers: seq<Trigger>)

  /** A disconnect a test expects: the peer and the exact error text. */
  datatype ExpectedDisconnect = ExpectedDisconnect(peer: NodeId, error: string)

  /** `bzzHandshakeExchange(lhs, rhs, id)`: first the protocol under test must
      send `lhs` to `id` on code 0, then `id` answers with `rhs` on code 0. */
  function BzzHandshakeExchange(lhs: Handshake, rhs: Handshake, id: NodeId): (script: seq<Exchange>)
    ensures |script| == 2
    ensures script[0].expects == [Expect(0, lhs, id)] && script[0].triggers == []
    ensures script[1].expects == [] && script[1].triggers == [Trigger(0, rhs, id)]
  {
    [Exchange([Expect(0, lhs, id)], []), Exchange([], [Trigger(0, rhs, id)])]
  }

  /** The peers a handshake test waits to see connected. */
  function ConnectList(rhs: Handshake, ds: seq<ExpectedDisconnect>): seq<NodeId> {
    if |ds| > 0 then seq(|ds|, i requires 0 <= i < |ds| => ds[i].peer)
    else [NodeIdOf(rhs.addr)]
  }

  /** The `peers` list of `testHandshake`: the peer of every expected
      disconnect, in order, or else the single peer named by `rhs.Addr`. */
  method PeersToConnect(rhs: Handshake, ds: seq<ExpectedDisconnect>) returns (peers: seq<NodeId>)
    ensures |ds| > 0 ==> |peers| == |ds| && forall i :: 0 <= i < |ds| ==> peers[i] == ds[i].peer
    ensures |ds| == 0 ==> peers == [NodeIdOf(rhs.addr)]
    ensures peers == ConnectList(rhs, ds)
  {
    var id := NodeIdOf(rhs.addr);
    if |ds| > 0 {
      peers := [];
      var i := 0;
      while i < |ds|
        invariant 0 <= i <= |ds|
        invariant |peers| == i
        invariant forall j :: 0 <= j < i ==> peers[j] == ds[j].peer
      {
        peers := peers + [ds[i].peer];
        i := i + 1;
      }
    } else {
      peers := [id];
    }
  }
}
