/** The `TestBzz*` tests of the protocol test file, each as a client of the
    tester whose postcondition says the test passes: every harness stage
    passes and every pool check holds. The random address of each test is a
    parameter, and so is the id of the tester's one simulated peer. */
module Scenarios {
  import opened Wrappers
  import opened BzzHandshake
  import opened Codes
  import opened PeerPool
  import opened Exchange
  import opened Session
  import opened Tester

  /** Local {0, 322}, incoming {0, 321}: disconnect "network id mismatch 321 (!= 322)". */
  method HandshakeNetworkIdMismatch(addr: PeerAddr, id: NodeId, order: Precedence) returns (outcome: Outcome)
    ensures outcome == Pass
  {
    var pp := new Pool();
    var s := new BzzTester(addr, pp, None, None, order, [id]);
    var rhs := Handshake(0, 321, PeerAddrOf(id));
    NetworkIdMismatchText(addr, rhs.addr, order);
    HandshakeTestRejects(s.cfg, s.State(), rhs, NetworkIdMismatch(321, 322));
    outcome := s.TestHandshake(CorrectBzzHandshake(addr), rhs,
                               [ExpectedDisconnect(id, "network id mismatch 321 (!= 322)")]);
  }

  /** Local {0, 322}, incoming {1, 322}: disconnect "version mismatch 1 (!= 0)". */
  method HandshakeVersionMismatch(addr: PeerAddr, id: NodeId, order: Precedence) returns (outcome: Outcome)
    ensures outcome == Pass
  {
    var pp := new Pool();
    var s := new BzzTester(addr, pp, None, None, order, [id]);
    var rhs := Handshake(1, 322, PeerAddrOf(id));
    VersionMismatchText(addr, rhs.addr, order);
    HandshakeTestRejects(s.cfg, s.State(), rhs, VersionMismatch(1, 0));
    outcome := s.TestHandshake(CorrectBzzHandshake(addr), rhs,
                               [ExpectedDisconnect(id, "version mismatch 1 (!= 0)")]);
  }

  /** Matching handshakes: no disconnect expected, and the peer is pooled. */
  method HandshakeSuccess(addr: PeerAddr, id: NodeId, order: Precedence) returns (outcome: Outcome, added: bool)
    ensures outcome == Pass && added
  {
    var pp := new Pool();
    var s := new BzzTester(addr, pp, None, None, order, [id]);
    var rhs := Handshake(0, 322, PeerAddrOf(id));
    CorrectHandshakesAdmit(addr, rhs.addr, order);
    HandshakeTestAdmits(s.cfg, s.State(), rhs);
    outcome := s.TestHandshake(CorrectBzzHandshake(addr), rhs, []);
    added := pp.Has(id);
  }

  /** `runHandshakes()` then `pp.Has(id)`. */
  method PeerPoolAdd(addr: PeerAddr, id: NodeId, order: Precedence) returns (outcome: Outcome, added: bool)
    ensures outcome == Pass && added
  {
    var pp := new Pool();
    var s := new BzzTester(addr, pp, None, None, order, [id]);
    HandshakeRunsAdmitAll(s.cfg, addr, s.State(), [id]);
    outcome := s.RunHandshakes([]);
    added := pp.Has(id);
  }

  /** `runHandshakes()`, then drop the peer: one closed-pipe disconnect, and
      `pp.Has(id)` is false. */
  method PeerPoolRemove(addr: PeerAddr, id: NodeId, order: Precedence)
    returns (outcome: Outcome, disconnected: bool, removed: bool)
    ensures outcome == Pass && disconnected && removed
  {
    var pp := new Pool();
    var s := new BzzTester(addr, pp, None, None, order, [id]);
    HandshakeRunsAdmitAll(s.cfg, addr, s.State(), [id]);
    outcome := s.RunHandshakes([]);
    DropRemovesPeer(s.State(), id);
    s.DropPeer(id);
    assert s.log[|s.log| - 1] == Disconnect(id, ClosedPipe);
    disconnected := s.TestDisconnected([ExpectedDisconnect(id, "p2p: read or write on closed message pipe")]);
    var present := pp.Has(id);
    removed := !present;
  }

  /** `runHandshakes()`, `pp.Has(id)`, then drop the peer: one closed-pipe
      disconnect, and `pp.Has(id)` is false. */
  method PeerPoolBothAddRemove(addr: PeerAddr, id: NodeId, order: Precedence)
    returns (outcome: Outcome, added: bool, disconnected: bool, removed: bool)
    ensures outcome == Pass && added && disconnected && removed
  {
    var pp := new Pool();
    var s := new BzzTester(addr, pp, None, None, order, [id]);
    HandshakeRunsAdmitAll(s.cfg, addr, s.State(), [id]);
    outcome := s.RunHandshakes([]);
    added := pp.Has(id);
    DropRemovesPeer(s.State(), id);
    s.DropPeer(id);
    assert s.log[|s.log| - 1] == Disconnect(id, ClosedPipe);
    disconnected := s.TestDisconnected([ExpectedDisconnect(id, "p2p: read or write on closed message pipe")]);
    var present := pp.Has(id);
    removed := !present;
  }

  /** A network id mismatch, then `pp.Has(id)` is false. */
  method PeerPoolNotAdd(addr: PeerAddr, id: NodeId, order: Precedence) returns (outcome: Outcome, notAdded: bool)
    ensures outcome == Pass && notAdded
  {
    var pp := new Pool();
    var s := new BzzTester(addr, pp, None, None, order, [id]);
    var rhs := Handshake(0, 321, PeerAddrOf(id));
    NetworkIdMismatchText(addr, rhs.addr, order);
    HandshakeTestRejects(s.cfg, s.State(), rhs, NetworkIdMismatch(321, 322));
    outcome := s.TestHandshake(CorrectBzzHandshake(addr), rhs,
                               [ExpectedDisconnect(id, "network id mismatch 321 (!= 322)")]);
    var present := pp.Has(id);
    notAdded := !present;
  }
}
