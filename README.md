# bzz handshake admission, modelled in Dafny

This project models the admission contract of the swarm `bzz` protocol as
its protocol test file (`swarm/network/protocol_test.go`) builds and asserts it:

- the **handshake** `{Version, NetworkId, Addr}`, the correct local one
  `{0, 322, addr}`, the decision taken on a peer's handshake, and the exact
  disconnect texts `network id mismatch <incoming> (!= <local>)`,
  `version mismatch <incoming> (!= <local>)` and
  `p2p: read or write on closed message pipe`;
- the **peer pool** (`Add`, `Remove`, `Has`, `Get`) and the admission wiring of
  `newBzzTester`: `extraservices` adds the peer, installs a disconnect hook that
  removes it, then runs the optional services and returns their error; a nil
  code map defaults to `BzzCodeMap()`;
- the **exchange script** built by `bzzHandshakeExchange` (expect the local
  handshake from the peer on code 0, then trigger the remote one on code 0);
- the **harness driver**: `testHandshake` picks the peers to wait for (the peer
  of each expected disconnect, else the peer named by `rhs.Addr`) and runs
  connected, exchanges, disconnected in that order; `runHandshakes` defaults to
  all tester ids and uses `correctBzzHandshake` on both sides;
- the seven `TestBzz*` tests, as client methods whose postconditions say that
  every stage of each test passes.

Layout, one module per file:

| file | module | contents |
|---|---|---|
| wrappers.dfy | Wrappers | `Option` |
| decimal.dfy | Decimal | `%d` rendering of naturals and its inverse |
| handshake.dfy | BzzHandshake | ids, addresses, handshakes, reasons and their texts, the decision |
| codes.dfy | Codes | the code map, reduced to "which code carries the handshake" |
| pool.dfy | PeerPool | the peer pool class |
| exchange.dfy | Exchange | script entries, `bzzHandshakeExchange`, the peer list of `testHandshake` |
| session.dfy | Session | the sessions as a value (`World`), every transition as a function, the invariant and the lemmas |
| tester.dfy | Tester | the tester class, whose methods perform the `Session` transitions in place |
| scenarios.dfy | Scenarios | the `TestBzz*` tests |

The central invariant (`Session.Inv`) is that a peer is in the pool, and has its
disconnect hook installed, exactly when its session was admitted and has not yet
disconnected. Each session goes Connected → Admitted | Rejected → Disconnected,
and it disconnects at most once. Every transition preserves the invariant,
including every script the harness can run (`ScriptRunKeepsInv`).

The test file never sends a handshake where both the version and the
network id differ, so the order of the two checks is left open as a parameter
(`Precedence`), and each property is proved for both orders. The closed-pipe
text is `p2p: read or write on closed message pipe`, as the tests expect it at
swarm/network/protocol_test.go:169 and :187.

## Model

| member | source | states |
|---|---|---|
| BzzHandshake.CorrectBzzHandshake | swarm/network/protocol_test.go:108-110 | the correct handshake is version 0 on network 322 with the given address |
| BzzHandshake.PeerAddrOf | swarm/network/protocol_test.go:79-81 | the node id derived from `NewPeerAddrFromNodeId(id)` is `id` again, so `NodeId(rhs.Addr)` names the simulated peer |
| BzzHandshake.Decide | swarm/network/protocol_test.go:112-145 | the peer is admitted iff version and network id both match; a network id mismatch alone gives `NetworkIdMismatch(incoming, local)`; a version mismatch alone gives `VersionMismatch(incoming, local)`; when both differ the reason is one of the two |
| BzzHandshake.DecideIgnoresOrder | swarm/network/protocol_test.go:112-134 | unless both fields differ, the decision does not depend on which check comes first |
| BzzHandshake.CorrectHandshakesAdmit | swarm/network/protocol_test.go:98-110 | two correct handshakes are always admitted, whatever the addresses and the order |
| BzzHandshake.NetworkIdMismatchText | swarm/network/protocol_test.go:112-122 | local {0,322} against incoming {0,321} is rejected with exactly `network id mismatch 321 (!= 322)` |
| BzzHandshake.VersionMismatchText | swarm/network/protocol_test.go:124-134 | local {0,322} against incoming {1,322} is rejected with exactly `version mismatch 1 (!= 0)` |
| BzzHandshake.ParseReasonOfText | swarm/network/protocol_test.go:120-132 | the mismatch and closed-pipe texts read back to the reason they render: incoming first, local in parentheses |
| BzzHandshake.ReasonTextInjective | swarm/network/protocol_test.go:169-187 | two of those reasons with the same text are the same reason, so comparing error texts compares reasons |
| Codes.EffectiveCodeMap | swarm/network/protocol_test.go:39-41 | a nil code map becomes exactly `BzzCodeMap()`, which carries the handshake on code 0; a given map is kept |
| Codes.BzzCodeMap | swarm/network/protocol_test.go:39-41 | the standard map carries the handshake on code 0 and on no other code |
| PeerPool.Pool.constructor | swarm/network/protocol_test.go:113-113 | a new test peer pool is empty |
| PeerPool.Pool.Add | swarm/network/protocol_test.go:43-43 | the peer is stored under its id, overwriting an earlier entry |
| PeerPool.Pool.Remove | swarm/network/protocol_test.go:45-45 | the id's entry is gone and nothing else changes; removing an absent id changes nothing |
| PeerPool.Pool.Has | swarm/network/protocol_test.go:156-156 | true iff the id has an entry |
| PeerPool.Pool.Get | swarm/network/protocol_test.go:168-168 | the entry for the id, or none |
| Exchange.BzzHandshakeExchange | swarm/network/protocol_test.go:13-35 | two steps: the first has the one expect {0, lhs, id} and no triggers, the second the one trigger {0, rhs, id} and no expects |
| Exchange.PeersToConnect | swarm/network/protocol_test.go:80-88 | the peer of each expected disconnect, in order, when there are any; otherwise the single id `NodeId(rhs.Addr)` |
| Session.Initial | swarm/network/protocol_test.go:58-63 | at the start every simulated peer is connected and has been sent the local handshake, nobody is pooled and no disconnect has happened; the invariant holds |
| Session.AdmissionAddsBeforeServices | swarm/network/protocol_test.go:42-56 | `extraservices` adds the peer and its hook before the services run; the services see the pool with the peer in it; their error is returned, and a nil service gives none |
| Session.AdmissionKeepsInv | swarm/network/protocol_test.go:42-47 | admitting a connected peer keeps pool membership equal to the set of admitted, live sessions |
| Session.RejectionKeepsInv | swarm/network/protocol_test.go:193-203 | marking a connected session rejected keeps the invariant |
| Session.TornDownKeepsInv | swarm/network/protocol_test.go:44-47 | ending a session, with the hook removing an admitted peer, keeps the invariant |
| Session.DeliveredKeepsInv | swarm/network/protocol_test.go:58-61 | the protocol's reaction to any incoming message keeps the invariant |
| Session.ScriptRunKeepsInv | swarm/network/protocol_test.go:89-91 | any script the harness runs keeps pool membership equal to the set of admitted, live sessions |
| Session.RejectedNeverPooled | swarm/network/protocol_test.go:193-203 | a rejected handshake disconnects the peer with the rejection reason, leaves the pool unchanged and the peer out of it |
| Session.AdmittedIsPooled | swarm/network/protocol_test.go:136-159 | an accepted handshake without services pools the peer with its announced address and changes nothing else but its phase and hook |
| Session.DropRemovesPeer | swarm/network/protocol_test.go:161-191 | dropping an admitted peer adds exactly one disconnect, with the closed-pipe reason, and the hook removes exactly that peer from the pool |
| Session.TornDownOnce | swarm/network/protocol_test.go:44-47 | a session ends once: a second teardown adds no disconnect and changes nothing |
| Session.HandshakeExchangeRun | swarm/network/protocol_test.go:13-35 | on a session awaiting the handshake, the script's first step passes iff `lhs` is the handshake the protocol sent, and then `rhs` is delivered to the protocol |
| Session.HandshakeTestRejects | swarm/network/protocol_test.go:79-92 | a mismatched handshake with its expected disconnect passes every stage of `testHandshake` and leaves the peer disconnected and out of the pool |
| Session.HandshakeTestAdmits | swarm/network/protocol_test.go:136-145 | matching handshakes with no expected disconnect pass `testHandshake` and pool the peer |
| Session.HandshakeRunsAdmitAll | swarm/network/protocol_test.go:98-106 | `runHandshakes` over distinct peers that await the handshake passes for each and pools every one of them, keeping earlier entries and observing no disconnect |
| Tester.BzzTester.constructor | swarm/network/protocol_test.go:38-70 | a new tester runs with the standard code map for nil, the correct local handshake, its simulated peers connected, and the given empty pool |
| Tester.BzzTester.ExtraServices | swarm/network/protocol_test.go:42-56 | performs `Admission`: the peer is in the pool and hooked before the services run, and their error is returned |
| Tester.BzzTester.Teardown | swarm/network/protocol_test.go:44-47 | performs `TornDown`: the hook calls `Remove`, and the disconnect is observed once |
| Tester.BzzTester.Deliver | swarm/network/protocol_test.go:58-61 | performs `Delivered`: the protocol decides on a handshake and admits through `extraservices` or disconnects with the reason |
| Tester.BzzTester.TestExchanges | swarm/network/protocol_test.go:90-90 | runs the steps in order and reports the first that fails, as `ScriptRun` |
| Tester.BzzTester.TestDisconnected | swarm/network/protocol_test.go:91-91 | passes iff every expected disconnect was observed with its peer and its exact error text |
| Tester.BzzTester.TestHandshake | swarm/network/protocol_test.go:79-92 | connected, then exchanges, then disconnected, stopping at the first stage that fails, as `HandshakeTest` |
| Tester.BzzTester.RunHandshakes | swarm/network/protocol_test.go:98-106 | the given ids, or all tester ids when none are given, each through a correct handshake test, as `HandshakeRuns` |
| Tester.BzzTester.DropPeer | swarm/network/protocol_test.go:168-168 | the pooled peer's session ends with the closed-pipe reason, as `TornDown` |
| Scenarios.HandshakeNetworkIdMismatch | swarm/network/protocol_test.go:112-122 | the network id mismatch test passes |
| Scenarios.HandshakeVersionMismatch | swarm/network/protocol_test.go:124-134 | the version mismatch test passes |
| Scenarios.HandshakeSuccess | swarm/network/protocol_test.go:136-145 | the success test passes and the peer is in the pool afterwards |
| Scenarios.PeerPoolAdd | swarm/network/protocol_test.go:147-159 | after `runHandshakes`, `pp.Has(id)` holds |
| Scenarios.PeerPoolRemove | swarm/network/protocol_test.go:161-173 | after a drop the closed-pipe disconnect is observed and `pp.Has(id)` is false |
| Scenarios.PeerPoolBothAddRemove | swarm/network/protocol_test.go:175-191 | the peer is pooled after `runHandshakes`, and absent after the drop and its one disconnect |
| Scenarios.PeerPoolNotAdd | swarm/network/protocol_test.go:193-203 | after a network id mismatch the peer is not in the pool |

## Left out

- The protocol's own `Run` (`Bzz(...)`) is not part of this model. The model assumes what the tests need from it: it sends the local handshake on code 0 when a peer connects, decides on the peer's handshake with `Decide`, calls `extraservices` on admission, and ends the session with the reason on rejection.
- BzzHandshake.Decide: the order of the two checks when both fields differ is a parameter (`Precedence`), because the test file never fixes it.
- Session.Admission: the extra services are modelled as a function without effects: they see the peer and the pool's ids and return an error or nothing, but cannot change the pool, drop peers or send messages. The invariant lemmas (`DeliveredKeepsInv`, `ScriptRunKeepsInv`) and the tester's `Valid()` rely on this. Every test in the file passes nil services.
- Tester.BzzTester.Deliver: an error from the extra services is assumed to end the session with that error as the reason (`ServiceFailed`); no test passes services, and the code that handles the error is not part of this model.
- The harness internals (`NewProtocolTester`, `TestConnected`, `TestExchanges`, `TestDisconnected`) are modelled only by their outcome. Timeouts, goroutines and message pipes are left out. `TestConnected` holds when each peer has a session. Within one step, expects are matched before triggers are sent.
- Tester.BzzTester.TestDisconnected: an unexpected extra disconnect is not a failure in the model, because the harness code that would decide it is not part of this model.
- `t.Fatalf` becomes a failing `Outcome`, which stops the driver. Logging (`glog`) is left out.
- `adapters.NodeId`, `NewPeerAddrFromNodeId` and `RandomAddr`: ids are opaque values with equality, an address keeps the id it was derived from, and the random address is a parameter of each scenario.
- General `fmt.Errorf` formatting is left out. Only `%d` of non-negative integers is rendered, enough for the reason texts. Handshake versions and network ids are non-negative integers, since the struct declaration is not part of this model.
- The code map is modelled only as "which code carries the handshake". How `BzzCodeMap` registers its codes is not part of this model.
- The pool's concurrency safety (its locking) is left out; every operation is atomic in the model.
- The commented-out `flushCode` / `flush` code is not modelled.
