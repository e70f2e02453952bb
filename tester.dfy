/** The bzz tester: a protocol tester running the bzz protocol against
    simulated peers, wired to a peer pool. Its fields are the sessions of
    module Session, updated in place; `State()` reads them as a World, and
    every method performs the transition Session defines. */
module Tester {
  import opened Wrappers
  import opened BzzHandshake
  import opened Codes
  import opened PeerPool
  import opened Exchange
  import opened Session

  class BzzTester {
    const addr: PeerAddr
    const cfg: Config
    const ids: seq<NodeId>
    const pool: Pool
    var phase: map<NodeId, Phase>
    var hooked: set<NodeId>
    var outbox: map<NodeId, seq<Msg>>
    var log: seq<Disconnect>

    function State(): World
      reads this, pool
    {
      World(phase, hooked, outbox, log, pool.peers)
    }

    ghost predicate Valid()
      reads this, pool
    {
      Inv(State()) && cfg.local == CorrectBzzHandshake(addr)
    }

    /** `newBzzTester(t, addr, pp, ct, services)`: a nil code map means the
        standard one; each simulated peer in `ids` connects and is sent this
        node's correct handshake. `order` is the precedence of the protocol's
        two checks. */
    constructor (addr: PeerAddr, pp: Pool, ct: Option<CodeMap>, services: Services, order: Precedence, ids: seq<NodeId>)
      requires pp.peers == map[]
      ensures Valid()
      ensures this.addr == addr && pool == pp && this.ids == ids
      ensures cfg == Config(CorrectBzzHandshake(addr), EffectiveCodeMap(ct), order, services)
      ensures State() == Initial(cfg.local, ids)
    {
      var codes := ct;
      if codes.None? {
        codes := Some(BzzCodeMap());
      }
      this.addr := addr;
      this.pool := pp;
      this.ids := ids;
      cfg := Config(CorrectBzzHandshake(addr), codes.value, order, services);
      phase := map id | id in ids :: Connected;
      hooked := {};
      outbox := map id | id in ids :: [Msg(HandshakeCode, CorrectBzzHandshake(addr))];
      log := [];
    }

    /** `extraservices(p)`: `pp.Add(p)`, then the disconnect hook, then the
        services, whose error is returned. */
    method ExtraServices(p: Peer) returns (err: Option<string>)
      requires Valid() && p.id in phase && phase[p.id] == Connected
      modifies this, pool
      ensures Valid()
      ensures (State(), err) == Admission(cfg, old(State()), p)
      ensures p.id in pool.peers
    {
      AdmissionKeepsInv(cfg, State(), p);
      pool.Add(p);
      phase := phase[p.id := Admitted];
      hooked := hooked + {p.id};
      if cfg.services.Some? {
        err := cfg.services.value(p, pool.peers.Keys);
      } else {
        err := None;
      }
    }

    /** The session of `id` ends with `reason`; the installed hook calls
        `pp.Remove`. */
    method Teardown(id: NodeId, reason: Reason)
      requires Valid() && id in phase
      modifies this, pool
      ensures Valid()
      ensures State() == TornDown(old(State()), id, reason)
    {
      TornDownKeepsInv(State(), id, reason);
      if phase[id] != Disconnected {
        if id in hooked {
          pool.Remove(id);
          hooked := hooked - {id};
        }
        phase := phase[id := Disconnected];
        log := log + [Disconnect(id, reason)];
      }
    }

    /** The protocol under test receives a triggered message. */
    method Deliver(t: Trigger) returns (ok: bool)
      requires Valid()
      modifies this, pool
      ensures Valid()
      ensures Step(State(), ok) == Delivered(cfg, old(State()), t)
    {
      if t.peer !in phase || phase[t.peer] == Disconnected {
        return false;
      }
      ok := true;
      if phase[t.peer] == Connected && CarriesHandshakeAt(cfg.codeMap, t.code) {
        var v := Decide(cfg.local, t.msg, cfg.order);
        match v
        case Admit =>
          var err := ExtraServices(Peer(t.peer, t.msg.addr));
          if err.Some? {
            Teardown(t.peer, ServiceFailed(err.value));
          }
        case Reject(r) =>
          RejectionKeepsInv(State(), t.peer);
          phase := phase[t.peer := Rejected];
          Teardown(t.peer, r);
      }
    }

    /** The harness matches an expected message. */
    method Consume(e: Expect) returns (ok: bool)
      requires Valid()
      modifies this
      ensures Valid()
      ensures Step(State(), ok) == Consumed(old(State()), e)
    {
      ok := e.peer in outbox && |outbox[e.peer]| > 0 && outbox[e.peer][0] == Msg(e.code, e.msg);
      if ok {
        outbox := outbox[e.peer := outbox[e.peer][1..]];
      }
    }

    method RunExpects(es: seq<Expect>) returns (ok: bool)
      requires Valid()
      modifies this
      ensures Valid()
      ensures Step(State(), ok) == ExpectsRun(old(State()), es)
    {
      var i := 0;
      while i < |es|
        invariant 0 <= i <= |es|
        invariant Valid()
        invariant ExpectsRun(old(State()), es) == ExpectsRun(State(), es[i..])
      {
        assert es[i..][1..] == es[i + 1..];
        ok := Consume(es[i]);
        if !ok {
          return;
        }
        i := i + 1;
      }
      ok := true;
    }

    method RunTriggers(ts: seq<Trigger>) returns (ok: bool)
      requires Valid()
      modifies this, pool
      ensures Valid()
      ensures Step(State(), ok) == TriggersRun(cfg, old(State()), ts)
    {
      var i := 0;
      while i < |ts|
        invariant 0 <= i <= |ts|
        invariant Valid()
        invariant TriggersRun(cfg, old(State()), ts) == TriggersRun(cfg, State(), ts[i..])
      {
        assert ts[i..][1..] == ts[i + 1..];
        ok := Deliver(ts[i]);
        if !ok {
          return;
        }
        i := i + 1;
      }
      ok := true;
    }

    /** `TestExchanges(script...)`: the steps in order; the index of the step
        that failed, if one did. */
    method TestExchanges(script: seq<Exchange>) returns (failed: Option<nat>)
      requires Valid()
      modifies this, pool
      ensures Valid()
      ensures ScriptRun(cfg, old(State()), script, 0)
                == if failed.None? then Completed(State()) else Stopped(State(), failed.value)
    {
      var i := 0;
      while i < |script|
        invariant 0 <= i <= |script|
        invariant Valid()
        invariant ScriptRun(cfg, old(State()), script, 0) == ScriptRun(cfg, State(), script[i..], i)
      {
        assert script[i..][1..] == script[i + 1..];
        var ok := RunExpects(script[i].expects);
        if ok {
          ok := RunTriggers(script[i].triggers);
        }
        if !ok {
          return Some(i);
        }
        i := i + 1;
      }
      return None;
    }

    /** `TestDisconnected(ds...)`: every expected disconnect was observed,
        with its exact error text. */
    method TestDisconnected(ds: seq<ExpectedDisconnect>) returns (ok: bool)
      ensures ok <==> AllObserved(log, ds)
    {
      ok := true;
      var k := 0;
      while k < |ds|
        invariant 0 <= k <= |ds|
        invariant ok <==> AllObserved(log, ds[..k])
      {
        var seen := false;
        var i := 0;
        while i < |log|
          invariant 0 <= i <= |log|
          invariant seen <==> Observed(log[..i], ds[k])
        {
          assert log[..i + 1][..i] == log[..i];
          if log[i].peer == ds[k].peer && ReasonText(log[i].reason) == ds[k].error {
            seen := true;
          }
          i := i + 1;
        }
        assert log[..i] == log;
        assert ds[..k + 1] == ds[..k] + [ds[k]];
        ok := ok && seen;
        k := k + 1;
      }
      assert ds[..k] == ds;
    }

    /** `testHandshake(lhs, rhs, ds...)`: waits for the peers to connect, runs
        `bzzHandshakeExchange(lhs, rhs, NodeId(rhs.Addr))`, then checks the
        expected disconnects. */
    method TestHandshake(lhs: Handshake, rhs: Handshake, ds: seq<ExpectedDisconnect>) returns (outcome: Outcome)
      requires Valid()
      modifies this, pool
      ensures Valid()
      ensures (State(), outcome) == HandshakeTest(cfg, old(State()), lhs, rhs, ds)
    {
      var peers := PeersToConnect(rhs, ds);
      var connected := forall p :: p in peers ==> p in phase;
      if !connected {
        return NotConnected;
      }
      var id := NodeIdOf(rhs.addr);
      var failed := TestExchanges(BzzHandshakeExchange(lhs, rhs, id));
      if failed.Some? {
        return ExchangeFailed(failed.value);
      }
      var ok := TestDisconnected(ds);
      outcome := if ok then Pass else NotDisconnected;
    }

    /** `runHandshakes(given...)`: with no ids, all of the tester's; a correct
        handshake test on each, stopping at the first failure. */
    method RunHandshakes(given: seq<NodeId>) returns (outcome: Outcome)
      requires Valid()
      modifies this, pool
      ensures Valid()
      ensures (State(), outcome) == HandshakeRuns(cfg, addr, old(State()), DefaultIds(given, ids))
    {
      var todo := given;
      if |todo| == 0 {
        todo := ids;
      }
      outcome := Pass;
      var i := 0;
      while i < |todo|
        invariant 0 <= i <= |todo|
        invariant Valid() && outcome == Pass
        invariant HandshakeRuns(cfg, addr, old(State()), todo) == HandshakeRuns(cfg, addr, State(), todo[i..])
      {
        assert todo[i..][1..] == todo[i + 1..];
        outcome := TestHandshake(CorrectBzzHandshake(addr), CorrectBzzHandshake(PeerAddrOf(todo[i])), []);
        if outcome != Pass {
          return;
        }
        i := i + 1;
      }
    }

    /** `pp.Get(id).Drop(nil)`: the transport closes the peer's session. */
    method DropPeer(id: NodeId)
      requires Valid() && id in pool.peers
      modifies this, pool
      ensures Valid()
      ensures State() == TornDown(old(State()), id, ClosedPipe)
    {
      var p := pool.Get(id);
      Teardown(p.value.id, ClosedPipe);
    }
  }
}
