/** The sessions of a bzz tester as a value: each simulated peer's phase, the
    disconnect hooks installed, the messages the protocol under test has sent
    and not yet been matched, the disconnects observed, and the peer pool.
    Every transition of the tester is a function here; the tester class
    (module Tester) performs the same transitions in place. */
module Session {
  import opened Wrappers
  import opened BzzHandshake
  import opened Codes
  import opened PeerPool
  import opened Exchange

  /** Connected -> Admitted | Rejected -> Disconnected */
  datatype Phase = Connected | Admitted | Rejected | Disconnected

  datatype Msg = Msg(code: nat, hs: Handshake)

  /** A disconnect as observed: the peer and the reason its session ended. */
  datatype Disconnect = Disconnect(peer: NodeId, reason: Reason)

  /** The optional extra services run on an admitted peer; they see the peer
      and the node ids in the pool at the time they run, and return an error
      or nothing. */
  type Services = Option<(Peer, set<NodeId>) -> Option<string>>

  /** What `newBzzTester` wires into the protocol under test. */
  datatype Config = Config(local: Handshake, codeMap: CodeMap, order: Precedence, services: Services)

  datatype World = World(
    phase: map<NodeId, Phase>,
    hooked: set<NodeId>,
    outbox: map<NodeId, seq<Msg>>,
    log: seq<Disconnect>,
    pool: map<NodeId, Peer>)

  /** The world after an action, and whether the harness accepted it. */
  datatype Step = Step(world: World, ok: bool)

  datatype ScriptResult = Completed(world: World) | Stopped(world: World, step: nat)

  /** How a handshake test ends: it passes, or fails at one of its three stages. */
  datatype Outcome = Pass | NotConnected | ExchangeFailed(step: nat) | NotDisconnected

  function AdmittedIds(phase: map<NodeId, Phase>): set<NodeId> {
    set id | id in phase && phase[id] == Admitted
  }

  /** A peer is in the pool, and has its disconnect hook installed, exactly
      when its session was admitted and has not yet disconnected; every
      observed disconnect belongs to a disconnected session, and no session
      disconnects twice. */
  ghost predicate Inv(w: World) {
    && w.pool.Keys == AdmittedIds(w.phase)
    && w.hooked == AdmittedIds(w.phase)
    && (forall id :: id in w.pool ==> w.pool[id].id == id)
    && w.outbox.Keys == w.phase.Keys
    && (forall i :: 0 <= i < |w.log| ==> w.log[i].peer in w.phase && w.phase[w.log[i].peer] == Disconnected)
    && (forall i, j :: 0 <= i < j < |w.log| ==> w.log[i].peer != w.log[j].peer)
  }

  /** Every simulated peer has connected and the protocol under test has sent
      it the local handshake on the handshake code. */
  function Initial(local: Handshake, ids: seq<NodeId>): (w: World)
    ensures Inv(w)
    ensures w.phase.Keys == set id | id in ids
    ensures forall id :: id in ids ==> w.phase[id] == Connected && w.outbox[id] == [Msg(HandshakeCode, local)]
    ensures w.pool == map[] && w.log == []
  {
    var w := World(map id | id in ids :: Connected, {}, map id | id in ids :: [Msg(HandshakeCode, local)], [], map[]);
    assert AdmittedIds(w.phase) == {};
    w
  }

  /** The session of `id` awaits the peer's handshake, the local one sent. */
  ghost predicate Ready(cfg: Config, w: World, id: NodeId) {
    && id in w.phase && w.phase[id] == Connected
    && id in w.outbox && w.outbox[id] == [Msg(HandshakeCode, cfg.local)]
  }

  function RunServices(services: Services, p: Peer, members: set<NodeId>): Option<string> {
    if services.None? then None else services.value(p, members)
  }

  /** `extraservices(p)`: add the peer to the pool, install the disconnect
      hook, then run the extra services and return their error. */
  function Admission(cfg: Config, w: World, p: Peer): (World, Option<string>)
    requires p.id in w.phase
  {
    var w' := w.(phase := w.phase[p.id := Admitted], pool := w.pool[p.id := p], hooked := w.hooked + {p.id});
    (w', RunServices(cfg.services, p, w'.pool.Keys))
  }

  /** The session of `id` ends with `reason`: the hook, when installed, fires
      and removes the peer from the pool, and the disconnect is observed. A
      session that already ended stays as it is. */
  function TornDown(w: World, id: NodeId, reason: Reason): World
    requires id in w.phase
  {
    if w.phase[id] == Disconnected then w
    else
      var pool := if id in w.hooked then w.pool - {id} else w.pool;
      w.(phase := w.phase[id := Disconnected], hooked := w.hooked - {id}, pool := pool,
         log := w.log + [Disconnect(id, reason)])
  }

  /** The protocol under test receives `t.msg` from `t.peer`. A handshake on a
      session awaiting one is decided: an admitted peer goes through
      `extraservices`, whose error ends the session; a rejected peer is
      disconnected with the reason. Other messages are not acted upon. A
      trigger to a peer with no live session fails. */
  function Delivered(cfg: Config, w: World, t: Trigger): Step {
    if t.peer !in w.phase || w.phase[t.peer] == Disconnected then Step(w, false)
    else if w.phase[t.peer] != Connected || !CarriesHandshakeAt(cfg.codeMap, t.code) then Step(w, true)
    else
      match Decide(cfg.local, t.msg, cfg.order)
      case Admit =>
        var (w1, err) := Admission(cfg, w, Peer(t.peer, t.msg.addr));
        if err.Some? then Step(TornDown(w1, t.peer, ServiceFailed(err.value)), true) else Step(w1, true)
      case Reject(r) =>
        Step(TornDown(w.(phase := w.phase[t.peer := Rejected]), t.peer, r), true)
  }

  /** The harness takes the next message the protocol under test sent to
      `e.peer` and checks it is `e`. */
  function Consumed(w: World, e: Expect): Step {
    if e.peer in w.outbox && |w.outbox[e.peer]| > 0 && w.outbox[e.peer][0] == Msg(e.code, e.msg) then
      Step(w.(outbox := w.outbox[e.peer := w.outbox[e.peer][1..]]), true)
    else Step(w, false)
  }

  function ExpectsRun(w: World, es: seq<Expect>): Step
    decreases |es|
  {
    if es == [] then Step(w, true)
    else
      var s := Consumed(w, es[0]);
      if !s.ok then s else ExpectsRun(s.world, es[1..])
  }

  function TriggersRun(cfg: Config, w: World, ts: seq<Trigger>): Step
    decreases |ts|
  {
    if ts == [] then Step(w, true)
    else
      var s := Delivered(cfg, w, ts[0]);
      if !s.ok then s else TriggersRun(cfg, s.world, ts[1..])
  }

  /** One exchange: its expects, then its triggers. */
  function StepRun(cfg: Config, w: World, x: Exchange): Step {
    var s := ExpectsRun(w, x.expects);
    if !s.ok then s else TriggersRun(cfg, s.world, x.triggers)
  }

  /** The steps of a script in order, stopping at the first that fails;
      `from` numbers the first step. */
  function ScriptRun(cfg: Config, w: World, script: seq<Exchange>, from: nat): ScriptResult
    decreases |script|
  {
    if script == [] then Completed(w)
    else
      var s := StepRun(cfg, w, script[0]);
      if !s.ok then Stopped(s.world, from) else ScriptRun(cfg, s.world, script[1..], from + 1)
  }

  predicate AllConnected(w: World, peers: seq<NodeId>) {
    forall p :: p in peers ==> p in w.phase
  }

  /** The disconnect `d` was observed, with exactly its error text. */
  predicate Observed(log: seq<Disconnect>, d: ExpectedDisconnect) {
    exists i :: 0 <= i < |log| && log[i].peer == d.peer && ReasonText(log[i].reason) == d.error
  }

  predicate AllObserved(log: seq<Disconnect>, ds: seq<ExpectedDisconnect>) {
    forall d :: d in ds ==> Observed(log, d)
  }

  /** `testHandshake(lhs, rhs, ds...)`: connected, then the exchanges, then
      the disconnects, stopping at the first stage that fails. */
  function HandshakeTest(cfg: Config, w: World, lhs: Handshake, rhs: Handshake, ds: seq<ExpectedDisconnect>): (World, Outcome) {
    if !AllConnected(w, ConnectList(rhs, ds)) then (w, NotConnected)
    else
      match ScriptRun(cfg, w, BzzHandshakeExchange(lhs, rhs, NodeIdOf(rhs.addr)), 0)
      case Stopped(w1, i) => (w1, ExchangeFailed(i))
      case Completed(w1) => (w1, if AllObserved(w1.log, ds) then Pass else NotDisconnected)
  }

  /** The ids `runHandshakes` goes through: those given, or all of the tester's. */
  function DefaultIds(given: seq<NodeId>, all: seq<NodeId>): seq<NodeId> {
    if |given| == 0 then all else given
  }

  /** `runHandshakes`: a correct handshake test with each id in turn, stopping
      at the first that fails. */
  function HandshakeRuns(cfg: Config, addr: PeerAddr, w: World, ids: seq<NodeId>): (World, Outcome)
    decreases |ids|
  {
    if ids == [] then (w, Pass)
    else
      var (w1, o) := HandshakeTest(cfg, w, CorrectBzzHandshake(addr), CorrectBzzHandshake(PeerAddrOf(ids[0])), []);
      if o != Pass then (w1, o) else HandshakeRuns(cfg, addr, w1, ids[1..])
  }

  // ---------------------------------------------------------------------
  // The invariant is kept by every transition.

  lemma AdmissionKeepsInv(cfg: Config, w: World, p: Peer)
    requires Inv(w) && p.id in w.phase && w.phase[p.id] == Connected
    ensures Inv(Admission(cfg, w, p).0)
  {
    var w' := Admission(cfg, w, p).0;
    assert AdmittedIds(w'.phase) == AdmittedIds(w.phase) + {p.id};
  }

  lemma RejectionKeepsInv(w: World, id: NodeId)
    requires Inv(w) && id in w.phase && w.phase[id] == Connected
    ensures Inv(w.(phase := w.phase[id := Rejected]))
  {
    assert AdmittedIds(w.phase[id := Rejected]) == AdmittedIds(w.phase);
  }

  lemma TornDownKeepsInv(w: World, id: NodeId, reason: Reason)
    requires Inv(w) && id in w.phase
    ensures Inv(TornDown(w, id, reason))
  {
    if w.phase[id] != Disconnected {
      var w' := TornDown(w, id, reason);
      assert AdmittedIds(w'.phase) == AdmittedIds(w.phase) - {id};
      forall i | 0 <= i < |w.log| ensures w.log[i].peer != id {
      }
    }
  }

  lemma DeliveredKeepsInv(cfg: Config, w: World, t: Trigger)
    requires Inv(w)
    ensures Inv(Delivered(cfg, w, t).world)
  {
    if t.peer in w.phase && w.phase[t.peer] == Connected && CarriesHandshakeAt(cfg.codeMap, t.code) {
      match Decide(cfg.local, t.msg, cfg.order)
      case Admit =>
        var (w1, err) := Admission(cfg, w, Peer(t.peer, t.msg.addr));
        AdmissionKeepsInv(cfg, w, Peer(t.peer, t.msg.addr));
        if err.Some? { TornDownKeepsInv(w1, t.peer, ServiceFailed(err.value)); }
      case Reject(r) =>
        RejectionKeepsInv(w, t.peer);
        TornDownKeepsInv(w.(phase := w.phase[t.peer := Rejected]), t.peer, r);
    }
  }

  lemma {:induction false} ExpectsRunKeepsInv(w: World, es: seq<Expect>)
    requires Inv(w)
    ensures Inv(ExpectsRun(w, es).world)
    decreases |es|
  {
    if es != [] {
      var s := Consumed(w, es[0]);
      if s.ok { ExpectsRunKeepsInv(s.world, es[1..]); }
    }
  }

  lemma {:induction false} TriggersRunKeepsInv(cfg: Config, w: World, ts: seq<Trigger>)
    requires Inv(w)
    ensures Inv(TriggersRun(cfg, w, ts).world)
    decreases |ts|
  {
    if ts != [] {
      DeliveredKeepsInv(cfg, w, ts[0]);
      var s := Delivered(cfg, w, ts[0]);
      if s.ok { TriggersRunKeepsInv(cfg, s.world, ts[1..]); }
    }
  }

  /** Whatever script the harness runs, pool membership stays exactly the
      set of admitted, still connected sessions. */
  lemma {:induction false} ScriptRunKeepsInv(cfg: Config, w: World, script: seq<Exchange>, from: nat)
    requires Inv(w)
    ensures Inv(ScriptRun(cfg, w, script, from).world)
    decreases |script|
  {
    if script != [] {
      ExpectsRunKeepsInv(w, script[0].expects);
      TriggersRunKeepsInv(cfg, ExpectsRun(w, script[0].expects).world, script[0].triggers);
      var s := StepRun(cfg, w, script[0]);
      if s.ok { ScriptRunKeepsInv(cfg, s.world, script[1..], from + 1); }
    }
  }

  // ---------------------------------------------------------------------
  // Admission, rejection and drop.

  /** `extraservices` adds the peer before the services run: they see it in
      the pool beside every earlier member; their error is returned as it is,
      and without services there is none. */
  lemma AdmissionAddsBeforeServices(cfg: Config, w: World, p: Peer)
    requires p.id in w.phase
    ensures var (w', err) := Admission(cfg, w, p);
      && w'.pool == w.pool[p.id := p] && p.id in w'.hooked
      && (cfg.services.None? ==> err.None?)
      && (cfg.services.Some? ==> err == cfg.services.value(p, w.pool.Keys + {p.id}))
  {
    assert w.pool[p.id := p].Keys == w.pool.Keys + {p.id};
  }

  /** A rejected handshake disconnects the peer with the reason and never
      adds it to the pool. */
  lemma RejectedNeverPooled(cfg: Config, w: World, t: Trigger, r: Reason)
    requires Inv(w) && t.peer in w.phase && w.phase[t.peer] == Connected
    requires CarriesHandshakeAt(cfg.codeMap, t.code)
    requires Decide(cfg.local, t.msg, cfg.order) == Reject(r)
    ensures Delivered(cfg, w, t).ok
    ensures var w' := Delivered(cfg, w, t).world;
      && t.peer !in w'.pool && w'.pool == w.pool
      && w'.phase == w.phase[t.peer := Disconnected]
      && w'.log == w.log + [Disconnect(t.peer, r)]
      && w'.outbox == w.outbox
  {
    assert t.peer !in w.hooked;
  }

  /** An accepted handshake, with no extra services, adds the peer with the
      address it announced; nothing else changes but its phase and hook. */
  lemma AdmittedIsPooled(cfg: Config, w: World, t: Trigger)
    requires Inv(w) && t.peer in w.phase && w.phase[t.peer] == Connected
    requires CarriesHandshakeAt(cfg.codeMap, t.code) && cfg.services.None?
    requires Decide(cfg.local, t.msg, cfg.order) == Admit
    ensures Delivered(cfg, w, t) == Step(w.(phase := w.phase[t.peer := Admitted],
                                            hooked := w.hooked + {t.peer},
                                            pool := w.pool[t.peer := Peer(t.peer, t.msg.addr)]), true)
  {
  }

  /** Dropping an admitted peer: exactly one disconnect, with the closed-pipe
      reason, and the hook removes the peer from the pool. */
  lemma DropRemovesPeer(w: World, id: NodeId)
    requires Inv(w) && id in w.pool
    ensures id in w.phase
    ensures var w' := TornDown(w, id, ClosedPipe);
      && w'.pool == w.pool - {id} && id !in w'.pool
      && w'.log == w.log + [Disconnect(id, ClosedPipe)]
      && (forall i :: 0 <= i < |w.log| ==> w.log[i].peer != id)
  {
    assert id in AdmittedIds(w.phase);
    forall i | 0 <= i < |w.log| ensures w.log[i].peer != id {
    }
  }

  /** A session ends once: tearing it down again changes nothing and adds no
      second disconnect. */
  lemma TornDownOnce(w: World, id: NodeId, r1: Reason, r2: Reason)
    requires id in w.phase
    ensures TornDown(TornDown(w, id, r1), id, r2) == TornDown(w, id, r1)
  {
  }

  // ---------------------------------------------------------------------
  // The handshake test.

  /** Running `bzzHandshakeExchange(lhs, rhs, id)` on a session that awaits
      the handshake: it passes its first step exactly when `lhs` is the
      handshake the protocol under test sent, and then delivers `rhs`. */
  lemma HandshakeExchangeRun(cfg: Config, w: World, lhs: Handshake, rhs: Handshake, id: NodeId)
    requires Ready(cfg, w, id)
    ensures var popped := w.(outbox := w.outbox[id := []]);
      ScriptRun(cfg, w, BzzHandshakeExchange(lhs, rhs, id), 0)
        == if lhs == cfg.local then Completed(Delivered(cfg, popped, Trigger(0, rhs, id)).world)
           else Stopped(w, 0)
  {
    var script := BzzHandshakeExchange(lhs, rhs, id);
    var popped := w.(outbox := w.outbox[id := []]);
    if lhs == cfg.local {
      assert w.outbox[id][1..] == [];
      assert Consumed(w, Expect(0, lhs, id)) == Step(popped, true);
      assert ExpectsRun(popped, script[0].expects[1..]) == Step(popped, true);
      assert ExpectsRun(w, script[0].expects) == Step(popped, true);
      assert StepRun(cfg, w, script[0]) == Step(popped, true);
      var s := Delivered(cfg, popped, Trigger(0, rhs, id));
      assert s.ok;
      assert TriggersRun(cfg, s.world, script[1].triggers[1..]) == Step(s.world, true);
      assert TriggersRun(cfg, popped, script[1].triggers) == s;
      assert StepRun(cfg, popped, script[1]) == s;
      assert script[1..][0] == script[1] && script[1..][1..] == [];
      assert ScriptRun(cfg, popped, script[1..], 1) == Completed(s.world);
    } else {
      assert StepRun(cfg, w, script[0]) == Step(w, false);
    }
  }

  /** A mismatched handshake with its expected disconnect passes the test and
      leaves the peer out of the pool. */
  lemma HandshakeTestRejects(cfg: Config, w: World, rhs: Handshake, r: Reason)
    requires Inv(w) && Ready(cfg, w, NodeIdOf(rhs.addr))
    requires CarriesHandshakeAt(cfg.codeMap, 0)
    requires Decide(cfg.local, rhs, cfg.order) == Reject(r)
    ensures var id := NodeIdOf(rhs.addr);
      var (w', o) := HandshakeTest(cfg, w, cfg.local, rhs, [ExpectedDisconnect(id, ReasonText(r))]);
      o == Pass && id !in w'.pool && id in w'.phase && w'.phase[id] == Disconnected && Inv(w')
  {
    var id := NodeIdOf(rhs.addr);
    var ds := [ExpectedDisconnect(id, ReasonText(r))];
    assert ConnectList(rhs, ds) == [id];
    HandshakeExchangeRun(cfg, w, cfg.local, rhs, id);
    var popped := w.(outbox := w.outbox[id := []]);
    RejectedNeverPooled(cfg, popped, Trigger(0, rhs, id), r);
    var w' := Delivered(cfg, popped, Trigger(0, rhs, id)).world;
    assert w'.log[|w.log|] == Disconnect(id, r);
    assert Observed(w'.log, ds[0]);
    DeliveredKeepsInv(cfg, popped, Trigger(0, rhs, id));
  }

  /** A matching handshake passes the test, with no disconnect expected, and
      puts the peer in the pool. */
  lemma HandshakeTestAdmits(cfg: Config, w: World, rhs: Handshake)
    requires Inv(w) && Ready(cfg, w, NodeIdOf(rhs.addr))
    requires CarriesHandshakeAt(cfg.codeMap, 0) && cfg.services.None?
    requires Decide(cfg.local, rhs, cfg.order) == Admit
    ensures var id := NodeIdOf(rhs.addr);
      HandshakeTest(cfg, w, cfg.local, rhs, [])
        == (w.(phase := w.phase[id := Admitted], hooked := w.hooked + {id},
               outbox := w.outbox[id := []], pool := w.pool[id := Peer(id, rhs.addr)]), Pass)
  {
    var id := NodeIdOf(rhs.addr);
    assert ConnectList(rhs, []) == [id];
    HandshakeExchangeRun(cfg, w, cfg.local, rhs, id);
    var popped := w.(outbox := w.outbox[id := []]);
    AdmittedIsPooled(cfg, popped, Trigger(0, rhs, id));
  }

  /** `runHandshakes` over distinct peers that all await the handshake, with
      this node's handshake the correct one: every test passes and every peer
      ends up in the pool. */
  lemma {:induction false} HandshakeRunsAdmitAll(cfg: Config, addr: PeerAddr, w: World, ids: seq<NodeId>)
    requires Inv(w)
    requires cfg.local == CorrectBzzHandshake(addr)
    requires CarriesHandshakeAt(cfg.codeMap, 0) && cfg.services.None?
    requires forall i, j :: 0 <= i < j < |ids| ==> ids[i] != ids[j]
    requires forall id :: id in ids ==> Ready(cfg, w, id)
    ensures var (w', o) := HandshakeRuns(cfg, addr, w, ids);
      o == Pass && Inv(w') && w'.log == w.log
      && (forall id :: id in ids ==> id in w'.pool && w'.pool[id] == Peer(id, PeerAddrOf(id)))
      && (forall id :: id in w.pool ==> id in w'.pool && w'.pool[id] == w.pool[id])
    decreases |ids|
  {
    if ids != [] {
      var id := ids[0];
      var rhs := CorrectBzzHandshake(PeerAddrOf(id));
      CorrectHandshakesAdmit(addr, PeerAddrOf(id), cfg.order);
      HandshakeTestAdmits(cfg, w, rhs);
      var w1 := HandshakeTest(cfg, w, cfg.local, rhs, []).0;
      AdmissionKeepsInv(cfg, w, Peer(id, rhs.addr));
      assert Inv(w1);
      forall x | x in ids[1..] ensures Ready(cfg, w1, x) {
        assert x in ids && x != id;
      }
      HandshakeRunsAdmitAll(cfg, addr, w1, ids[1..]);
    }
  }
}
