/** The bzz handshake: the value each side sends on connecting, the decision
    taken on the peer's handshake, and the disconnect reasons with their exact
    text. */
module BzzHandshake {
  import opened Wrappers
  import opened Decimal

  /** The identity of a simulated node; opaque beyond equality. */
  datatype NodeId = NodeId(key: nat)

  /** An overlay address. The tests derive an address from a node id and the
      node id back from the address, so the model keeps the id it came from. */
  datatype PeerAddr = PeerAddr(node: NodeId)

  /** `NodeId(addr)`: the node id an address was derived from. */
  function NodeIdOf(a: PeerAddr): NodeId {
    a.node
  }

  /** `NewPeerAddrFromNodeId(id)`: an address whose node id is `id`. */
  function PeerAddrOf(id: NodeId): (a: PeerAddr)
    ensures NodeIdOf(a) == id
  {
    PeerAddr(id)
  }

  datatype Handshake = Handshake(version: nat, networkId: nat, addr: PeerAddr)

  const BzzVersion: nat := 0
  const BzzNetworkId: nat := 322

  /** `correctBzzHandshake(addr)`: version 0 on network 322. */
  function CorrectBzzHandshake(addr: PeerAddr): (h: Handshake)
    ensures h.version == 0 && h.networkId == 322 && h.addr == addr
  {
    Handshake(BzzVersion, BzzNetworkId, addr)
  }

  /** Why a session ended. */
  datatype Reason =
    | VersionMismatch(incoming: nat, local: nat)
    | NetworkIdMismatch(incoming: nat, local: nat)
    | ClosedPipe
    | ServiceFailed(text: string)

  const VersionPrefix := "version mismatch "
  const NetworkIdPrefix := "network id mismatch "
  const ClosedPipeText := "p2p: read or write on closed message pipe"

  /** `<incoming> (!= <local>)` */
  function MismatchTail(incoming: nat, local: nat): string {
    FromNat(incoming) + " (!= " + FromNat(local) + ")"
  }

  /** The error text of a disconnect, as the harness compares it. */
  function ReasonText(r: Reason): string {
    match r
    case VersionMismatch(i, l) => VersionPrefix + MismatchTail(i, l)
    case NetworkIdMismatch(i, l) => NetworkIdPrefix + MismatchTail(i, l)
    case ClosedPipe => ClosedPipeText
    case ServiceFailed(t) => t
  }

  /** Reads `<incoming> (!= <local>)` back into the two numbers. */
  function ParseMismatchTail(t: string): Option<(nat, nat)> {
    var k := DigitSpan(t);
    if k == 0 || |t[k..]| < 5 || t[k..][..5] != " (!= " then None
    else
      var u := t[k..][5..];
      var k2 := DigitSpan(u);
      if k2 == 0 || u[k2..] != ")" then None
      else Some((ToNat(t[..k]), ToNat(u[..k2])))
  }

  /** Reads a disconnect text back into the reason it renders, when it has
      one of the fixed shapes. */
  function ParseReason(s: string): Option<Reason> {
    if |s| >= |VersionPrefix| && s[..|VersionPrefix|] == VersionPrefix then
      match ParseMismatchTail(s[|VersionPrefix|..])
      case Some((i, l)) => Some(VersionMismatch(i, l))
      case None => None
    else if |s| >= |NetworkIdPrefix| && s[..|NetworkIdPrefix|] == NetworkIdPrefix then
      match ParseMismatchTail(s[|NetworkIdPrefix|..])
      case Some((i, l)) => Some(NetworkIdMismatch(i, l))
      case None => None
    else if s == ClosedPipeText then Some(ClosedPipe)
    else None
  }

  lemma ParseMismatchTailOfText(i: nat, l: nat)
    ensures ParseMismatchTail(MismatchTail(i, l)) == Some((i, l))
  {
    var a, b := FromNat(i), FromNat(l);
    var t := MismatchTail(i, l);
    var rest := " (!= " + b + ")";
    assert t == a + rest;
    DigitSpanOfDigitsThen(a, rest);
    var k := DigitSpan(t);
    assert t[..k] == a && t[k..] == rest;
    assert rest[..5] == " (!= ";
    var u := rest[5..];
    assert u == b + ")";
    DigitSpanOfDigitsThen(b, ")");
    assert u[..|b|] == b && u[|b|..] == ")";
    ToNatFromNat(i);
    ToNatFromNat(l);
  }

  /** The rendering of the fixed reasons loses nothing: their text determines them. */
  lemma ParseReasonOfText(r: Reason)
    requires !r.ServiceFailed?
    ensures ParseReason(ReasonText(r)) == Some(r)
  {
    var s := ReasonText(r);
    match r
    case VersionMismatch(i, l) =>
      assert s[..|VersionPrefix|] == VersionPrefix;
      assert s[|VersionPrefix|..] == MismatchTail(i, l);
      ParseMismatchTailOfText(i, l);
    case NetworkIdMismatch(i, l) =>
      assert s[0] != VersionPrefix[0];
      assert s[..|NetworkIdPrefix|] == NetworkIdPrefix;
      assert s[|NetworkIdPrefix|..] == MismatchTail(i, l);
      ParseMismatchTailOfText(i, l);
    case ClosedPipe =>
      assert s[0] != VersionPrefix[0] && s[0] != NetworkIdPrefix[0];
  }

  /** Comparing disconnect texts, as the tests do, is comparing reasons. */
  lemma ReasonTextInjective(r1: Reason, r2: Reason)
    requires !r1.ServiceFailed? && !r2.ServiceFailed?
    requires ReasonText(r1) == ReasonText(r2)
    ensures r1 == r2
  {
    ParseReasonOfText(r1);
    ParseReasonOfText(r2);
  }

  /** Which check the protocol implementation makes first. Only a pair whose
      version and network id both differ can tell the two apart. */
  datatype Precedence = VersionFirst | NetworkIdFirst

  datatype Verdict = Admit | Reject(reason: Reason)

  /** The decision on the peer's handshake `incoming`, this node's being `local`. */
  function Decide(local: Handshake, incoming: Handshake, order: Precedence): (v: Verdict)
    ensures v == Admit <==> incoming.version == local.version && incoming.networkId == local.networkId
    ensures incoming.version == local.version && incoming.networkId != local.networkId ==>
              v == Reject(NetworkIdMismatch(incoming.networkId, local.networkId))
    ensures incoming.networkId == local.networkId && incoming.version != local.version ==>
              v == Reject(VersionMismatch(incoming.version, local.version))
    ensures v.Reject? ==>
              (v.reason == VersionMismatch(incoming.version, local.version)
               || v.reason == NetworkIdMismatch(incoming.networkId, local.networkId))
  {
    var versionOk := incoming.version == local.version;
    var networkOk := incoming.networkId == local.networkId;
    if versionOk && networkOk then Admit
    else if !versionOk && (networkOk || order == VersionFirst) then
      Reject(VersionMismatch(incoming.version, local.version))
    else Reject(NetworkIdMismatch(incoming.networkId, local.networkId))
  }

  /** Only when both fields differ does the order of the checks matter. */
  lemma DecideIgnoresOrder(local: Handshake, incoming: Handshake)
    requires incoming.version == local.version || incoming.networkId == local.networkId
    ensures Decide(local, incoming, VersionFirst) == Decide(local, incoming, NetworkIdFirst)
  {
  }

  /** Two correct handshakes always agree, whatever the addresses. */
  lemma CorrectHandshakesAdmit(a: PeerAddr, b: PeerAddr, order: Precedence)
    ensures Decide(CorrectBzzHandshake(a), CorrectBzzHandshake(b), order) == Admit
  {
  }

  /** Local {0, 322} against incoming {0, 321}. */
  lemma NetworkIdMismatchText(a: PeerAddr, b: PeerAddr, order: Precedence)
    ensures Decide(CorrectBzzHandshake(a), Handshake(0, 321, b), order) == Reject(NetworkIdMismatch(321, 322))
    ensures ReasonText(NetworkIdMismatch(321, 322)) == "network id mismatch 321 (!= 322)"
  {
  }

  /** Local {0, 322} against incoming {1, 322}. */
  lemma VersionMismatchText(a: PeerAddr, b: PeerAddr, order: Precedence)
    ensures Decide(CorrectBzzHandshake(a), Handshake(1, 322, b), order) == Reject(VersionMismatch(1, 0))
    ensures ReasonText(VersionMismatch(1, 0)) == "version mismatch 1 (!= 0)"
  {
  }
}
