/** The message-code map, reduced to what the handshake needs: which code
    carries the handshake. */
module Codes {
  import opened Wrappers

  datatype MsgType = HandshakeMsg | OtherMsg(name: string)

  type CodeMap = map<nat, MsgType>

  /** The well-known code of the handshake. */
  const HandshakeCode: nat := 0

  predicate CarriesHandshakeAt(ct: CodeMap, code: nat) {
    code in ct && ct[code] == HandshakeMsg
  }

  /** `BzzCodeMap()`: the standard map, with the handshake on code 0. */
  function BzzCodeMap(): (ct: CodeMap)
    ensures CarriesHandshakeAt(ct, HandshakeCode)
    ensures forall code :: CarriesHandshakeAt(ct, code) ==> code == HandshakeCode
  {
    map[HandshakeCode := HandshakeMsg]
  }

  /** The code map a tester runs with: the one given, or the standard one for nil. */
  function EffectiveCodeMap(ct: Option<CodeMap>): (r: CodeMap)
    ensures ct.None? ==> r == BzzCodeMap() && CarriesHandshakeAt(r, HandshakeCode)
    ensures ct.Some? ==> r == ct.value
  {
    if ct.None? then BzzCodeMap() else ct.value
  }
}
