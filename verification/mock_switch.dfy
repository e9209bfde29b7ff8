/** The simulated switch of the test environment (`MockSwitch` in
    `test/test_environment.py`): an ordered list of flows whose matches are
    partial dictionaries, a first-match lookup, and packet and byte
    counters.

    A flow's match is a `dict` from field names to addresses and its actions
    a list of `dict`s from action keys to port numbers; both keep the
    dictionary shape so that the keys the lookup does not know about, and
    the malformed action lists it trips over, can be stated.
 */
module MockNetwork {
  import opened Outcomes
  import opened Text

  /** The only match fields the lookup consults. */
  const SrcMacKey: string := "src_mac"
  const DstMacKey: string := "dst_mac"
  /** The action field the lookup reads. */
  const PortKey: string := "port"
  /** Returned when no flow matches: the caller should flood. */
  const FloodPort: int := -1

  datatype Flow = Flow(pattern: map<string, string>, actions: seq<map<string, int>>, timestamp: real)

  datatype MockSwitch = MockSwitch(
    name: string,
    ports: map<string, int>,
    flows: seq<Flow>,
    packetsProcessed: nat,
    bytesProcessed: nat)

  /** A switch after a call that may have raised, and what the call returned. */
  datatype Processed = Processed(sw: MockSwitch, result: Result<int>)

  function NewMockSwitch(name: string): (sw: MockSwitch)
    ensures sw.name == name && sw.ports == map[] && sw.flows == []
    ensures sw.packetsProcessed == 0 && sw.bytesProcessed == 0
  {
    MockSwitch(name, map[], [], 0, 0)
  }

  /** `add_port`: record a MAC-to-port binding. */
  function AddPort(sw: MockSwitch, mac: string, port: int): (r: MockSwitch)
    ensures r.ports.Keys == sw.ports.Keys + {mac} && r.ports[mac] == port
    ensures forall m :: m in sw.ports && m != mac ==> r.ports[m] == sw.ports[m]
    ensures r.flows == sw.flows && r.packetsProcessed == sw.packetsProcessed && r.bytesProcessed == sw.bytesProcessed
  {
    sw.(ports := sw.ports[mac := port])
  }

  /** `add_flow`: append a flow stamped with the current time. */
  function AddFlow(sw: MockSwitch, pattern: map<string, string>, actions: seq<map<string, int>>, now: real): (r: MockSwitch)
    ensures |r.flows| == |sw.flows| + 1 && r.flows[..|sw.flows|] == sw.flows
    ensures r.flows[|sw.flows|] == Flow(pattern, actions, now)
    ensures r.name == sw.name && r.ports == sw.ports
    ensures r.packetsProcessed == sw.packetsProcessed && r.bytesProcessed == sw.bytesProcessed
  {
    sw.(flows := sw.flows + [Flow(pattern, actions, now)])
  }

  /** `_match_flow`: each of the two known keys, if present, must equal the
      packet's address; absent keys and any other key are wildcards. */
  predicate MatchFlow(pattern: map<string, string>, src: string, dst: string)
  {
    && (SrcMacKey in pattern ==> pattern[SrcMacKey] == src)
    && (DstMacKey in pattern ==> pattern[DstMacKey] == dst)
  }

  /** The packet's fields under the names a match uses. */
  function PacketFields(src: string, dst: string): map<string, string>
  {
    map[SrcMacKey := src, DstMacKey := dst]
  }

  /** Reference reading of a partial match: it agrees with the packet on
      every field they both name. */
  predicate Agrees(pattern: map<string, string>, fields: map<string, string>)
  {
    forall k :: k in pattern && k in fields ==> pattern[k] == fields[k]
  }

  lemma MatchFlowIsAgreement(pattern: map<string, string>, src: string, dst: string)
    ensures MatchFlow(pattern, src, dst) <==> Agrees(pattern, PacketFields(src, dst))
  {
    var fields := PacketFields(src, dst);
    assert SrcMacKey != DstMacKey;
    if MatchFlow(pattern, src, dst) {
      forall k | k in pattern && k in fields ensures pattern[k] == fields[k] {
        assert k == SrcMacKey || k == DstMacKey;
      }
    } else {
      if SrcMacKey in pattern && pattern[SrcMacKey] != src {
        assert fields[SrcMacKey] == src;
      } else {
        assert fields[DstMacKey] == dst;
      }
    }
  }

  /** An empty match accepts every packet. */
  lemma EmptyMatchAcceptsAll(src: string, dst: string)
    ensures MatchFlow(map[], src, dst)
  {
  }

  /** Keys other than the two address fields never affect matching. */
  lemma OtherKeysIgnored(pattern: map<string, string>, key: string, value: string, src: string, dst: string)
    requires key != SrcMacKey && key != DstMacKey
    ensures MatchFlow(pattern[key := value], src, dst) <==> MatchFlow(pattern, src, dst)
  {
  }

  /** A match naming both addresses accepts exactly that packet. */
  lemma FullMatchIsExact(s: string, d: string, src: string, dst: string)
    ensures MatchFlow(map[SrcMacKey := s, DstMacKey := d], src, dst) <==> s == src && d == dst
  {
    assert SrcMacKey != DstMacKey;
  }

  /** The position of the first flow, in insertion order, whose match
      accepts the packet. */
  function FirstMatch(flows: seq<Flow>, src: string, dst: string): (r: Option<nat>)
    ensures r.Some? ==> r.value < |flows| && MatchFlow(flows[r.value].pattern, src, dst)
    ensures r.Some? ==> forall j :: 0 <= j < r.value ==> !MatchFlow(flows[j].pattern, src, dst)
    ensures r.None? <==> forall j :: 0 <= j < |flows| ==> !MatchFlow(flows[j].pattern, src, dst)
    decreases |flows|
  {
    if |flows| == 0 then
      None
    else if MatchFlow(flows[0].pattern, src, dst) then
      Some(0)
    else
      var rest := FirstMatch(flows[1..], src, dst);
      assert forall j :: 1 <= j < |flows| ==> flows[j] == flows[1..][j - 1];
      match rest
      case None => None
      case Some(k) => Some(k + 1)
  }

  /** Any flow that accepts the packet and has no accepting flow before it
      is the one `FirstMatch` finds. */
  lemma FirstMatchIsTheFirst(flows: seq<Flow>, src: string, dst: string, k: nat)
    requires k < |flows| && MatchFlow(flows[k].pattern, src, dst)
    requires forall j :: 0 <= j < k ==> !MatchFlow(flows[j].pattern, src, dst)
    ensures FirstMatch(flows, src, dst) == Some(k)
  {
  }

  /** `flow['actions'][0]['port']`: an empty action list raises IndexError,
      a first action without a port raises KeyError. */
  function ActionPort(actions: seq<map<string, int>>): (r: Result<int>)
    ensures r.Raised? <==> |actions| == 0 || PortKey !in actions[0]
    ensures |actions| == 0 ==> r == Raised(IndexError)
    ensures |actions| > 0 && PortKey !in actions[0] ==> r == Raised(KeyError)
    ensures r.Ok? ==> r.value == actions[0][PortKey]
  {
    if |actions| == 0 then Raised(IndexError)
    else if PortKey !in actions[0] then Raised(KeyError)
    else Ok(actions[0][PortKey])
  }

  /** `process_packet`: count the packet and its bytes, whatever happens
      next; then answer with the output port of the first matching flow, or
      `FloodPort` if none matches. The MAC-to-port bindings are never read. */
  function ProcessPacket(sw: MockSwitch, src: string, dst: string, data: seq<byte>): (p: Processed)
    ensures p.sw.packetsProcessed == sw.packetsProcessed + 1
    ensures p.sw.bytesProcessed == sw.bytesProcessed + |data|
    ensures p.sw.name == sw.name && p.sw.ports == sw.ports && p.sw.flows == sw.flows
    ensures (forall j :: 0 <= j < |sw.flows| ==> !MatchFlow(sw.flows[j].pattern, src, dst)) ==> p.result == Ok(FloodPort)
    ensures forall k :: 0 <= k < |sw.flows| && MatchFlow(sw.flows[k].pattern, src, dst)
                        && (forall j :: 0 <= j < k ==> !MatchFlow(sw.flows[j].pattern, src, dst))
                        ==> p.result == ActionPort(sw.flows[k].actions)
  {
    assert forall k :: 0 <= k < |sw.flows| && MatchFlow(sw.flows[k].pattern, src, dst)
                       && (forall j :: 0 <= j < k ==> !MatchFlow(sw.flows[j].pattern, src, dst))
                       ==> FirstMatch(sw.flows, src, dst) == Some(k) by {
      forall k | 0 <= k < |sw.flows| && MatchFlow(sw.flows[k].pattern, src, dst)
                 && (forall j :: 0 <= j < k ==> !MatchFlow(sw.flows[j].pattern, src, dst))
        ensures FirstMatch(sw.flows, src, dst) == Some(k)
      {
        FirstMatchIsTheFirst(sw.flows, src, dst, k);
      }
    }
    var counted := sw.(packetsProcessed := sw.packetsProcessed + 1, bytesProcessed := sw.bytesProcessed + |data|);
    match FirstMatch(sw.flows, src, dst)
    case None => Processed(counted, Ok(FloodPort))
    case Some(k) => Processed(counted, ActionPort(sw.flows[k].actions))
  }

  /** Every flow can answer: a non-empty action list whose first action names a port. */
  predicate ActionsWellFormed(sw: MockSwitch)
  {
    forall j :: 0 <= j < |sw.flows| ==> |sw.flows[j].actions| > 0 && PortKey in sw.flows[j].actions[0]
  }

  /** Appending a flow that names a port keeps every flow able to answer. */
  lemma AddFlowKeepsWellFormed(sw: MockSwitch, pattern: map<string, string>, actions: seq<map<string, int>>, now: real)
    requires ActionsWellFormed(sw) && |actions| > 0 && PortKey in actions[0]
    ensures ActionsWellFormed(AddFlow(sw, pattern, actions, now))
  {
    var grown := AddFlow(sw, pattern, actions, now);
    forall j | 0 <= j < |grown.flows|
      ensures |grown.flows[j].actions| > 0 && PortKey in grown.flows[j].actions[0]
    {
      if j < |sw.flows| {
        assert grown.flows[j] == sw.flows[j];
      }
    }
  }

  /** A switch whose flows all carry a port never raises. */
  lemma WellFormedNeverRaises(sw: MockSwitch, src: string, dst: string, data: seq<byte>)
    requires ActionsWellFormed(sw)
    ensures ProcessPacket(sw, src, dst, data).result.Ok?
  {
  }

  /** Appending keeps earlier flows first: a packet some existing flow
      accepts gets the same answer after `add_flow`. */
  lemma AddFlowKeepsPrecedence(sw: MockSwitch, pattern: map<string, string>, actions: seq<map<string, int>>,
                               now: real, src: string, dst: string, data: seq<byte>)
    requires exists j :: 0 <= j < |sw.flows| && MatchFlow(sw.flows[j].pattern, src, dst)
    ensures ProcessPacket(AddFlow(sw, pattern, actions, now), src, dst, data).result
            == ProcessPacket(sw, src, dst, data).result
  {
    var grown := AddFlow(sw, pattern, actions, now);
    var k := FirstMatch(sw.flows, src, dst).value;
    assert grown.flows[k] == sw.flows[k];
    assert forall j :: 0 <= j < k ==> grown.flows[j] == sw.flows[j];
  }

  /** The appended flow answers exactly the packets no earlier flow accepts
      and it does. */
  lemma AddFlowCatchesTheRest(sw: MockSwitch, pattern: map<string, string>, actions: seq<map<string, int>>,
                              now: real, src: string, dst: string, data: seq<byte>)
    requires forall j :: 0 <= j < |sw.flows| ==> !MatchFlow(sw.flows[j].pattern, src, dst)
    ensures MatchFlow(pattern, src, dst) ==>
              ProcessPacket(AddFlow(sw, pattern, actions, now), src, dst, data).result == ActionPort(actions)
    ensures !MatchFlow(pattern, src, dst) ==>
              ProcessPacket(AddFlow(sw, pattern, actions, now), src, dst, data).result == Ok(FloodPort)
  {
    var grown := AddFlow(sw, pattern, actions, now);
    assert forall j :: 0 <= j < |sw.flows| ==> grown.flows[j] == sw.flows[j];
  }

  /** The MAC-to-port bindings play no part in the answer. */
  lemma PortsNeverConsulted(sw: MockSwitch, mac: string, port: int, src: string, dst: string, data: seq<byte>)
    ensures ProcessPacket(AddPort(sw, mac, port), src, dst, data).result == ProcessPacket(sw, src, dst, data).result
  {
  }
}
