/** The packet-in decision logic of the OpenFlow controller
    (`controller/sdn_controller.py`), as pure functions from an event and the
    controller state to the new state and the commands sent to the switch.

    OpenFlow messages are abstract commands: `FlowMod` stands for an
    `OFPFlowMod` with one apply-actions instruction, `PacketOut` for an
    `OFPPacketOut`. A handler that raises is modelled by the `Raised`
    outcome; the state it had already changed stays changed, as it does in
    the running process.
 */
module SdnController {
  import opened Outcomes
  import LB = LoadBalancing
  import Deployment

  type Dpid = nat
  type PortNo = nat

  /** OpenFlow 1.3 reserved port numbers. */
  const OFPP_MAX: PortNo := 0xffff_ff00
  const OFPP_FLOOD: PortNo := 0xffff_fffb
  const OFPP_CONTROLLER: PortNo := 0xffff_fffd

  const VideoServicePort: nat := 8000
  const EthTypeIpv4: nat := 0x0800
  const IpProtoTcp: nat := 6

  const TableMissPriority: nat := 0
  const ForwardPriority: nat := 1
  const VideoPriority: nat := 2

  datatype Action = Output(port: PortNo)

  /** An OpenFlow match; `None` leaves a field wildcarded. */
  datatype Match = Match(
    inPort: Option<PortNo>,
    ethDst: Option<string>,
    ethType: Option<nat>,
    ipv4Src: Option<string>,
    ipv4Dst: Option<string>,
    ipProto: Option<nat>,
    tcpSrc: Option<nat>,
    tcpDst: Option<nat>)

  const MatchAll: Match := Match(None, None, None, None, None, None, None, None)

  /** The messages the controller sends to a switch. A packet-out carries
      its actions only: the code passes the packet-in's buffer id or
      OFP_NO_BUFFER and no frame data, and the table-miss rule asks for
      unbuffered packet-ins, so no packet-out the controller sends carries
      the frame. */
  datatype Command =
    | FlowMod(dpid: Dpid, priority: nat, pattern: Match, actions: seq<Action>)
    | PacketOut(dpid: Dpid, inPort: PortNo, actions: seq<Action>)

  datatype Ipv4Header = Ipv4Header(src: string, dst: string)
  datatype TcpHeader = TcpHeader(srcPort: nat, dstPort: nat)

  /** The parts of a packet-in event the handler reads: the switch, the
      ingress port, the Ethernet addresses and the IPv4 and TCP headers if
      the frame carries them. */
  datatype PacketIn = PacketIn(
    dpid: Dpid,
    inPort: PortNo,
    ethSrc: string,
    ethDst: string,
    ipv4: Option<Ipv4Header>,
    tcp: Option<TcpHeader>)

  /** The controller's state: the policy engine, the connected switches and
      one learning table per switch, keyed by the source address observed. */
  datatype Controller = Controller(
    lb: LB.LoadBalancer,
    switches: set<Dpid>,
    macToPort: map<Dpid, map<string, PortNo>>)

  datatype Reaction = Reaction(state: Controller, commands: seq<Command>, outcome: Result<()>)

  predicate Valid(c: Controller)
  {
    LB.Valid(c.lb) && c.switches == c.macToPort.Keys
  }

  /** The controller at start-up: the round-robin policy engine holding the
      four backends, and no switch connected yet. */
  function InitialController(): (c: Controller)
    ensures Valid(c)
    ensures c.lb.algorithm == LB.RoundRobin && c.lb.servers == Deployment.StartupServers() && c.lb.currentIndex == 0
    ensures forall id :: id in c.lb.serverStats ==> c.lb.serverStats[id] == LB.FreshStats()
    ensures c.switches == {} && c.macToPort == map[]
  {
    Controller(Deployment.StartupRegistry(LB.RoundRobin), {}, map[])
  }

  /** `switch_features_handler`: install the table-miss rule and start an
      empty learning table (a reconnecting switch loses what was learned). */
  function SwitchFeatures(c: Controller, dpid: Dpid): (r: Reaction)
    requires Valid(c)
    ensures Valid(r.state)
    ensures r.outcome == Ok(()) && r.state.lb == c.lb
    ensures |r.commands| == 1 && r.commands[0].FlowMod? && r.commands[0].dpid == dpid
    ensures r.commands[0].priority == TableMissPriority && r.commands[0].pattern == MatchAll
    ensures r.commands[0].actions == [Output(OFPP_CONTROLLER)]
    ensures r.state.switches == c.switches + {dpid}
    ensures dpid in r.state.macToPort && r.state.macToPort[dpid] == map[]
    ensures forall d :: d in c.macToPort && d != dpid ==> d in r.state.macToPort && r.state.macToPort[d] == c.macToPort[d]
  {
    var tableMiss := FlowMod(dpid, TableMissPriority, MatchAll, [Output(OFPP_CONTROLLER)]);
    Reaction(c.(switches := c.switches + {dpid}, macToPort := c.macToPort[dpid := map[]]), [tableMiss], Ok(()))
  }

  /** IPv4 carrying TCP to the video-service port. */
  predicate IsVideoRequest(pkt: PacketIn)
  {
    pkt.ipv4.Some? && pkt.tcp.Some? && pkt.tcp.value.dstPort == VideoServicePort
  }

  /** A packet-out whose one action outputs to every port. */
  function Flood(pkt: PacketIn): Command
  {
    PacketOut(pkt.dpid, pkt.inPort, [Output(OFPP_FLOOD)])
  }

  function ForwardMatch(pkt: PacketIn): Match
  {
    MatchAll.(inPort := Some(pkt.inPort), ethDst := Some(pkt.ethDst))
  }

  /** The connection's 5-tuple: IPv4, TCP, both addresses and both ports. */
  function VideoMatch(ip: Ipv4Header, tcp: TcpHeader): Match
  {
    Match(None, None, Some(EthTypeIpv4), Some(ip.src), Some(ip.dst), Some(IpProtoTcp),
          Some(tcp.srcPort), Some(tcp.dstPort))
  }

  /** The default path of `_packet_in_handler`: output to the learned port
      and cache that decision, or flood without caching anything. */
  function ForwardDefault(c: Controller, pkt: PacketIn): (r: Reaction)
    requires pkt.dpid in c.macToPort
    ensures r.state == c && r.outcome == Ok(())
    ensures var table := c.macToPort[pkt.dpid];
            && (pkt.ethDst in table && table[pkt.ethDst] != OFPP_FLOOD ==>
                  r.commands == [FlowMod(pkt.dpid, ForwardPriority, ForwardMatch(pkt), [Output(table[pkt.ethDst])]),
                                 PacketOut(pkt.dpid, pkt.inPort, [Output(table[pkt.ethDst])])])
            && (pkt.ethDst !in table || table[pkt.ethDst] == OFPP_FLOOD ==> r.commands == [Flood(pkt)])
  {
    var table := c.macToPort[pkt.dpid];
    var outPort := if pkt.ethDst in table then table[pkt.ethDst] else OFPP_FLOOD;
    var actions := [Output(outPort)];
    var install := if outPort != OFPP_FLOOD then [FlowMod(pkt.dpid, ForwardPriority, ForwardMatch(pkt), actions)] else [];
    Reaction(c, install + [PacketOut(pkt.dpid, pkt.inPort, actions)], Ok(()))
  }

  /** `_handle_video_request`. Only ValueError (an empty registry) is
      caught, and answered by flooding. The chosen backend's port is looked
      up by its IP address in the learning table, which is keyed by the
      source addresses of observed frames; a miss raises KeyError, which
      escapes with the rotation already advanced and nothing sent. On a hit
      the 5-tuple rule is installed and the backend's statistics are updated
      once; the packet itself is not sent. */
  function HandleVideoRequest(c: Controller, pkt: PacketIn, now: real, pick: nat): (r: Reaction)
    requires Valid(c) && pkt.dpid in c.macToPort && IsVideoRequest(pkt)
    ensures Valid(r.state)
    ensures r.state.macToPort == c.macToPort && r.state.switches == c.switches
    ensures |c.lb.servers| == 0 ==> r == Reaction(c, [Flood(pkt)], Ok(()))
    ensures var sel := LB.GetNextServer(c.lb, pick);
            && (sel.result.Raised? && |c.lb.servers| > 0 ==>
                  r == Reaction(c, [], Raised(sel.result.error)))
            && (sel.result.Ok? ==>
                  var server := c.lb.servers[sel.result.value];
                  var table := c.macToPort[pkt.dpid];
                  && (server.ip !in table ==>
                        r == Reaction(c.(lb := sel.lb), [], Raised(KeyError)))
                  && (server.ip in table ==>
                        && r.outcome == Ok(())
                        && r.commands == [FlowMod(pkt.dpid, VideoPriority, VideoMatch(pkt.ipv4.value, pkt.tcp.value),
                                                  [Output(table[server.ip])])]
                        && r.state.lb == LB.UpdateServerStats(sel.lb, server.id, 0.0, 0.0, LB.Auto, now).lb))
  {
    var sel := LB.GetNextServer(c.lb, pick);
    match sel.result
    case Raised(e) =>
      if e.ValueError? then Reaction(c, [Flood(pkt)], Ok(()))
      else Reaction(c, [], Raised(e))
    case Ok(k) =>
      var server := sel.lb.servers[k];
      var table := c.macToPort[pkt.dpid];
      if server.ip !in table then
        Reaction(c.(lb := sel.lb), [], Raised(KeyError))
      else
        var rule := FlowMod(pkt.dpid, VideoPriority, VideoMatch(pkt.ipv4.value, pkt.tcp.value), [Output(table[server.ip])]);
        var update := LB.UpdateServerStats(sel.lb, server.id, 0.0, 0.0, LB.Auto, now);
        Reaction(c.(lb := update.lb), [rule], Ok(()))
  }

  /** The learning table after recording the packet's source. */
  function Learn(c: Controller, pkt: PacketIn): (table: map<string, PortNo>)
    requires pkt.dpid in c.macToPort
    ensures table.Keys == c.macToPort[pkt.dpid].Keys + {pkt.ethSrc}
    ensures table[pkt.ethSrc] == pkt.inPort
    ensures forall a :: a in c.macToPort[pkt.dpid] && a != pkt.ethSrc ==> table[a] == c.macToPort[pkt.dpid][a]
  {
    c.macToPort[pkt.dpid][pkt.ethSrc := pkt.inPort]
  }

  /** `_packet_in_handler`: learn the source port first, then hand video
      requests to the video path and everything else to the default path.
      A switch that never completed the features handshake has no learning
      table, and the lookup raises KeyError before anything else happens. */
  function HandlePacketIn(c: Controller, pkt: PacketIn, now: real, pick: nat): (r: Reaction)
    requires Valid(c)
    ensures Valid(r.state) && r.state.switches == c.switches
    ensures pkt.dpid !in c.macToPort ==> r == Reaction(c, [], Raised(KeyError))
    ensures pkt.dpid in c.macToPort ==> r.state.macToPort == c.macToPort[pkt.dpid := Learn(c, pkt)]
    ensures pkt.dpid in c.macToPort && IsVideoRequest(pkt) ==>
              r == HandleVideoRequest(c.(macToPort := c.macToPort[pkt.dpid := Learn(c, pkt)]), pkt, now, pick)
    ensures pkt.dpid in c.macToPort && !IsVideoRequest(pkt) ==>
              r.state.lb == c.lb && r.outcome == Ok(())
              && var table := Learn(c, pkt);
              && (pkt.ethDst in table && table[pkt.ethDst] != OFPP_FLOOD ==>
                    r.commands == [FlowMod(pkt.dpid, ForwardPriority, ForwardMatch(pkt), [Output(table[pkt.ethDst])]),
                                   PacketOut(pkt.dpid, pkt.inPort, [Output(table[pkt.ethDst])])])
              && (pkt.ethDst !in table || table[pkt.ethDst] == OFPP_FLOOD ==> r.commands == [Flood(pkt)])
  {
    if pkt.dpid !in c.macToPort then
      Reaction(c, [], Raised(KeyError))
    else
      var learned := c.(macToPort := c.macToPort[pkt.dpid := Learn(c, pkt)]);
      if IsVideoRequest(pkt) then HandleVideoRequest(learned, pkt, now, pick)
      else ForwardDefault(learned, pkt)
  }

  /* ---------------------------------------------------------------------
     Properties of the decision logic
     --------------------------------------------------------------------- */

  /** The rules the controller installs are strictly ordered: table-miss
      below learned forwarding below video redirection; every rule a
      packet-in installs outranks the table-miss rule, and the only rules it
      installs are the learned-forward rule and the 5-tuple video rule. */
  lemma RulePriorities(c: Controller, pkt: PacketIn, now: real, pick: nat)
    requires Valid(c)
    ensures TableMissPriority < ForwardPriority < VideoPriority
    ensures forall cmd :: cmd in HandlePacketIn(c, pkt, now, pick).commands && cmd.FlowMod? ==>
              && cmd.priority > TableMissPriority
              && (cmd.priority == ForwardPriority <==> !IsVideoRequest(pkt))
              && (cmd.priority == ForwardPriority ==> cmd.pattern == ForwardMatch(pkt))
              && (cmd.priority == VideoPriority ==> cmd.pattern == VideoMatch(pkt.ipv4.value, pkt.tcp.value))
  {
  }

  /** Flooding never caches a rule: a reaction that floods installs nothing. */
  lemma FloodInstallsNothing(c: Controller, pkt: PacketIn, now: real, pick: nat)
    requires Valid(c)
    ensures var r := HandlePacketIn(c, pkt, now, pick);
            Flood(pkt) in r.commands ==> forall cmd :: cmd in r.commands ==> !cmd.FlowMod?
  {
  }

  /** A packet-in sends at most one rule and at most one packet, the rule
      first. */
  lemma OneRuleOnePacket(c: Controller, pkt: PacketIn, now: real, pick: nat)
    requires Valid(c)
    ensures var r := HandlePacketIn(c, pkt, now, pick);
            && |r.commands| <= 2
            && (|r.commands| == 2 ==> r.commands[0].FlowMod? && r.commands[1].PacketOut?)
  {
  }

  /** A packet-out is sent exactly when no exception escaped and the packet
      was not a video request that reached a backend. In particular a video
      request whose backend was found gets a rule but no packet-out, and an
      escaped KeyError leaves the packet-in unanswered. */
  lemma PacketOutUnlessRedirected(c: Controller, pkt: PacketIn, now: real, pick: nat)
    requires Valid(c)
    ensures var r := HandlePacketIn(c, pkt, now, pick);
            (exists cmd :: cmd in r.commands && cmd.PacketOut?) <==>
              r.outcome.Ok? && !(IsVideoRequest(pkt) && |c.lb.servers| > 0)
  {
    var r := HandlePacketIn(c, pkt, now, pick);
    if pkt.dpid !in c.macToPort {
    } else if IsVideoRequest(pkt) {
      if |c.lb.servers| > 0 {
        assert forall cmd :: cmd in r.commands ==> cmd.FlowMod?;
      } else {
        assert r.commands[0].PacketOut?;
      }
    } else {
      assert r.commands[|r.commands| - 1].PacketOut?;
    }
  }

  /** A video request never reaches the default path: nothing is sent to a
      learned port and no learned-forward rule is installed for it. */
  lemma VideoBypassesForwarding(c: Controller, pkt: PacketIn, now: real, pick: nat)
    requires Valid(c) && IsVideoRequest(pkt)
    ensures var r := HandlePacketIn(c, pkt, now, pick);
            && (forall cmd :: cmd in r.commands ==> cmd == Flood(pkt) || (cmd.FlowMod? && cmd.priority == VideoPriority))
  {
  }

  /** Packets of other traffic leave the policy engine untouched, so
      selection and statistics only move on video requests. */
  lemma ForwardingLeavesPolicyAlone(c: Controller, pkt: PacketIn, now: real, pick: nat)
    requires Valid(c) && !IsVideoRequest(pkt)
    ensures HandlePacketIn(c, pkt, now, pick).state.lb == c.lb
  {
  }

  /** A successful redirection counts one request for the chosen backend's
      id and leaves every other id's statistics alone. */
  lemma RedirectionCountsOneRequest(c: Controller, pkt: PacketIn, now: real, pick: nat)
    requires Valid(c) && pkt.dpid in c.macToPort && IsVideoRequest(pkt)
    requires HandlePacketIn(c, pkt, now, pick).commands != []
    requires |c.lb.servers| > 0
    ensures var r := HandlePacketIn(c, pkt, now, pick);
            var id := c.lb.servers[LB.GetNextServer(c.lb, pick).result.value].id;
            && r.commands[0].FlowMod? && r.commands[0].priority == VideoPriority
            && r.state.lb.serverStats[id].requestsHandled == c.lb.serverStats[id].requestsHandled + 1
            && (forall other :: other in c.lb.serverStats && other != id ==>
                  r.state.lb.serverStats[other] == c.lb.serverStats[other])
  {
    var sel := LB.GetNextServer(c.lb, pick);
    assert sel.result.Ok?;
    var server := c.lb.servers[sel.result.value];
    assert server.id in sel.lb.serverStats by {
      assert server.id in LB.Ids(sel.lb.servers);
    }
  }

  /** A switch that has connected has a learning table; its first packet is
      handled (never the unknown-switch KeyError) and teaches exactly the
      sender's port. */
  lemma ConnectThenLearn(c: Controller, dpid: Dpid, pkt: PacketIn, now: real, pick: nat)
    requires Valid(c) && pkt.dpid == dpid
    ensures var connected := SwitchFeatures(c, dpid).state;
            var r := HandlePacketIn(connected, pkt, now, pick);
            r.state.macToPort[dpid] == map[pkt.ethSrc := pkt.inPort]
  {
  }

  /** When every learned port and the ingress port are physical ports, a
      known destination is always cached by a learned-forward rule. */
  lemma KnownDestinationIsCached(c: Controller, pkt: PacketIn, now: real, pick: nat)
    requires Valid(c) && pkt.dpid in c.macToPort && !IsVideoRequest(pkt)
    requires forall a :: a in c.macToPort[pkt.dpid] ==> c.macToPort[pkt.dpid][a] < OFPP_MAX
    requires pkt.inPort < OFPP_MAX
    requires pkt.ethDst in c.macToPort[pkt.dpid] || pkt.ethDst == pkt.ethSrc
    ensures var r := HandlePacketIn(c, pkt, now, pick);
            && |r.commands| == 2
            && r.commands[0] == FlowMod(pkt.dpid, ForwardPriority, ForwardMatch(pkt), [Output(Learn(c, pkt)[pkt.ethDst])])
            && r.commands[1] == PacketOut(pkt.dpid, pkt.inPort, [Output(Learn(c, pkt)[pkt.ethDst])])
  {
    var table := Learn(c, pkt);
    assert table[pkt.ethDst] < OFPP_MAX;
  }
}
