/** The request simulation of the test environment
    (`TestEnvironment.simulate_request` in `test/test_environment.py`): pick a
    backend, install a flow for the client/backend address pair on the
    border switch, push the request through that switch, read the quality
    tag off the video name and record the request in the backend's
    statistics. Any exception makes the call answer `false`; what was
    already changed stays changed.
 */
module TestHarness {
  import opened Outcomes
  import opened Text
  import LB = LoadBalancing
  import opened MockNetwork
  import Deployment

  /** The switch every simulated request enters. */
  const BorderSwitch: string := "s1"
  /** The output port of the flow a simulated request installs. */
  const RequestPort: int := 1
  /** The figures every simulated request reports. */
  const SimulatedBandwidth: real := 1.0
  const SimulatedResponseTime: real := 50.0

  const MacPrefix: string := "00:00:00:00:00:"
  const RequestLinePrefix: string := "GET /video/"
  const RequestLineSuffix: string := " HTTP/1.1\r\n"

  /** The border switch, three core switches and three leaf switches. */
  const SwitchNames: set<string> := {"s1", "s2", "s3", "s4", "s5", "s6", "s7"}

  datatype Env = Env(switches: map<string, MockSwitch>, lb: LB.LoadBalancer)

  /** The environment after a simulated request, and what the call returned. */
  datatype Outcome = Outcome(env: Env, succeeded: bool)

  /** `TestEnvironment.__init__` without the HTTP servers: seven empty
      switches and the round-robin policy engine with the four backends. */
  function InitialEnv(): (env: Env)
    ensures LB.Valid(env.lb) && env.lb.algorithm == LB.RoundRobin
    ensures env.lb.servers == Deployment.StartupServers() && env.lb.currentIndex == 0
    ensures forall id :: id in env.lb.serverStats ==> env.lb.serverStats[id] == LB.FreshStats()
    ensures env.switches.Keys == SwitchNames
    ensures forall name :: name in env.switches ==> env.switches[name] == NewMockSwitch(name)
  {
    Env(InitialSwitches(), Deployment.StartupRegistry(LB.RoundRobin))
  }

  function InitialSwitches(): (switches: map<string, MockSwitch>)
    ensures switches.Keys == SwitchNames
    ensures forall name :: name in switches ==> switches[name] == NewMockSwitch(name)
  {
    map name | name in SwitchNames :: NewMockSwitch(name)
  }

  /** `videoName` is an underscore-free `prefix`, an underscore, `tag` and
      `rest`, and `tag` runs up to the end, the next underscore or a dot. */
  predicate TagBetween(videoName: string, prefix: string, tag: string, rest: string)
  {
    && videoName == prefix + "_" + tag + rest && '_' !in prefix && '_' !in tag
    && (rest == "" || rest[0] == '_' || rest[0] == '.')
  }

  ghost predicate TagFollowsPrefix(videoName: string, tag: string)
  {
    exists prefix, rest :: TagBetween(videoName, prefix, tag, rest)
  }

  /** `video_name.split('_')[1].split('.')[0]`: the text after the first
      underscore up to the next underscore or dot. A name without an
      underscore has no second piece and raises IndexError. */
  function QualityTag(videoName: string): (r: Result<string>)
    ensures r.Ok? <==> '_' in videoName
    ensures r.Raised? ==> r.error == IndexError
    ensures r.Ok? ==> '.' !in r.value && TagFollowsPrefix(videoName, r.value)
  {
    var pieces := Split(videoName, '_');
    SplitFindsSeparator(videoName, '_');
    if |pieces| < 2 then
      Raised(IndexError)
    else
      TagShape(videoName);
      Ok(Split(pieces[1], '.')[0])
  }

  lemma TagShape(videoName: string)
    requires |Split(videoName, '_')| >= 2
    ensures TagFollowsPrefix(videoName, Split(Split(videoName, '_')[1], '.')[0])
  {
    var pieces := Split(videoName, '_');
    var tag := Split(pieces[1], '.')[0];
    var afterTag := FirstPiecePrefix(pieces[1], '.');
    var afterPiece := SecondPiecePrefix(videoName, '_');
    var tail := pieces[1] + afterPiece;
    var rest := afterTag + afterPiece;
    assert tail == tag + rest;
    assert '_' !in tag by {
      assert forall i :: 0 <= i < |tag| ==> tag[i] == pieces[1][i];
    }
    assert rest == "" || rest[0] == '_' || rest[0] == '.' by {
      if afterTag != "" { assert rest[0] == afterTag[0]; }
    }
    ShapeWitness(videoName, pieces[0], tag, rest);
  }

  lemma ShapeWitness(videoName: string, prefix: string, tag: string, rest: string)
    requires videoName == prefix + ['_'] + (tag + rest) && '_' !in prefix && '_' !in tag
    requires rest == "" || rest[0] == '_' || rest[0] == '.'
    ensures TagFollowsPrefix(videoName, tag)
  {
    assert TagBetween(videoName, prefix, tag, rest);
  }

  /** Every tag that follows an underscore-free prefix, holds no dot and ends
      the name or meets an underscore or a dot is the one extracted. */
  lemma QualityTagIs(prefix: string, tag: string, rest: string)
    requires '_' !in prefix && '_' !in tag && '.' !in tag
    requires rest == "" || rest[0] == '_' || rest[0] == '.'
    ensures QualityTag(prefix + "_" + tag + rest) == Ok(tag)
  {
    var name := prefix + "_" + tag + rest;
    assert name == prefix + ['_'] + (tag + rest);
    SplitAtFirst(prefix, tag + rest, '_');
    assert Split(name, '_')[1] == Split(tag + rest, '_')[0];
    if rest == "" || rest[0] == '_' {
      FirstPieceOf(tag, rest, '_');
      FirstPieceOf(tag, "", '.');
      assert tag + "" == tag;
    } else {
      SplitPrefix(tag, rest, '_');
      var more := Split(rest, '_')[0];
      FirstPieceStart(rest, '_');
      FirstPieceOf(tag, more, '.');
    }
  }

  /** A name of the shape `prefix_tag.ext` yields `tag`. */
  lemma QualityTagOf(prefix: string, tag: string, ext: string)
    requires '_' !in prefix && '_' !in tag && '.' !in tag
    ensures QualityTag(prefix + "_" + tag + "." + ext) == Ok(tag)
  {
    assert prefix + "_" + tag + "." + ext == prefix + "_" + tag + ("." + ext);
    QualityTagIs(prefix, tag, "." + ext);
  }

  lemma QualityTagExamples()
    ensures QualityTag("bbb_480p.mp4") == Ok(LB.Medium)
    ensures QualityTag("bbb.mp4") == Raised(IndexError)
  {
    assert "bbb_480p.mp4" == "bbb" + "_" + "480p" + "." + "mp4";
    QualityTagOf("bbb", "480p", "mp4");
    assert "bbb.mp4"[3] == '.';
    assert '_' !in "bbb.mp4";
  }

  /** The tag also ends at the end of the name or at a second underscore. */
  lemma QualityTagEdgeExamples()
    ensures QualityTag("bbb_480p") == Ok(LB.Medium)
    ensures QualityTag("a_b_c.mp4") == Ok("b")
  {
    assert "bbb_480p" == "bbb" + "_" + "480p" + "";
    QualityTagIs("bbb", "480p", "");
    assert "a_b_c.mp4" == "a" + "_" + "b" + "_c.mp4";
    QualityTagIs("a", "b", "_c.mp4");
  }

  /** `f"00:00:00:00:00:{ip.split('.')[-1]}"`: a MAC address made from the
      last dotted component of an IPv4 address. */
  function MacFromIp(ip: string): (mac: string)
    ensures |mac| >= |MacPrefix| && mac[..|MacPrefix|] == MacPrefix
    ensures '.' !in mac[|MacPrefix|..]
    ensures exists k :: 0 <= k <= |ip| && ip[k..] == mac[|MacPrefix|..] && (k == 0 || ip[k - 1] == '.')
  {
    var host := LastPiece(ip, '.');
    assert (MacPrefix + host)[|MacPrefix|..] == host;
    MacPrefix + host
  }

  /** The host part of `net.host` becomes the last MAC component. */
  lemma MacFromHost(net: string, host: string)
    requires '.' !in host
    ensures MacFromIp(net + "." + host) == MacPrefix + host
  {
    LastPieceAfter(net, host, '.');
  }

  /** A name without dots, such as `localhost`, is kept whole. */
  lemma MacFromDotless(name: string)
    requires '.' !in name
    ensures MacFromIp(name) == MacPrefix + name
  {
    LastPieceWhole(name, '.');
  }

  lemma MacOfClient()
    ensures MacFromIp("10.0.0.1") == "00:00:00:00:00:1"
  {
    MacFromHost("10.0.0", "1");
    assert "10.0.0" + "." + "1" == "10.0.0.1";
  }

  lemma RequestLineIsAscii()
    ensures IsAscii(RequestLinePrefix) && IsAscii(RequestLineSuffix)
  {
  }

  /** `b'GET /video/' + video_name.encode() + b' HTTP/1.1\r\n'`. */
  function RequestBytes(videoName: string): (data: seq<byte>)
    ensures |data| == |RequestLinePrefix| + Utf8Size(videoName) + |RequestLineSuffix|
    ensures |data| >= |RequestLinePrefix| + |videoName| + |RequestLineSuffix|
    ensures IsAscii(videoName) ==> |data| == |RequestLinePrefix| + |videoName| + |RequestLineSuffix|
  {
    RequestLineIsAscii();
    Encode(RequestLinePrefix) + Encode(videoName) + Encode(RequestLineSuffix)
  }

  /** The switch counted one request packet for `videoName` and gained one
      flow after those it had. */
  predicate ForwardedOnce(before: MockSwitch, after: MockSwitch, videoName: string)
  {
    && after.packetsProcessed == before.packetsProcessed + 1
    && after.bytesProcessed == before.bytesProcessed + |RequestBytes(videoName)|
    && |after.flows| == |before.flows| + 1 && after.flows[..|before.flows|] == before.flows
  }

  /** Only the border switch may have changed. */
  predicate OnlyBorderTouched(before: map<string, MockSwitch>, after: map<string, MockSwitch>)
  {
    && after.Keys == before.Keys
    && forall name :: name in before && name != BorderSwitch ==> after[name] == before[name]
  }

  lemma ReplacingBorderTouchesOnlyIt(switches: map<string, MockSwitch>, sw: MockSwitch)
    requires BorderSwitch in switches
    ensures OnlyBorderTouched(switches, switches[BorderSwitch := sw])
  {
    var after := switches[BorderSwitch := sw];
    forall name | name in switches && name != BorderSwitch ensures after[name] == switches[name] {
    }
  }

  /** The border-switch half of a simulated request: install the flow for
      the client/backend pair, then push the request through the switch. */
  function ForwardRequest(sw: MockSwitch, srcMac: string, dstMac: string, videoName: string, now: real): (p: Processed)
    ensures ForwardedOnce(sw, p.sw, videoName)
    ensures ActionsWellFormed(sw) ==> ActionsWellFormed(p.sw) && p.result.Ok?
    ensures (forall j :: 0 <= j < |sw.flows| ==> !MatchFlow(sw.flows[j].pattern, srcMac, dstMac)) ==>
              p.result == Ok(RequestPort)
  {
    var pattern := map[SrcMacKey := srcMac, DstMacKey := dstMac];
    var actions := [map[PortKey := RequestPort]];
    var withFlow := AddFlow(sw, pattern, actions, now);
    var data := RequestBytes(videoName);
    assert ActionsWellFormed(sw) ==> ActionsWellFormed(withFlow) && ProcessPacket(withFlow, srcMac, dstMac, data).result.Ok? by {
      if ActionsWellFormed(sw) {
        assert PortKey in actions[0];
        AddFlowKeepsWellFormed(sw, pattern, actions, now);
        WellFormedNeverRaises(withFlow, srcMac, dstMac, data);
      }
    }
    if forall j :: 0 <= j < |sw.flows| ==> !MatchFlow(sw.flows[j].pattern, srcMac, dstMac) then
      FullMatchIsExact(srcMac, dstMac, srcMac, dstMac);
      AddFlowCatchesTheRest(sw, pattern, actions, now, srcMac, dstMac, data);
      ProcessPacket(withFlow, srcMac, dstMac, data)
    else
      ProcessPacket(withFlow, srcMac, dstMac, data)
  }

  /** The statistics of `id` record one more simulated request, and every
      other id's statistics are as they were. */
  predicate CountedOnce(before: map<string, LB.Stats>, after: map<string, LB.Stats>, id: string)
  {
    && id in before && after.Keys == before.Keys
    && after[id].requestsHandled == before[id].requestsHandled + 1
    && after[id].totalBandwidth == before[id].totalBandwidth + SimulatedBandwidth
    && forall other :: other in before && other != id ==> after[other] == before[other]
  }

  /** The statistics half of a simulated request: read the tag off the
      name and report the fixed bandwidth and response time under it. */
  function RecordRequest(lb: LB.LoadBalancer, id: string, videoName: string, now: real): (r: LB.Step<()>)
    requires LB.Valid(lb) && id in lb.serverStats
    ensures LB.Valid(r.lb) && r.lb.currentIndex == lb.currentIndex && r.lb.serverStats.Keys == lb.serverStats.Keys
    ensures r.result.Ok? <==>
              QualityTag(videoName).Ok? && (QualityTag(videoName).value == LB.Auto || QualityTag(videoName).value in LB.Tiers)
    ensures r.result.Ok? ==> CountedOnce(lb.serverStats, r.lb.serverStats, id)
    ensures forall other :: other in lb.serverStats && other != id ==> r.lb.serverStats[other] == lb.serverStats[other]
  {
    match QualityTag(videoName)
    case Raised(e) => LB.Step(lb, Raised(e))
    case Ok(tag) => LB.UpdateServerStats(lb, id, SimulatedBandwidth, SimulatedResponseTime, tag, now)
  }

  /** What `simulate_request` does once `server` was selected and `lb` is
      the policy engine after the selection. */
  function Serve(env: Env, lb: LB.LoadBalancer, server: LB.Server, clientIp: string, videoName: string, now: real): (r: Outcome)
    requires LB.Valid(lb) && server.id in lb.serverStats
    ensures LB.Valid(r.env.lb) && r.env.lb.serverStats.Keys == lb.serverStats.Keys
    ensures r.env.lb.currentIndex == lb.currentIndex
    ensures OnlyBorderTouched(env.switches, r.env.switches)
    ensures r.succeeded ==>
              && BorderSwitch in env.switches
              && QualityTag(videoName).Ok?
              && (QualityTag(videoName).value == LB.Auto || QualityTag(videoName).value in LB.Tiers)
              && CountedOnce(lb.serverStats, r.env.lb.serverStats, server.id)
    ensures BorderSwitch in env.switches ==>
              BorderSwitch in r.env.switches &&
              ForwardedOnce(env.switches[BorderSwitch], r.env.switches[BorderSwitch], videoName)
  {
    if BorderSwitch !in env.switches then
      Outcome(env.(lb := lb), false)
    else
      var forwarded := ForwardRequest(env.switches[BorderSwitch], MacFromIp(clientIp), MacFromIp(server.ip), videoName, now);
      var switched := env.(lb := lb, switches := env.switches[BorderSwitch := forwarded.sw]);
      ReplacingBorderTouchesOnlyIt(env.switches, forwarded.sw);
      if forwarded.result.Raised? then
        Outcome(switched, false)
      else
        var recorded := RecordRequest(lb, server.id, videoName, now);
        Outcome(switched.(lb := recorded.lb), recorded.result.Ok?)
  }

  /** `simulate_request`: select a backend, then serve the request through
      it; any exception answers `false` with the changes made so far kept
      (in particular an advanced round-robin position). */
  function SimulateRequest(env: Env, clientIp: string, videoName: string, pick: nat, now: real): (r: Outcome)
    requires LB.Valid(env.lb)
    ensures LB.Valid(r.env.lb) && r.env.lb.serverStats.Keys == env.lb.serverStats.Keys
    ensures OnlyBorderTouched(env.switches, r.env.switches)
    ensures |env.lb.servers| == 0 ==> r == Outcome(env, false)
    ensures var sel := LB.GetNextServer(env.lb, pick);
            && r.env.lb.currentIndex == sel.lb.currentIndex
            && (r.succeeded ==>
                  && sel.result.Ok? && BorderSwitch in env.switches
                  && QualityTag(videoName).Ok?
                  && (QualityTag(videoName).value == LB.Auto || QualityTag(videoName).value in LB.Tiers)
                  && CountedOnce(env.lb.serverStats, r.env.lb.serverStats, env.lb.servers[sel.result.value].id))
  {
    var sel := LB.GetNextServer(env.lb, pick);
    match sel.result
    case Raised(_) => Outcome(env.(lb := sel.lb), false)
    case Ok(k) =>
      var server := sel.lb.servers[k];
      assert server.id in sel.lb.serverStats by {
        assert server.id in LB.Ids(sel.lb.servers);
      }
      Serve(env, sel.lb, server, clientIp, videoName, now)
  }

  /** Once a backend is selected the request reaches the border switch:
      one packet of the request's size is counted and one flow added. */
  lemma RequestCrossesBorderSwitch(env: Env, clientIp: string, videoName: string, pick: nat, now: real)
    requires LB.Valid(env.lb) && BorderSwitch in env.switches
    requires LB.GetNextServer(env.lb, pick).result.Ok?
    ensures var r := SimulateRequest(env, clientIp, videoName, pick, now);
            BorderSwitch in r.env.switches &&
            ForwardedOnce(env.switches[BorderSwitch], r.env.switches[BorderSwitch], videoName)
  {
    var sel := LB.GetNextServer(env.lb, pick);
    var server := sel.lb.servers[sel.result.value];
    assert server.id in sel.lb.serverStats by {
      assert server.id in LB.Ids(sel.lb.servers);
    }
  }

  /** An environment in which every simulated request can succeed: some
      backend can be selected and every flow on the border switch names a
      port. */
  predicate Ready(env: Env)
  {
    && LB.Valid(env.lb) && |env.lb.servers| > 0
    && !(env.lb.algorithm == LB.WeightedRoundRobin && LB.HasZeroWeight(env.lb.servers))
    && BorderSwitch in env.switches && ActionsWellFormed(env.switches[BorderSwitch])
  }

  lemma InitialEnvIsReady()
    ensures Ready(InitialEnv())
  {
    var env := InitialEnv();
    assert |env.lb.servers| > 0 && env.lb.algorithm == LB.RoundRobin by {
      assert env.lb.servers == Deployment.StartupServers();
    }
    assert BorderSwitch in env.switches by {
      assert BorderSwitch in SwitchNames;
    }
    assert ActionsWellFormed(env.switches[BorderSwitch]) by {
      assert env.switches[BorderSwitch] == NewMockSwitch(BorderSwitch);
    }
  }

  /** Serving through a ready switch with a known tag succeeds and keeps
      the environment ready. */
  lemma ServeSucceeds(env: Env, lb: LB.LoadBalancer, server: LB.Server, clientIp: string, videoName: string, tag: string, now: real)
    requires LB.Valid(lb) && server.id in lb.serverStats && |lb.servers| > 0
    requires !(lb.algorithm == LB.WeightedRoundRobin && LB.HasZeroWeight(lb.servers))
    requires BorderSwitch in env.switches && ActionsWellFormed(env.switches[BorderSwitch])
    requires QualityTag(videoName) == Ok(tag) && (tag == LB.Auto || tag in LB.Tiers)
    ensures var r := Serve(env, lb, server, clientIp, videoName, now);
            r.succeeded && Ready(r.env)
  {
    var forwarded := ForwardRequest(env.switches[BorderSwitch], MacFromIp(clientIp), MacFromIp(server.ip), videoName, now);
    assert forwarded.result.Ok? && ActionsWellFormed(forwarded.sw);
    var recorded := RecordRequest(lb, server.id, videoName, now);
    assert recorded == LB.UpdateServerStats(lb, server.id, SimulatedBandwidth, SimulatedResponseTime, tag, now);
    LB.UpdateKeepsRegistry(lb, server.id, SimulatedBandwidth, SimulatedResponseTime, tag, now);
    var served := Serve(env, lb, server, clientIp, videoName, now);
    assert served == Outcome(env.(lb := recorded.lb, switches := env.switches[BorderSwitch := forwarded.sw]), true);
  }

  /** In a ready environment a request for `prefix_tag.ext` with a known
      quality tag succeeds, and the environment stays ready. */
  lemma RequestSucceeds(env: Env, clientIp: string, prefix: string, tag: string, ext: string, pick: nat, now: real)
    requires Ready(env)
    requires '_' !in prefix && '_' !in tag && '.' !in tag
    requires tag == LB.Auto || tag in LB.Tiers
    ensures var r := SimulateRequest(env, clientIp, prefix + "_" + tag + "." + ext, pick, now);
            r.succeeded && Ready(r.env)
  {
    var videoName := prefix + "_" + tag + "." + ext;
    QualityTagOf(prefix, tag, ext);
    var sel := LB.GetNextServer(env.lb, pick);
    assert sel.result.Ok?;
    var server := sel.lb.servers[sel.result.value];
    assert server.id in sel.lb.serverStats by {
      assert server.id in LB.Ids(sel.lb.servers);
    }
    ServeSucceeds(env, sel.lb, server, clientIp, videoName, tag, now);
    assert SimulateRequest(env, clientIp, videoName, pick, now) == Serve(env, sel.lb, server, clientIp, videoName, now);
  }

  /** The names `main` asks for, in order: the three tiers in turn. */
  function DemoVideo(i: nat): (name: string)
    ensures QualityTag(name) == Ok([LB.Low, LB.Medium, LB.High][i % 3])
  {
    var tag := [LB.Low, LB.Medium, LB.High][i % 3];
    QualityTagOf("bbb", tag, "mp4");
    "bbb" + "_" + tag + "." + "mp4"
  }

  /** The `i`-th request of the demonstration, sent by `client`. */
  function DemoRequest(env: Env, client: string, i: nat, now: real): (one: Outcome)
    requires LB.Valid(env.lb)
    ensures LB.Valid(one.env.lb)
  {
    SimulateRequest(env, client, DemoVideo(i), 0, now)
  }

  datatype DemoRun = DemoRun(env: Env, results: seq<bool>)

  /** `main`'s loop: one request per client, the `i`-th asking for
      `DemoVideo(i)`, one second apart. */
  function RunDemo(env: Env, clients: seq<string>, first: nat, now: real): (r: DemoRun)
    requires LB.Valid(env.lb)
    ensures LB.Valid(r.env.lb) && |r.results| == |clients|
    decreases |clients|
  {
    if |clients| == 0 then
      DemoRun(env, [])
    else
      var one := DemoRequest(env, clients[0], first, now);
      var rest := RunDemo(one.env, clients[1..], first + 1, now + 1.0);
      DemoRun(rest.env, [one.succeeded] + rest.results)
  }

  /** Every request of the demonstration succeeds from a ready
      environment and leaves it ready. */
  lemma DemoRequestSucceeds(env: Env, client: string, i: nat, now: real)
    requires Ready(env)
    ensures DemoRequest(env, client, i, now).succeeded
    ensures Ready(DemoRequest(env, client, i, now).env)
  {
    var tag := [LB.Low, LB.Medium, LB.High][i % 3];
    assert tag in LB.Tiers;
    assert DemoVideo(i) == "bbb" + "_" + tag + "." + "mp4";
    RequestSucceeds(env, client, "bbb", tag, "mp4", 0, now);
  }

  /** One step of the run: a successful request, then the rest of the run
      from the environment it leaves behind. */
  lemma DemoStep(env: Env, clients: seq<string>, first: nat, now: real) returns (next: Env)
    requires Ready(env) && |clients| > 0
    ensures Ready(next)
    ensures var rest := RunDemo(next, clients[1..], first + 1, now + 1.0);
            RunDemo(env, clients, first, now) == DemoRun(rest.env, [true] + rest.results)
    ensures var rest := RunDemo(next, clients[1..], first + 1, now + 1.0);
            RunDemo(env, clients, first, now).env == rest.env
            && (false in RunDemo(env, clients, first, now).results <==> false in rest.results)
  {
    DemoRequestSucceeds(env, clients[0], first, now);
    next := DemoRequest(env, clients[0], first, now).env;
    var rest := RunDemo(next, clients[1..], first + 1, now + 1.0);
    NoFailureAdded(rest.results);
  }

  lemma NoFailureAdded(results: seq<bool>)
    ensures false in [true] + results <==> false in results
  {
    if false in results {
      var i :| 0 <= i < |results| && results[i] == false;
      assert ([true] + results)[i + 1] == false;
    }
  }

  /** From a ready environment, and so from the initial one, every request
      of the demonstration succeeds. */
  lemma {:induction false} DemoSucceeds(env: Env, clients: seq<string>, first: nat, now: real)
    requires Ready(env)
    ensures false !in RunDemo(env, clients, first, now).results
    ensures Ready(RunDemo(env, clients, first, now).env)
    decreases |clients|
  {
    if |clients| > 0 {
      var next := DemoStep(env, clients, first, now);
      DemoSucceeds(next, clients[1..], first + 1, now + 1.0);
    }
  }

}
