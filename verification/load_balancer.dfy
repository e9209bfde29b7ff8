/** The backend-selection policy engine and its statistics model
    (`controller/load_balancer.py`).

    A `LoadBalancer` is an immutable value; every operation returns the new
    value together with what the Python method returned or raised. A server
    handed back by `get_next_server` is identified by its position in the
    registry, because the source returns the registered object itself.
    Wall-clock time enters as the parameter `now`, the random choice as the
    parameter `pick`, and floating-point numbers are modelled as `real`.
 */
module LoadBalancing {
  import opened Outcomes

  datatype Algorithm =
    | Random
    | RoundRobin
    | WeightedRoundRobin
    | BandwidthAware
    | RequestDemand

  datatype Server = Server(
    id: string,
    ip: string,
    weight: int,
    currentConnections: int,
    bandwidthUsage: real,
    lastRequestTime: real,
    videoQuality: string,
    responseTime: real)

  const Auto: string := "auto"
  const Low: string := "320p"
  const Medium: string := "480p"
  const High: string := "720p"
  const Tiers: set<string> := {Low, Medium, High}

  /** The per-server statistics record kept in `server_stats`. */
  datatype Stats = Stats(
    requestsHandled: int,
    totalBandwidth: real,
    averageResponseTime: real,
    videoQualities: map<string, int>)

  datatype LoadBalancer = LoadBalancer(
    algorithm: Algorithm,
    servers: seq<Server>,
    currentIndex: nat,
    serverStats: map<string, Stats>)

  /** A new state together with the return value or the escaped exception. */
  datatype Step<+T> = Step(lb: LoadBalancer, result: Result<T>)

  const NoServersMessage: string := "No servers available"

  /** A server as the dataclass builds it from `id`, `ip` and `weight`. */
  function NewServer(id: string, ip: string, weight: int): (s: Server)
    ensures s.id == id && s.ip == ip && s.weight == weight
    ensures s.currentConnections == 0 && s.bandwidthUsage == 0.0 && s.responseTime == 0.0
    ensures s.lastRequestTime == 0.0 && s.videoQuality == Auto
  {
    Server(id, ip, weight, 0, 0.0, 0.0, Auto, 0.0)
  }

  /** The statistics record `add_server` creates: no requests, zero counters. */
  function FreshStats(): (st: Stats)
    ensures st.requestsHandled == 0 && st.totalBandwidth == 0.0 && st.averageResponseTime == 0.0
    ensures st.videoQualities.Keys == Tiers
    ensures forall q :: q in st.videoQualities ==> st.videoQualities[q] == 0
  {
    Stats(0, 0.0, 0.0, map[Low := 0, Medium := 0, High := 0])
  }

  function Ids(servers: seq<Server>): set<string>
  {
    set i | 0 <= i < |servers| :: servers[i].id
  }

  predicate WellFormedStats(st: Stats)
  {
    st.requestsHandled >= 0 && st.videoQualities.Keys == Tiers
  }

  /** The invariant every state reachable through the public operations
      keeps: the rotation index is a valid position (or 0 while the registry
      is empty), there is a statistics entry exactly for the registered ids,
      and every entry has a non-negative request count and one counter per
      tier. */
  predicate Valid(lb: LoadBalancer)
  {
    && (lb.currentIndex == 0 || lb.currentIndex < |lb.servers|)
    && lb.serverStats.Keys == Ids(lb.servers)
    && forall id :: id in lb.serverStats ==> WellFormedStats(lb.serverStats[id])
  }

  /** Position of the first registered server with the given id, as found by
      `next(s for s in self.servers if s.id == server_id)`. */
  function Locate(servers: seq<Server>, id: string): (k: nat)
    requires id in Ids(servers)
    ensures k < |servers| && servers[k].id == id
    ensures forall j :: 0 <= j < k ==> servers[j].id != id
  {
    if servers[0].id == id then
      0
    else
      assert id in Ids(servers[1..]) by {
        var i :| 0 <= i < |servers| && servers[i].id == id;
        assert servers[1..][i - 1] == servers[i];
      }
      1 + Locate(servers[1..], id)
  }

  /** `LoadBalancer(algorithm)`: empty registry, index 0. */
  function NewLoadBalancer(algorithm: Algorithm): (lb: LoadBalancer)
    ensures Valid(lb)
    ensures lb.algorithm == algorithm && lb.servers == [] && lb.currentIndex == 0
  {
    LoadBalancer(algorithm, [], 0, map[])
  }

  /** `add_server`: append to the registry and (re)create the statistics
      entry for the id. A second server with an id already registered resets
      that id's statistics. */
  function AddServer(lb: LoadBalancer, server: Server): (r: LoadBalancer)
    requires Valid(lb)
    ensures Valid(r)
    ensures r.servers == lb.servers + [server]
    ensures r.algorithm == lb.algorithm && r.currentIndex == lb.currentIndex
    ensures r.serverStats.Keys == lb.serverStats.Keys + {server.id}
    ensures r.serverStats[server.id] == FreshStats()
    ensures forall id :: id in lb.serverStats && id != server.id ==> r.serverStats[id] == lb.serverStats[id]
  {
    var servers := lb.servers + [server];
    assert Ids(servers) == Ids(lb.servers) + {server.id} by {
      forall id | id in Ids(servers) ensures id in Ids(lb.servers) + {server.id} {
        var i :| 0 <= i < |servers| && servers[i].id == id;
        if i < |lb.servers| {
          assert lb.servers[i] == servers[i];
        }
      }
      forall id | id in Ids(lb.servers) ensures id in Ids(servers) {
        var i :| 0 <= i < |lb.servers| && lb.servers[i].id == id;
        assert servers[i] == lb.servers[i];
      }
      assert servers[|lb.servers|] == server;
    }
    lb.(servers := servers, serverStats := lb.serverStats[server.id := FreshStats()])
  }

  /** Registering a list of servers one after the other. */
  function AddServers(lb: LoadBalancer, servers: seq<Server>): (r: LoadBalancer)
    requires Valid(lb)
    ensures Valid(r)
    ensures r.servers == lb.servers + servers
    ensures r.algorithm == lb.algorithm && r.currentIndex == lb.currentIndex
    ensures r.serverStats.Keys == lb.serverStats.Keys + Ids(servers)
    ensures forall i :: 0 <= i < |servers| ==> r.serverStats[servers[i].id] == FreshStats()
    ensures forall id :: id in lb.serverStats && id !in Ids(servers) ==> r.serverStats[id] == lb.serverStats[id]
    decreases |servers|
  {
    if |servers| == 0 then
      assert lb.servers + servers == lb.servers;
      lb
    else
      var first := AddServer(lb, servers[0]);
      var r := AddServers(first, servers[1..]);
      StatsAfterRegistering(lb.serverStats, first.serverStats, r.serverStats, servers);
      AppendInTwoSteps(lb.servers, servers);
      r
  }

  lemma AppendInTwoSteps(a: seq<Server>, b: seq<Server>)
    requires |b| > 0
    ensures a + [b[0]] + b[1..] == a + b
  {
    assert b == [b[0]] + b[1..];
  }

  /** Bookkeeping for `AddServers`: registering the head and then the tail
      leaves the statistics the whole list should leave. */
  lemma StatsAfterRegistering(before: map<string, Stats>, mid: map<string, Stats>, after: map<string, Stats>, servers: seq<Server>)
    requires |servers| > 0
    requires mid.Keys == before.Keys + {servers[0].id} && mid[servers[0].id] == FreshStats()
    requires forall id :: id in before && id != servers[0].id ==> mid[id] == before[id]
    requires after.Keys == mid.Keys + Ids(servers[1..])
    requires forall i :: 0 <= i < |servers[1..]| ==> after[servers[1..][i].id] == FreshStats()
    requires forall id :: id in mid && id !in Ids(servers[1..]) ==> after[id] == mid[id]
    ensures after.Keys == before.Keys + Ids(servers)
    ensures forall i :: 0 <= i < |servers| ==> after[servers[i].id] == FreshStats()
    ensures forall id :: id in before && id !in Ids(servers) ==> after[id] == before[id]
  {
    IdsOfCons(servers);
    forall i | 0 <= i < |servers| ensures after[servers[i].id] == FreshStats() {
      if i > 0 {
        assert servers[i] == servers[1..][i - 1];
      } else if servers[0].id in Ids(servers[1..]) {
        var j :| 0 <= j < |servers[1..]| && servers[1..][j].id == servers[0].id;
      }
    }
  }

  lemma IdsOfCons(servers: seq<Server>)
    requires |servers| > 0
    ensures Ids(servers) == {servers[0].id} + Ids(servers[1..])
  {
    forall id | id in Ids(servers) ensures id in {servers[0].id} + Ids(servers[1..]) {
      var i :| 0 <= i < |servers| && servers[i].id == id;
      if i > 0 { assert servers[1..][i - 1] == servers[i]; }
    }
    forall id | id in Ids(servers[1..]) ensures id in Ids(servers) {
      var i :| 0 <= i < |servers[1..]| && servers[1..][i].id == id;
      assert servers[i + 1] == servers[1..][i];
    }
  }

  /* ---------------------------------------------------------------------
     Selection by minimum key
     --------------------------------------------------------------------- */

  /** A selection key, compared lexicographically. Single-number keys use
      `minor == 0`; the request-demand key is the Python tuple
      `(current_connections, response_time)`. */
  datatype Key = Key(major: real, minor: real)

  /** Python's `<` on the key. */
  predicate Less(a: Key, b: Key)
  {
    a.major < b.major || (a.major == b.major && a.minor < b.minor)
  }

  function WeightKey(s: Server): Key
    requires s.weight != 0
  {
    Key(s.currentConnections as real / s.weight as real, 0.0)
  }

  function BandwidthKey(s: Server): Key
  {
    Key(s.bandwidthUsage, 0.0)
  }

  function DemandKey(s: Server): Key
  {
    Key(s.currentConnections as real, s.responseTime)
  }

  predicate HasZeroWeight(servers: seq<Server>)
  {
    exists i :: 0 <= i < |servers| && servers[i].weight == 0
  }

  /** The keys the Python key function computes for the registry, in order.
      Dividing by a zero weight raises before any key is compared, so the
      weighted key is only defined when no weight is zero. */
  function Keys(algorithm: Algorithm, servers: seq<Server>): (keys: seq<Key>)
    requires algorithm == WeightedRoundRobin ==> !HasZeroWeight(servers)
    ensures |keys| == |servers|
  {
    match algorithm
    case WeightedRoundRobin => seq(|servers|, i requires 0 <= i < |servers| => WeightKey(servers[i]))
    case BandwidthAware => seq(|servers|, i requires 0 <= i < |servers| => BandwidthKey(servers[i]))
    case _ => seq(|servers|, i requires 0 <= i < |servers| => DemandKey(servers[i]))
  }

  /** `i` is the position `min` returns (and the head of a stable sort):
      no key is smaller than the one at `i`, and every earlier key is
      strictly larger. */
  predicate IsFirstMin(keys: seq<Key>, i: int)
  {
    && 0 <= i < |keys|
    && (forall j :: 0 <= j < |keys| ==> !Less(keys[j], keys[i]))
    && (forall j :: 0 <= j < i ==> Less(keys[i], keys[j]))
  }

  /** Python's `min` loop: keep the current best and replace it only by a
      strictly smaller key. */
  function MinScan(keys: seq<Key>, i: nat, best: nat): (r: nat)
    requires best < i <= |keys|
    requires forall j :: 0 <= j < i ==> !Less(keys[j], keys[best])
    requires forall j :: 0 <= j < best ==> Less(keys[best], keys[j])
    ensures IsFirstMin(keys, r)
    decreases |keys| - i
  {
    if i == |keys| then
      best
    else if Less(keys[i], keys[best]) then
      assert forall j :: 0 <= j < i ==> !Less(keys[j], keys[i]) && Less(keys[i], keys[j]) by {
        forall j | 0 <= j < i ensures !Less(keys[j], keys[i]) && Less(keys[i], keys[j]) {
          assert !Less(keys[j], keys[best]);
        }
      }
      MinScan(keys, i + 1, i)
    else
      MinScan(keys, i + 1, best)
  }

  function FirstMin(keys: seq<Key>): (r: nat)
    requires |keys| > 0
    ensures IsFirstMin(keys, r)
  {
    MinScan(keys, 1, 0)
  }

  /** `get_next_server`: the position of the chosen server and the new state.
      An empty registry raises ValueError; a zero weight makes the weighted
      key divide by zero. */
  function GetNextServer(lb: LoadBalancer, pick: nat): (r: Step<nat>)
    requires Valid(lb)
    ensures Valid(r.lb)
    ensures r.lb.servers == lb.servers && r.lb.serverStats == lb.serverStats
    ensures r.lb.algorithm == lb.algorithm
    ensures lb.algorithm != RoundRobin || r.result.Raised? ==> r.lb == lb
    ensures |lb.servers| == 0 <==> r.result == Raised(ValueError(NoServersMessage))
    ensures r.result.Raised? <==>
              |lb.servers| == 0 || (lb.algorithm == WeightedRoundRobin && HasZeroWeight(lb.servers))
    ensures r.result.Ok? ==> r.result.value < |lb.servers|
    ensures r.result.Ok? && lb.algorithm == Random ==> r.result.value == pick % |lb.servers|
    ensures r.result.Ok? && lb.algorithm == RoundRobin ==>
              && r.result.value == lb.currentIndex
              && r.lb.currentIndex == (lb.currentIndex + 1) % |lb.servers|
    ensures r.result.Ok? && lb.algorithm in {WeightedRoundRobin, BandwidthAware, RequestDemand} ==>
              IsFirstMin(Keys(lb.algorithm, lb.servers), r.result.value)
  {
    var n := |lb.servers|;
    if n == 0 then
      Step(lb, Raised(ValueError(NoServersMessage)))
    else
      match lb.algorithm
      case Random =>
        Step(lb, Ok(pick % n))
      case RoundRobin =>
        Step(lb.(currentIndex := (lb.currentIndex + 1) % n), Ok(lb.currentIndex))
      case WeightedRoundRobin =>
        if HasZeroWeight(lb.servers) then Step(lb, Raised(ZeroDivisionError))
        else Step(lb, Ok(FirstMin(Keys(WeightedRoundRobin, lb.servers))))
      case BandwidthAware =>
        Step(lb, Ok(FirstMin(Keys(BandwidthAware, lb.servers))))
      case RequestDemand =>
        Step(lb, Ok(FirstMin(Keys(RequestDemand, lb.servers))))
  }

  /* ---------------------------------------------------------------------
     Statistics
     --------------------------------------------------------------------- */

  /** The sum of all response times a statistics entry has averaged. */
  function ResponseTimeSum(st: Stats): real
  {
    st.averageResponseTime * st.requestsHandled as real
  }

  /** The first three writes of `update_server_stats` to the statistics
      entry: one more request, the bandwidth added, and the incremental mean
      recomputed so that `average * count` grows by the new response time. */
  function RecordRequest(st: Stats, bandwidth: real, responseTime: real): (r: Stats)
    requires WellFormedStats(st)
    ensures WellFormedStats(r)
    ensures r.requestsHandled == st.requestsHandled + 1
    ensures r.totalBandwidth == st.totalBandwidth + bandwidth
    ensures ResponseTimeSum(r) == ResponseTimeSum(st) + responseTime
    ensures r.videoQualities == st.videoQualities
  {
    var n := st.requestsHandled + 1;
    MeanStep(st.averageResponseTime, st.requestsHandled, responseTime);
    st.(requestsHandled := n,
        totalBandwidth := st.totalBandwidth + bandwidth,
        averageResponseTime := (st.averageResponseTime * (n - 1) as real + responseTime) / n as real)
  }

  /** The tier counter increment of `update_server_stats`; "auto" counts
      nothing. */
  function Tally(st: Stats, quality: string): (r: Stats)
    requires WellFormedStats(st) && (quality == Auto || quality in Tiers)
    ensures WellFormedStats(r)
    ensures r.requestsHandled == st.requestsHandled && r.totalBandwidth == st.totalBandwidth
    ensures r.averageResponseTime == st.averageResponseTime
    ensures ResponseTimeSum(r) == ResponseTimeSum(st)
    ensures forall q :: q in Tiers ==>
              r.videoQualities[q] == st.videoQualities[q] + (if q == quality then 1 else 0)
  {
    if quality == Auto then st
    else st.(videoQualities := st.videoQualities[quality := st.videoQualities[quality] + 1])
  }

  /** `after` is `before` with one more request of the given bandwidth,
      response time and tier counted; a tier without a counter counts
      nowhere. */
  predicate CountsOneRequest(before: Stats, after: Stats, bandwidth: real, responseTime: real, quality: string)
    requires WellFormedStats(before) && WellFormedStats(after)
  {
    && after.requestsHandled == before.requestsHandled + 1
    && after.totalBandwidth == before.totalBandwidth + bandwidth
    && ResponseTimeSum(after) == ResponseTimeSum(before) + responseTime
    && forall q :: q in Tiers ==>
         after.videoQualities[q] == before.videoQualities[q] + (if q == quality then 1 else 0)
  }

  /** The server fields `update_server_stats` writes. */
  function Touch(s: Server, bandwidth: real, responseTime: real, quality: string, now: real): Server
  {
    s.(currentConnections := s.currentConnections + 1,
       bandwidthUsage := s.bandwidthUsage + bandwidth,
       responseTime := responseTime,
       lastRequestTime := now,
       videoQuality := quality)
  }

  /** `update_server_stats`. An unknown id is ignored. For a known id the
      statistics entry is updated first (request count, bandwidth, running
      mean), then the tier counter, then the first server with that id. A
      tier other than "auto" that has no counter raises KeyError after the
      first three statistics fields were already written. */
  function UpdateServerStats(lb: LoadBalancer, id: string, bandwidth: real, responseTime: real,
                             quality: string, now: real): (r: Step<()>)
    requires Valid(lb)
    ensures Valid(r.lb)
    ensures r.lb.algorithm == lb.algorithm && r.lb.currentIndex == lb.currentIndex
    ensures r.lb.serverStats.Keys == lb.serverStats.Keys && |r.lb.servers| == |lb.servers|
    ensures id !in lb.serverStats ==> r == Step(lb, Ok(()))
    ensures r.result.Ok? <==> id !in lb.serverStats || quality == Auto || quality in Tiers
    ensures r.result.Raised? ==> r.result.error == KeyError && r.lb.servers == lb.servers
    ensures forall other :: other in lb.serverStats && other != id ==>
              r.lb.serverStats[other] == lb.serverStats[other]
    ensures id in lb.serverStats ==>
              CountsOneRequest(lb.serverStats[id], r.lb.serverStats[id], bandwidth, responseTime, quality)
    ensures id in lb.serverStats && r.result.Ok? ==>
              var k := Locate(lb.servers, id);
              r.lb.servers == lb.servers[k := Touch(lb.servers[k], bandwidth, responseTime, quality, now)]
  {
    if id !in lb.serverStats then
      Step(lb, Ok(()))
    else
      var k := Locate(lb.servers, id);
      var counted := RecordRequest(lb.serverStats[id], bandwidth, responseTime);
      if quality != Auto && quality !in counted.videoQualities then
        var partial := lb.(serverStats := lb.serverStats[id := counted]);
        StoreKeepsValid(lb, id, counted);
        assert CountsOneRequest(lb.serverStats[id], counted, bandwidth, responseTime, quality);
        Step(partial, Raised(KeyError))
      else
        var stored := lb.(serverStats := lb.serverStats[id := Tally(counted, quality)]);
        StoreKeepsValid(lb, id, Tally(counted, quality));
        assert CountsOneRequest(lb.serverStats[id], Tally(counted, quality), bandwidth, responseTime, quality);
        var touched := Touch(lb.servers[k], bandwidth, responseTime, quality, now);
        TouchKeepsValid(stored, k, touched);
        Step(stored.(servers := stored.servers[k := touched]), Ok(()))
  }

  /** For a registered id and a countable tier, exactly one server changes:
      the first one registered under the id gains a connection and the
      bandwidth, and takes the reported response time, the time of the call
      and the tier; its identity, address and weight stay. */
  lemma UpdateTouchesOneServer(lb: LoadBalancer, id: string, bandwidth: real, responseTime: real,
                               quality: string, now: real)
    requires Valid(lb) && id in lb.serverStats && (quality == Auto || quality in Tiers)
    ensures var r := UpdateServerStats(lb, id, bandwidth, responseTime, quality, now);
            var k := Locate(lb.servers, id);
            var before, after := lb.servers[k], r.lb.servers[k];
            && r.result == Ok(())
            && after.id == id && after.ip == before.ip && after.weight == before.weight
            && after.currentConnections == before.currentConnections + 1
            && after.bandwidthUsage == before.bandwidthUsage + bandwidth
            && after.responseTime == responseTime && after.lastRequestTime == now && after.videoQuality == quality
            && forall i :: 0 <= i < |lb.servers| && i != k ==> r.lb.servers[i] == lb.servers[i]
  {
    var k := Locate(lb.servers, id);
    var servers := UpdateServerStats(lb, id, bandwidth, responseTime, quality, now).lb.servers;
    assert servers == lb.servers[k := Touch(lb.servers[k], bandwidth, responseTime, quality, now)];
  }

  /** Replacing the statistics entry of a registered id by a well-formed one
      keeps the invariant. */
  lemma StoreKeepsValid(lb: LoadBalancer, id: string, st: Stats)
    requires Valid(lb) && id in lb.serverStats && WellFormedStats(st)
    ensures Valid(lb.(serverStats := lb.serverStats[id := st]))
  {
    assert lb.serverStats[id := st].Keys == lb.serverStats.Keys;
  }

  /** Two registries list the same servers, by id, address and weight, in
      the same order; only the load figures may differ. */
  predicate SameRegistry(a: seq<Server>, b: seq<Server>)
  {
    && |a| == |b|
    && forall i :: 0 <= i < |a| ==> a[i].id == b[i].id && a[i].ip == b[i].ip && a[i].weight == b[i].weight
  }

  /** Registries that agree on weights agree on whether a weight is zero. */
  lemma SameRegistryZeroWeight(a: seq<Server>, b: seq<Server>)
    requires SameRegistry(a, b)
    ensures HasZeroWeight(a) == HasZeroWeight(b)
  {
    if HasZeroWeight(a) {
      var i :| 0 <= i < |a| && a[i].weight == 0;
      assert b[i].weight == 0;
    }
    if HasZeroWeight(b) {
      var i :| 0 <= i < |b| && b[i].weight == 0;
      assert a[i].weight == 0;
    }
  }

  /** Statistics updates change load figures only: the registry, and with
      it which selections can fail, stays the same. */
  lemma UpdateKeepsRegistry(lb: LoadBalancer, id: string, bandwidth: real, responseTime: real, quality: string, now: real)
    requires Valid(lb)
    ensures var r := UpdateServerStats(lb, id, bandwidth, responseTime, quality, now).lb;
            && SameRegistry(lb.servers, r.servers)
            && r.algorithm == lb.algorithm
            && HasZeroWeight(r.servers) == HasZeroWeight(lb.servers)
  {
    var step := UpdateServerStats(lb, id, bandwidth, responseTime, quality, now);
    if id in lb.serverStats && step.result.Ok? {
      var k := Locate(lb.servers, id);
      ReplaceKeepsRegistry(lb.servers, k, Touch(lb.servers[k], bandwidth, responseTime, quality, now));
    } else {
      assert step.lb.servers == lb.servers;
    }
    SameRegistryZeroWeight(lb.servers, step.lb.servers);
  }

  /** Replacing one entry by a server with the same id, address and weight
      keeps the registry. */
  lemma ReplaceKeepsRegistry(servers: seq<Server>, k: nat, s: Server)
    requires k < |servers|
    requires s.id == servers[k].id && s.ip == servers[k].ip && s.weight == servers[k].weight
    ensures SameRegistry(servers, servers[k := s])
  {
  }

  /** Replacing a server by one with the same id keeps the invariant. */
  lemma TouchKeepsValid(lb: LoadBalancer, k: nat, s: Server)
    requires Valid(lb) && k < |lb.servers| && s.id == lb.servers[k].id
    ensures Valid(lb.(servers := lb.servers[k := s]))
  {
    SameIds(lb.servers, lb.servers[k := s]);
  }

  /** The incremental-mean formula keeps `average * count` equal to the sum
      of the response times seen. */
  lemma MeanStep(average: real, count: int, responseTime: real)
    requires count >= 0
    ensures ((average * count as real + responseTime) / (count + 1) as real) * (count + 1) as real
            == average * count as real + responseTime
  {
  }

  /** Registries that agree on every id have the same id set. */
  lemma SameIds(a: seq<Server>, b: seq<Server>)
    requires |a| == |b|
    requires forall i :: 0 <= i < |a| ==> a[i].id == b[i].id
    ensures Ids(a) == Ids(b)
  {
    forall id | id in Ids(a) ensures id in Ids(b) {
      var i :| 0 <= i < |a| && a[i].id == id;
      assert b[i].id == id;
    }
    forall id | id in Ids(b) ensures id in Ids(a) {
      var i :| 0 <= i < |b| && b[i].id == id;
      assert a[i].id == id;
    }
  }

  /** The tier `get_optimal_quality` recommends for a server's live figures. */
  function TierFor(s: Server): (tier: string)
    ensures tier in Tiers
    ensures tier == Low <==> s.currentConnections > 5 || s.bandwidthUsage > 10.0
    ensures tier == High <==>
              !(s.currentConnections > 5 || s.bandwidthUsage > 10.0)
              && s.responseTime < 100.0 && s.currentConnections < 3
  {
    if s.currentConnections > 5 || s.bandwidthUsage > 10.0 then Low
    else if s.responseTime < 100.0 && s.currentConnections < 3 then High
    else Medium
  }

  /** `get_optimal_quality`: "auto" for an unknown id, otherwise the tier
      for the first server registered under that id. */
  function GetOptimalQuality(lb: LoadBalancer, id: string): (tier: string)
    requires Valid(lb)
    ensures tier == Auto <==> id !in lb.serverStats
    ensures id in lb.serverStats ==> tier == TierFor(lb.servers[Locate(lb.servers, id)])
  {
    if id !in lb.serverStats then Auto else TierFor(lb.servers[Locate(lb.servers, id)])
  }

  /** The ranking the source keeps in `quality_weights`. */
  function QualityWeight(tier: string): (w: int)
    requires tier in Tiers
    ensures 1 <= w <= 3
  {
    if tier == Low then 1 else if tier == Medium then 2 else 3
  }

  /** More load never earns a better tier: a server with at least as many
      connections, at least as much bandwidth and at least as slow a
      response is recommended a tier no higher. */
  lemma TierDegradesWithLoad(s: Server, t: Server)
    requires s.currentConnections <= t.currentConnections
    requires s.bandwidthUsage <= t.bandwidthUsage
    requires s.responseTime <= t.responseTime
    ensures QualityWeight(TierFor(t)) <= QualityWeight(TierFor(s))
  {
  }

  /** `cleanup_old_connections`: every server idle for longer than `timeout`
      seconds at time `now` loses one connection, never going below zero. */
  method CleanupOldConnections(lb: LoadBalancer, timeout: int, now: real) returns (r: LoadBalancer)
    ensures r.algorithm == lb.algorithm && r.currentIndex == lb.currentIndex
    ensures r.serverStats == lb.serverStats
    ensures |r.servers| == |lb.servers|
    ensures forall i :: 0 <= i < |lb.servers| ==>
              var s := lb.servers[i];
              && r.servers[i] == s.(currentConnections := r.servers[i].currentConnections)
              && r.servers[i].currentConnections
                 == (if now - s.lastRequestTime > timeout as real
                     then (if s.currentConnections - 1 > 0 then s.currentConnections - 1 else 0)
                     else s.currentConnections)
    ensures Valid(lb) ==> Valid(r)
  {
    var servers := lb.servers;
    var i := 0;
    while i < |servers|
      invariant 0 <= i <= |servers| == |lb.servers|
      invariant forall j :: i <= j < |servers| ==> servers[j] == lb.servers[j]
      invariant forall j :: 0 <= j < i ==>
                  var s := lb.servers[j];
                  && servers[j] == s.(currentConnections := servers[j].currentConnections)
                  && servers[j].currentConnections
                     == (if now - s.lastRequestTime > timeout as real
                         then (if s.currentConnections - 1 > 0 then s.currentConnections - 1 else 0)
                         else s.currentConnections)
    {
      var s := servers[i];
      if now - s.lastRequestTime > timeout as real {
        var c := if s.currentConnections - 1 > 0 then s.currentConnections - 1 else 0;
        servers := servers[i := s.(currentConnections := c)];
      }
      i := i + 1;
    }
    SameIds(lb.servers, servers);
    r := lb.(servers := servers);
  }

  /* ---------------------------------------------------------------------
     Properties relating several calls
     --------------------------------------------------------------------- */

  /** Every registered server can be the random choice. */
  lemma RandomReachesEveryServer(lb: LoadBalancer, i: nat)
    requires Valid(lb) && lb.algorithm == Random && i < |lb.servers|
    ensures GetNextServer(lb, i) == Step(lb, Ok(i))
  {
  }

  /** The positions `k` consecutive round-robin calls return. */
  function Rotation(lb: LoadBalancer, k: nat): (picks: seq<nat>)
    requires Valid(lb) && lb.algorithm == RoundRobin && |lb.servers| > 0
    ensures |picks| == k
    decreases k
  {
    if k == 0 then []
    else
      var step := GetNextServer(lb, 0);
      [step.result.value] + Rotation(step.lb, k - 1)
  }

  /** Round-robin walks the registry cyclically from the current index. */
  lemma {:induction false} RoundRobinCycles(lb: LoadBalancer, k: nat)
    requires Valid(lb) && lb.algorithm == RoundRobin && |lb.servers| > 0
    ensures forall j :: 0 <= j < k ==> Rotation(lb, k)[j] == (lb.currentIndex + j) % |lb.servers|
    decreases k
  {
    if k > 0 {
      var n := |lb.servers|;
      var step := GetNextServer(lb, 0);
      var rest := Rotation(step.lb, k - 1);
      RoundRobinCycles(step.lb, k - 1);
      assert Rotation(lb, k) == [lb.currentIndex] + rest;
      CyclePrepend(lb.currentIndex, step.lb.currentIndex, n, rest);
    }
  }

  /** Prepending the current index to the rotation that starts at the next
      index gives the rotation that starts at the current one. */
  lemma CyclePrepend(index: int, next: int, n: int, rest: seq<nat>)
    requires 0 <= index < n && next == (index + 1) % n
    requires forall j :: 0 <= j < |rest| ==> rest[j] == (next + j) % n
    ensures forall j :: 0 <= j < |rest| + 1 ==> ([index] + rest)[j] == (index + j) % n
  {
    assert (index + 0) % n == index;
    forall j | 1 <= j < |rest| + 1 ensures ([index] + rest)[j] == (index + j) % n {
      ModNext(index, j, n);
    }
  }

  /** One rotation step followed by `j - 1` more lands where `j` steps from
      the start land. */
  lemma ModNext(a: int, j: int, n: int)
    requires 0 <= a < n && j >= 1
    ensures ((a + 1) % n + (j - 1)) % n == (a + j) % n
  {
    if a + 1 == n {
      assert (a + 1) % n == 0;
      ModAddPeriod(j - 1, n);
    } else {
      assert (a + 1) % n == a + 1;
    }
  }

  lemma MulAtLeast(d: int, n: int)
    requires d >= 1 && n > 0
    ensures d * n >= n
  {
  }

  /** Adding the modulus does not change a Euclidean remainder. */
  lemma ModAddPeriod(x: int, n: int)
    requires n > 0
    ensures (x + n) % n == x % n
  {
    var q, r := x / n, x % n;
    var q2, r2 := (x + n) / n, (x + n) % n;
    var d := q + 1 - q2;
    assert d * n == r2 - r;
    if d >= 1 {
      MulAtLeast(d, n);
    }
    if d <= -1 {
      MulAtLeast(-d, n);
    }
  }

  /** From a fresh rotation, `n + 1` calls over `n` servers return every
      server once in registration order and then the first one again. */
  lemma RoundRobinFullTurn(lb: LoadBalancer)
    requires Valid(lb) && lb.algorithm == RoundRobin && |lb.servers| > 0 && lb.currentIndex == 0
    ensures var turn := Rotation(lb, |lb.servers| + 1);
            turn == Positions(|lb.servers|) + [0]
  {
    var n := |lb.servers|;
    var turn := Rotation(lb, n + 1);
    RoundRobinCycles(lb, n + 1);
    forall j | 0 <= j < n ensures turn[j] == Positions(n)[j] {
      SmallRemainder(j, n);
    }
    SmallRemainder(0, n);
  }

  /** A remainder of a value below the divisor is the value itself. */
  lemma SmallRemainder(j: int, n: int)
    requires 0 <= j < n
    ensures j % n == j && (j + n) % n == j
  {
  }

  /** The positions `0, 1, ..., n - 1` in order. */
  function Positions(n: nat): (r: seq<nat>)
    ensures |r| == n && forall j :: 0 <= j < n ==> r[j] == j
  {
    seq(n, j requires 0 <= j < n => j)
  }

  /** With positive weights, comparing `connections / weight` is comparing
      the cross products, so the selection needs no division. */
  lemma WeightedIsCrossMultiplied(a: Server, b: Server)
    requires a.weight > 0 && b.weight > 0
    ensures Less(WeightKey(a), WeightKey(b))
            <==> a.currentConnections * b.weight < b.currentConnections * a.weight
  {
    var ca, wa := a.currentConnections as real, a.weight as real;
    var cb, wb := b.currentConnections as real, b.weight as real;
    assert ca / wa * (wa * wb) == ca * wb;
    assert cb / wb * (wa * wb) == cb * wa;
    assert (a.currentConnections * b.weight) as real == ca * wb;
    assert (b.currentConnections * a.weight) as real == cb * wa;
    CompareScaled(ca / wa, cb / wb, wa * wb);
  }

  lemma CompareScaled(x: real, y: real, f: real)
    requires f > 0.0
    ensures x < y <==> x * f < y * f
  {
  }

  /** Weighted selection stated on integers: no server has a strictly
      smaller load per weight than the chosen one, and every server before
      it has a strictly larger one. */
  lemma WeightedSelection(lb: LoadBalancer, pick: nat)
    requires Valid(lb) && lb.algorithm == WeightedRoundRobin && |lb.servers| > 0
    requires forall i :: 0 <= i < |lb.servers| ==> lb.servers[i].weight > 0
    ensures GetNextServer(lb, pick).result.Ok?
    ensures var k := GetNextServer(lb, pick).result.value;
            var c := lb.servers[k];
            && (forall j :: 0 <= j < |lb.servers| ==>
                  !(lb.servers[j].currentConnections * c.weight < c.currentConnections * lb.servers[j].weight))
            && (forall j :: 0 <= j < k ==>
                  c.currentConnections * lb.servers[j].weight < lb.servers[j].currentConnections * c.weight)
  {
    var k := GetNextServer(lb, pick).result.value;
    var keys := Keys(WeightedRoundRobin, lb.servers);
    forall j | 0 <= j < |lb.servers|
      ensures !(lb.servers[j].currentConnections * lb.servers[k].weight
                < lb.servers[k].currentConnections * lb.servers[j].weight)
    {
      WeightedIsCrossMultiplied(lb.servers[j], lb.servers[k]);
      assert keys[j] == WeightKey(lb.servers[j]) && keys[k] == WeightKey(lb.servers[k]);
    }
    forall j | 0 <= j < k
      ensures lb.servers[k].currentConnections * lb.servers[j].weight
              < lb.servers[j].currentConnections * lb.servers[k].weight
    {
      WeightedIsCrossMultiplied(lb.servers[k], lb.servers[j]);
      assert keys[j] == WeightKey(lb.servers[j]) && keys[k] == WeightKey(lb.servers[k]);
    }
  }

  /** Server A (weight 2, 2 connections) is preferred over server B
      (weight 1, 2 connections) even when B was registered first. */
  lemma WeightedPrefersLighterLoad(a: Server, b: Server)
    requires a.weight == 2 && a.currentConnections == 2
    requires b.weight == 1 && b.currentConnections == 2
    ensures var lb := LoadBalancer(WeightedRoundRobin, [b, a], 0, map[b.id := FreshStats(), a.id := FreshStats()]);
            Valid(lb) && GetNextServer(lb, 0).result == Ok(1)
  {
    var lb := LoadBalancer(WeightedRoundRobin, [b, a], 0, map[b.id := FreshStats(), a.id := FreshStats()]);
    assert Ids(lb.servers) == {b.id, a.id} by {
      assert lb.servers[0] == b && lb.servers[1] == a;
    }
    var keys := Keys(WeightedRoundRobin, lb.servers);
    assert keys[0] == Key(2.0, 0.0) && keys[1] == Key(1.0, 0.0);
  }

  /* ---------------------------------------------------------------------
     Running mean of response times
     --------------------------------------------------------------------- */

  function Sum(xs: seq<real>): real
  {
    if |xs| == 0 then 0.0 else Sum(xs[..|xs| - 1]) + xs[|xs| - 1]
  }

  /** The state after reporting the response times `rts`, in order, for
      `id` (zero bandwidth, no tier). */
  function Replay(lb: LoadBalancer, id: string, rts: seq<real>, now: real): (r: LoadBalancer)
    requires Valid(lb)
    ensures Valid(r)
    ensures r.serverStats.Keys == lb.serverStats.Keys
    decreases |rts|
  {
    if |rts| == 0 then lb
    else UpdateServerStats(Replay(lb, id, rts[..|rts| - 1], now), id, 0.0, rts[|rts| - 1], Auto, now).lb
  }

  /** Each reported response time adds one to the count and its value to
      `average * count`. */
  lemma {:induction false} ReplayAccumulates(lb: LoadBalancer, id: string, rts: seq<real>, now: real)
    requires Valid(lb) && id in lb.serverStats
    ensures var before := lb.serverStats[id];
            var after := Replay(lb, id, rts, now).serverStats[id];
            && after.requestsHandled == before.requestsHandled + |rts|
            && ResponseTimeSum(after) == ResponseTimeSum(before) + Sum(rts)
    decreases |rts|
  {
    if |rts| > 0 {
      ReplayAccumulates(lb, id, rts[..|rts| - 1], now);
    }
  }

  /** For a server with no requests yet, the running average is exactly the
      arithmetic mean of the reported response times. */
  lemma RunningMeanIsMean(lb: LoadBalancer, id: string, rts: seq<real>, now: real)
    requires Valid(lb) && id in lb.serverStats && lb.serverStats[id].requestsHandled == 0
    requires |rts| > 0
    ensures Replay(lb, id, rts, now).serverStats[id].averageResponseTime == Sum(rts) / |rts| as real
  {
    ReplayAccumulates(lb, id, rts, now);
    MeanFromSum(lb.serverStats[id], Replay(lb, id, rts, now).serverStats[id], |rts|, Sum(rts));
  }

  lemma Divide600By3(avg: real, total: real, n: real)
    requires total == 600.0 && n == 3.0 && avg == total / n
    ensures avg == 200.0
  {
  }

  /** An average recovered from the sum it was kept against, starting from
      an entry with no requests. */
  lemma MeanFromSum(before: Stats, after: Stats, n: nat, total: real)
    requires before.requestsHandled == 0 && n > 0
    requires after.requestsHandled == before.requestsHandled + n
    requires ResponseTimeSum(after) == ResponseTimeSum(before) + total
    ensures after.averageResponseTime == total / n as real
  {
  }

  /** Reporting 100, 200 and 300 gives an average of exactly 200. */
  lemma MeanOfThree(lb: LoadBalancer, id: string, rts: seq<real>, now: real)
    requires Valid(lb) && id in lb.serverStats && lb.serverStats[id].requestsHandled == 0
    requires rts == [100.0, 200.0, 300.0]
    ensures Replay(lb, id, rts, now).serverStats[id].averageResponseTime == 200.0
  {
    RunningMeanIsMean(lb, id, rts, now);
    SumOfThree(rts);
    Divide600By3(Replay(lb, id, rts, now).serverStats[id].averageResponseTime, Sum(rts), |rts| as real);
  }

  lemma SumOfThree(rts: seq<real>)
    requires rts == [100.0, 200.0, 300.0]
    ensures Sum(rts) == 600.0
  {
    assert rts[..2] == [100.0, 200.0];
    assert rts[..2][..1] == [100.0];
    assert rts[..2][..1][..0] == [];
    assert Sum(rts[..2][..1]) == 100.0;
    assert Sum(rts[..2]) == 300.0;
  }
}
