/** The backends both the controller and the test environment register at
    start-up: four servers on the 10.0.N.0 subnets, equal weights. */
module Deployment {
  import LB = LoadBalancing

  /** The four backends registered at start-up: `serverN` at `10.0.N.2`,
      each with weight 1. */
  function StartupServers(): (servers: seq<LB.Server>)
    ensures |servers| == 4
    ensures forall i :: 0 <= i < 4 ==> servers[i] == LB.NewServer(ServerName(i), ServerAddress(i), 1)
  {
    [LB.NewServer("server1", "10.0.1.2", 1),
     LB.NewServer("server2", "10.0.2.2", 1),
     LB.NewServer("server3", "10.0.3.2", 1),
     LB.NewServer("server4", "10.0.4.2", 1)]
  }

  function Digit(i: nat): char
    requires i < 10
  {
    "0123456789"[i]
  }

  function ServerName(i: nat): string
    requires i < 9
  {
    "server" + [Digit(i + 1)]
  }

  function ServerAddress(i: nat): string
    requires i < 9
  {
    "10.0." + [Digit(i + 1)] + ".2"
  }

  /** A fresh policy engine holding the start-up backends in order. */
  function StartupRegistry(algorithm: LB.Algorithm): (lb: LB.LoadBalancer)
    ensures LB.Valid(lb)
    ensures lb.algorithm == algorithm && lb.servers == StartupServers() && lb.currentIndex == 0
    ensures forall id :: id in lb.serverStats ==> lb.serverStats[id] == LB.FreshStats()
  {
    var empty := LB.NewLoadBalancer(algorithm);
    assert empty.servers + StartupServers() == StartupServers();
    LB.AddServers(empty, StartupServers())
  }
}
