# Video-streaming load balancer: a Dafny model

This project models the decision logic of an SDN video-streaming load
balancer. The system is an OpenFlow controller written for Ryu. It sends
requests to the video-service port (TCP 8000) to one of four backends, which
a policy engine picks. It also has a test environment that replays requests
through simulated switches. Three parts are modelled and proved:

- **The policy engine** (`controller/load_balancer.py`), module
  `LoadBalancing` in `load_balancer.dfy`:
  - the server registry and its per-server statistics;
  - the five selection algorithms (random, round-robin, weighted,
    bandwidth-aware, request-demand);
  - the statistics update with its running mean;
  - the quality-tier recommendation and the connection cleanup.
- **The controller's packet-in logic** (`controller/sdn_controller.py`),
  module `SdnController` in `sdn_controller.dfy`. Each handler is a pure
  function from the controller state and an event to the new state, the
  OpenFlow commands sent (`FlowMod`, `PacketOut`) and the handler's outcome.
  The handlers are:
  - switch connection;
  - source-address learning;
  - classification of video requests;
  - learned forwarding or flooding;
  - the video path.
- **The test environment** (`test/test_environment.py`):
  - the simulated switch, module `MockNetwork` in `mock_switch.dfy`: ordered
    flows with partial matches, first-match lookup, packet and byte counters;
  - `simulate_request` and `main`'s loop, module `TestHarness` in
    `test_environment.dfy`.

Supporting modules:

- `outcomes.dfy` (`Outcomes`) turns a Python exception into a `Raised`
  result. It names the exception class, because the controller catches only
  `ValueError` while the test environment catches everything.
- `text.dfy` (`Text`) models the string operations the test environment
  relies on: `str.split` with its inverse `join`, and UTF-8 `str.encode`.
- `deployment.dfy` (`Deployment`) holds the four start-up backends
  `serverN` at `10.0.N.2`, weight 1. The controller and the test environment
  both register them.

How the model represents things:

- Every state is an immutable value, and every operation returns the new
  state together with what the Python code returned or raised.
- When an exception escapes a handler, the model keeps the state the code had
  already changed, as the running process would. This matters in these
  places:
  - a round-robin position that advanced before a later lookup failed;
  - the source address the controller learned before the video path's
    port lookup raised `KeyError` (`controller/sdn_controller.py:96`, `145`);
  - the first three statistics fields, which are written before an unknown
    tier raises `KeyError`;
  - the border switch's new flow and counters in the test environment, which
    stay when the tag lookup or the statistics update raises afterwards
    (`test/test_environment.py:184-199`).
- `get_next_server` returns the registered object, so the model returns its
  position in the registry.
- Other stand-ins:
  - `time.time()` becomes a parameter `now`;
  - `random.choice` becomes a parameter `pick`, and the choice is
    `pick % n`, so any member can be chosen;
  - floating-point numbers are `real`.

What the controller does and does not do:

- The controller installs only the table-miss rule on connection. There are
  no address-resolution handler, no baseline flood rules, no rule timeouts and
  no address rewriting.
- The learned-forward rule matches on ingress port and destination address
  only.
- Once a backend is selected, its output port is looked up by the backend's
  IP address in the learning table, which is keyed by Ethernet source
  addresses (`controller/sdn_controller.py:145`).
  - A miss raises `KeyError`. The handler catches only `ValueError`, so the
    `KeyError` escapes. Nothing is sent, and the rotation has already moved
    on. A miss is not answered by a flood.
  - On a hit, the 5-tuple rule is installed and no packet-out is sent.
- A weighted selection with a zero weight raises `ZeroDivisionError`, which
  also escapes.
- A packet-in from a switch that never completed the features handshake
  raises `KeyError` at the learning step (`controller/sdn_controller.py:96`).
- Registering a second server under an existing id resets that id's
  statistics. Later lookups by id find the first server registered under it.

## Model

| member | source | states |
|---|---|---|
| LoadBalancing.NewServer | controller/load_balancer.py:17-26 | A server built from id, address and weight has no connections, no bandwidth, no response time, no request time and quality "auto". |
| LoadBalancing.AddServers | controller/load_balancer.py:36-43 | Registering a list appends it to the registry in order. Every id in the list ends with a fresh statistics record, every other id keeps its record, and the invariant is kept. |
| LoadBalancing.NewLoadBalancer | controller/load_balancer.py:29-33 | A new policy engine has the requested algorithm, an empty registry and rotation index 0, and satisfies the registry invariant. |
| LoadBalancing.AddServer | controller/load_balancer.py:36-43 | The server is appended at the end of the registry. Its id gets a fresh statistics record (zero counts, one zero counter per tier), even if it was registered before. Every other id's statistics, the algorithm and the index are unchanged. The invariant is kept. |
| LoadBalancing.GetNextServer | controller/load_balancer.py:45-62 | An empty registry raises ValueError "No servers available". A zero weight under the weighted algorithm raises ZeroDivisionError. These are the only failures, and a failure changes nothing. Random returns `pick mod n`. Round-robin returns the current index and advances it modulo n. The other three algorithms return the first position whose key is minimal. Only round-robin changes state. |
| LoadBalancing.MinScan | controller/load_balancer.py:56-60 | Python's `min` scan, which keeps the earlier key on ties, returns a position that no key undercuts and that every earlier key strictly exceeds. |
| LoadBalancing.RandomReachesEveryServer | controller/load_balancer.py:49-50 | Every registered position is a possible random choice, and choosing it leaves the state unchanged. |
| LoadBalancing.RoundRobinCycles | controller/load_balancer.py:51-54 | The j-th of k consecutive round-robin calls returns position `(start + j) mod n`. |
| LoadBalancing.RoundRobinFullTurn | controller/load_balancer.py:51-54 | From index 0, n + 1 calls over n servers return 0, 1, ..., n - 1 and then 0 again. |
| LoadBalancing.WeightedSelection | controller/load_balancer.py:55-56 | With positive weights the weighted choice minimises connections/weight, stated by cross-multiplication on integers. Every earlier server has a strictly larger ratio, matching the stable sort. |
| LoadBalancing.WeightedPrefersLighterLoad | controller/load_balancer.py:55-56 | A server with weight 2 and 2 connections is chosen over one with weight 1 and 2 connections that was registered before it. |
| LoadBalancing.UpdateServerStats | controller/load_balancer.py:64-82 | An unknown id changes nothing. A known id's record counts one request with the given bandwidth and response time. The call fails exactly when the tier is neither "auto" nor a known tier, with KeyError, and then the servers are untouched. On success the first registry entry with that id is the only entry changed. Other ids' statistics, the algorithm and the index are unchanged, and the invariant is kept. |
| LoadBalancing.UpdateTouchesOneServer | controller/load_balancer.py:78-82 | On success the server gains one connection and the bandwidth, and takes the response time, the call time and the tier. Its id, address and weight stay, and every other server is unchanged. |
| LoadBalancing.UpdateKeepsRegistry | controller/load_balancer.py:64-82 | Statistics updates never change the ids, addresses or weights of the registry, so they never change whether a weighted selection can fail. |
| LoadBalancing.RecordRequest | controller/load_balancer.py:69-74 | One more request, the bandwidth added to the total, and `average * count` grown by exactly the new response time. |
| LoadBalancing.Tally | controller/load_balancer.py:75-76 | The counter of the given tier goes up by one and the others stay. "auto" counts nowhere. |
| LoadBalancing.ReplayAccumulates | controller/load_balancer.py:69-74 | After a sequence of updates for one id, the count grows by the sequence length and `average * count` by the sequence's sum. |
| LoadBalancing.RunningMeanIsMean | controller/load_balancer.py:69-74 | For a server with no requests yet, the running average after any non-empty sequence of response times is their arithmetic mean. |
| LoadBalancing.MeanOfThree | controller/load_balancer.py:69-74 | Reporting 100, 200 and 300 gives an average of exactly 200. |
| LoadBalancing.TierFor | controller/load_balancer.py:93-97 | The tier is 320p exactly when there are more than 5 connections or more than 10 of bandwidth. Otherwise it is 720p exactly when the response time is below 100 and there are fewer than 3 connections. Otherwise it is 480p. |
| LoadBalancing.GetOptimalQuality | controller/load_balancer.py:89-97 | The result is "auto" exactly for an unregistered id. Otherwise it is the tier for the first server with that id. |
| LoadBalancing.TierDegradesWithLoad | controller/load_balancer.py:93-97 | A server with at least as many connections, as much bandwidth and as slow a response is never recommended a higher tier, ranked by the source's quality weights. |
| LoadBalancing.CleanupOldConnections | controller/load_balancer.py:99-104 | Exactly the servers idle for longer than the timeout lose one connection, floored at 0. Every other field and server, the order, the length and the statistics stay, and the invariant is kept. |
| Deployment.StartupServers | controller/sdn_controller.py:34-37 | Four servers; the i-th is `server{i+1}` at `10.0.{i+1}.2` with weight 1 and default fields. |
| Deployment.StartupRegistry | controller/sdn_controller.py:31-39 | The policy engine after registering the start-up servers in order: valid, the requested algorithm, index 0, and a fresh statistics record (no requests, zero totals, every tier counter 0) for every backend. |
| SdnController.InitialController | controller/sdn_controller.py:30-43 | At start-up the controller runs a round-robin policy engine over the four backends, each with fresh statistics, and has no switches or learning tables. |
| SdnController.SwitchFeatures | controller/sdn_controller.py:48-63 | Connecting a switch installs exactly one rule: priority 0, match-all, output to the controller. It starts an empty learning table for that switch, and nothing else changes. |
| SdnController.Learn | controller/sdn_controller.py:96 | The learning table maps the packet's source to its ingress port and keeps every other entry. |
| SdnController.ForwardDefault | controller/sdn_controller.py:108-123 | For a learned destination that is not the flood port, a priority-1 rule on (ingress port, destination) to that port is installed, then a packet-out to that port is sent. Otherwise a packet-out to the flood port is sent and no rule is installed. |
| SdnController.HandleVideoRequest | controller/sdn_controller.py:125-161 | An empty registry floods once and changes nothing. Any other selection error escapes. If the backend's IP is not in the table, KeyError escapes with the rotation advanced and no command sent. Otherwise exactly one priority-2 rule matching the 5-tuple (IPv4, TCP, both addresses, both ports) outputs to the looked-up port, and the backend's statistics are updated once with bandwidth 0 and response time 0. |
| SdnController.HandlePacketIn | controller/sdn_controller.py:81-123 | An unknown switch raises KeyError and changes nothing. Otherwise the source is learned first; video requests go to the video path with the learned table; other packets are forwarded with the policy engine untouched. |
| SdnController.RulePriorities | controller/sdn_controller.py:99-146 | Table-miss 0 < learned forward 1 < video 2. Every rule a packet-in installs outranks table-miss. It has priority 1 exactly for non-video traffic and carries that path's match. |
| SdnController.FloodInstallsNothing | controller/sdn_controller.py:109-123 | A reaction that floods installs no rule. |
| SdnController.OneRuleOnePacket | controller/sdn_controller.py:109-123 | A packet-in sends at most two commands, and when it sends two they are a rule followed by a packet-out. |
| SdnController.PacketOutUnlessRedirected | controller/sdn_controller.py:99-161 | A packet-out is sent exactly when no exception escaped and the packet was not a video request with some backend registered. |
| SdnController.VideoBypassesForwarding | controller/sdn_controller.py:99-106 | A video request only ever floods or installs priority-2 rules; the default path does nothing for it. |
| SdnController.ForwardingLeavesPolicyAlone | controller/sdn_controller.py:108-123 | Non-video traffic never changes the policy engine. |
| SdnController.RedirectionCountsOneRequest | controller/sdn_controller.py:144-149 | A redirection that installed its rule counted one request for the chosen backend's id and left all other ids' statistics unchanged. |
| SdnController.ConnectThenLearn | controller/sdn_controller.py:62-63 | After the features handshake the switch's first packet is handled, and its table then holds exactly the sender's port. |
| SdnController.KnownDestinationIsCached | controller/sdn_controller.py:109-119 | With physical port numbers, a destination that is already known, or that is the sender itself, always gets a learned-forward rule followed by a packet-out to the learned port. |
| MockNetwork.NewMockSwitch | test/test_environment.py:38-45 | A new switch has no port bindings, no flows and zero counters. |
| MockNetwork.AddPort | test/test_environment.py:47-48 | The binding is recorded, replacing any earlier one for that MAC; nothing else changes. |
| MockNetwork.AddFlow | test/test_environment.py:50-55 | The flow is appended with the call time, and the existing flows, in order, and the counters are unchanged. |
| MockNetwork.MatchFlowIsAgreement | test/test_environment.py:70-76 | A match accepts a packet exactly when it agrees with the packet's source and destination on every field they both name. |
| MockNetwork.EmptyMatchAcceptsAll | test/test_environment.py:70-76 | The empty match accepts every packet. |
| MockNetwork.OtherKeysIgnored | test/test_environment.py:70-76 | Keys other than `src_mac` and `dst_mac` never affect matching. |
| MockNetwork.FullMatchIsExact | test/test_environment.py:70-76 | A match naming both addresses accepts exactly that address pair. |
| MockNetwork.FirstMatch | test/test_environment.py:63-64 | The result is the first flow in insertion order that accepts the packet, or none exactly when no flow accepts it. |
| MockNetwork.ActionPort | test/test_environment.py:65 | The answer is the first action's port. An empty action list raises IndexError, and a first action without a port raises KeyError. |
| MockNetwork.ProcessPacket | test/test_environment.py:57-68 | Every call counts one packet and `len(data)` bytes. The answer is the first accepting flow's port, or -1 when no flow accepts. Flows and bindings are untouched. |
| MockNetwork.AddFlowKeepsPrecedence | test/test_environment.py:50-55 | A packet that an existing flow accepts gets the same answer after another flow is appended. |
| MockNetwork.AddFlowCatchesTheRest | test/test_environment.py:63-68 | For a packet no existing flow accepts, the appended flow answers if it accepts the packet; otherwise the answer is -1. |
| MockNetwork.AddFlowKeepsWellFormed | test/test_environment.py:50-55 | Appending a flow whose first action names a port keeps every flow able to answer. |
| MockNetwork.WellFormedNeverRaises | test/test_environment.py:63-65 | If every flow's first action names a port, lookup never raises. |
| MockNetwork.PortsNeverConsulted | test/test_environment.py:57-68 | The MAC-to-port bindings play no part in the answer. |
| Text.Split | test/test_environment.py:198 | `str.split`: at least one piece, no piece contains the separator, and joining the pieces with the separator gives back the text. |
| Text.SplitJoin | test/test_environment.py:198 | Splitting the join of separator-free pieces gives back the pieces. |
| Text.SplitFindsSeparator | test/test_environment.py:198 | A split yields a second piece exactly when the separator occurs. |
| Text.LastPiece | test/test_environment.py:180-181 | `split(sep)[-1]` is a separator-free suffix of the text that starts at the beginning or right after a separator, so it is the longest separator-free suffix. |
| Text.LastPieceWhole | test/test_environment.py:180-181 | Text without the separator is its own last piece. |
| Text.LastPieceAfter | test/test_environment.py:180-181 | The last piece of `x + sep + y`, for a separator-free `y`, is `y`. |
| Text.EncodeChar | test/test_environment.py:190 | UTF-8 spends 1 byte below U+0080, 2 below U+0800, 3 below U+10000 and 4 above. The lead byte announces that length, the others are continuation bytes, and decoding the bytes gives back the code point. |
| Text.Encode | test/test_environment.py:190 | An encoding is as long as the sum of the characters' UTF-8 lengths: exactly the text's length, with its code points as bytes, when the text is ASCII, and longer otherwise. |
| Text.DecodeEncode | test/test_environment.py:190 | Decoding the UTF-8 encoding of any text gives back its code points. |
| TestHarness.InitialEnv | test/test_environment.py:134-155 | The environment starts with switches s1 to s7, all empty, and a round-robin policy engine over the four backends at index 0, each with fresh statistics. |
| TestHarness.InitialEnvIsReady | test/test_environment.py:134-155 | In the initial environment a backend can be selected and the border switch's flows can all answer. |
| TestHarness.QualityTag | test/test_environment.py:198 | The tag exists exactly when the name contains `_`; otherwise the call raises IndexError. The name is an underscore-free prefix, `_`, the tag, and then the end, a `_` or a `.`; the tag holds no `_` and no `.`. |
| TestHarness.QualityTagIs | test/test_environment.py:198 | Conversely, a dot-free and underscore-free tag after an underscore-free prefix and `_`, followed by the end, a `_` or a `.`, is the tag extracted. |
| TestHarness.QualityTagOf | test/test_environment.py:198 | `prefix_tag.ext`, with no `_` in prefix or tag and no `.` in the tag, yields the tag. |
| TestHarness.QualityTagExamples | test/test_environment.py:198 | "bbb_480p.mp4" yields "480p" and "bbb.mp4" raises IndexError. |
| TestHarness.QualityTagEdgeExamples | test/test_environment.py:198 | "bbb_480p" yields "480p" and "a_b_c.mp4" yields "b". |
| TestHarness.MacFromIp | test/test_environment.py:180-181 | The MAC address is `00:00:00:00:00:` followed by the longest dot-free suffix of the IP address: one that starts at the beginning or right after a dot. |
| TestHarness.MacFromHost | test/test_environment.py:180-181 | For `net.host`, the MAC address ends in exactly `host`. |
| TestHarness.MacFromDotless | test/test_environment.py:180-181 | An address without dots, such as `localhost`, is used whole. |
| TestHarness.MacOfClient | test/test_environment.py:180-181 | The client `10.0.0.1` gets MAC address `00:00:00:00:00:1`. |
| TestHarness.RequestBytes | test/test_environment.py:190 | The request line is 11 bytes of `GET /video/`, the UTF-8 size of the video name and 11 bytes of ` HTTP/1.1\r\n`: at least as long as its three parts as text, and exactly that long for an ASCII video name. |
| TestHarness.ForwardRequest | test/test_environment.py:184-191 | The border switch gains one flow after its existing ones and counts one packet of the request's size. If every flow could answer, every flow still can and the lookup does not raise. If no earlier flow matched, the answer is port 1. |
| TestHarness.RecordRequest | test/test_environment.py:194-199 | Recording succeeds exactly when the name has a tag that is "auto" or a known tier. Success counts one request with bandwidth 1.0 for the id, and other ids are always unchanged. |
| TestHarness.Serve | test/test_environment.py:179-205 | Only the border switch can change. When it exists it forwards the request once. Success implies a known tag and exactly one counted request for the server. |
| TestHarness.SimulateRequest | test/test_environment.py:172-205 | An empty registry fails with nothing changed. The rotation advances as the selection did, whatever happens afterwards. Only the border switch can change. Success implies a known tag and exactly one counted request for the selected backend. |
| TestHarness.RequestCrossesBorderSwitch | test/test_environment.py:184-191 | Once a backend is selected, the request always reaches the border switch: one flow is added and one packet of the request's size is counted. |
| TestHarness.ServeSucceeds | test/test_environment.py:179-201 | Serving a request with a known tag through a ready border switch succeeds and keeps the environment ready. |
| TestHarness.RequestSucceeds | test/test_environment.py:172-201 | In a ready environment a request for `prefix_tag.ext` with a known tag succeeds and the environment stays ready. |
| TestHarness.DemoVideo | test/test_environment.py:226 | The i-th video's tag is 320p, 480p, 720p in turn. |
| TestHarness.DemoRequestSucceeds | test/test_environment.py:224-227 | Every request of the demonstration succeeds from a ready environment and leaves it ready. |
| TestHarness.RunDemo | test/test_environment.py:224-228 | The demonstration loop yields one result per client and keeps the policy engine valid. |
| TestHarness.DemoSucceeds | test/test_environment.py:219-228 | From a ready environment, and so from the initial one, every request of the demonstration loop succeeds and the environment stays ready. |

## Left out

- The statistics monitor thread, the flow and port statistics requests and their reply handlers (`controller/sdn_controller.py:163-199`): a periodic background loop that only sends requests and logs replies.
- Building Ryu messages: `add_flow`'s instruction wrapping, `send_msg` and buffer ids (`controller/sdn_controller.py:65-79`). Commands are abstract `FlowMod` and `PacketOut` values, and a `PacketOut` carries neither a buffer id nor the packet data. As written, no packet-out carries the frame: the forwarding path passes the packet-in's buffer id, which is OFP_NO_BUFFER because the table-miss rule requests `OFPCML_NO_BUFFER` (`controller/sdn_controller.py:57-58`, `121-122`), the flood on an empty registry names OFP_NO_BUFFER itself (`155-160`), and neither attaches `data`.
- Parsing the raw frame with Ryu's packet library (`controller/sdn_controller.py:88-93`): a `PacketIn` carries the parsed fields directly.
- The `else` branch of `get_next_server` for an unknown algorithm (`controller/load_balancer.py:61-62`): the algorithm is an enumeration of exactly five values, so the branch cannot be reached.
- `get_server_stats` and `get_stats` (`controller/load_balancer.py:86-87`, `test/test_environment.py:207-217`): they return the state as it is.
- Logging and `main`'s printing of statistics: output only.
- `find_free_port`, the mock HTTP video server, the HTTP server threads and the sleeps (`test/test_environment.py:24-34`, `78-130`, `147-170`): sockets, threads and timing. `main`'s one-second sleep becomes `now + 1.0`.
- The client, backend server, dashboard and topology programs: HTTP, Flask and Mininet I/O outside the decision logic.
- Concurrency between the monitor thread and the event handlers: every operation is modelled as an atomic step.
- Floating-point rounding: bandwidth, response time and time are `real`, so the running-mean results hold exactly, where floats hold them only up to rounding.
- The quality-weights table (`controller/load_balancer.py:34`): the source never reads it. `LoadBalancing.QualityWeight` keeps it only to rank tiers in `TierDegradesWithLoad`.
- TestHarness.RecordRequest: on success it states the request count and bandwidth of the id (through `CountedOnce`), but not the mean or tier counter. Those are stated by `LoadBalancing.UpdateServerStats`, which it calls.
- TestHarness.SimulateRequest: states what success implies, not when a request succeeds. The converse is stated for ready environments by `RequestSucceeds`.
- TestHarness.RunDemo: takes any list of client addresses instead of `10.0.0.1` to `10.0.0.10`, and a start time in place of the clock.
- Text.EncodeChar: states the byte count of every character, the lead and continuation byte classes and the round trip through a reference decoder, not the exact bit layout of each byte. Only the byte count reaches the switch counters.
- Servers are modelled as values, not as shared objects. Registering the same `Server` object twice (`controller/load_balancer.py:37`) is not modelled: in Python both registry entries are one object, so `update_server_stats` (`78-82`) changes both and `cleanup_old_connections` (`101-103`) decrements it twice, where the model changes each entry on its own.
- Default arguments: `weight=1`, `algorithm=ROUND_ROBIN`, `video_quality="auto"` and `timeout=300` (`controller/load_balancer.py:21`, `29`, `64`, `99`) are not defaults in the model: every call passes its value, and where the source relies on a default the model passes the default's value, as for the `"auto"` tier of the controller's `update_server_stats(server.id, 0, 0)`.
- `video_name.encode()` raising `UnicodeEncodeError` on a lone surrogate (`test/test_environment.py:190`): a Dafny `char` is a Unicode scalar value and cannot hold a surrogate, so that failure cannot be expressed.
