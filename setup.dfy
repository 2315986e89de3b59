/**
  The body of `myNetwork()`: create the hub, the branch routers and the
  hosts, bind the WAN and LAN addresses, install the static routes, and
  ping from h1 to every other host. Each loop of the script is a method
  over the `Node` objects it configures, and its invariant ties the nodes
  handled so far to the plan.
*/
module Setup {
  import opened Options
  import opened Ipv4
  import opened DottedQuad
  import opened AddressPlan
  import opened Kernel
  import opened RoutePlan
  import opened Forwarding

  predicate Distinct(nodes: seq<Node>) {
    forall k, l :: 0 <= k < l < |nodes| ==> nodes[k] != nodes[l]
  }

  /** The states of a list of nodes, in order. */
  function States(nodes: seq<Node>): (r: seq<NodeState>)
    reads nodes
    ensures |r| == |nodes| && forall k :: 0 <= k < |nodes| ==> r[k] == nodes[k].State()
  {
    if nodes == [] then [] else [nodes[0].State()] + States(nodes[1..])
  }

  /** A node that forwards and has nothing else configured: rc and r{i+1} right after their `sysctl`. */
  const Forwarder: NodeState := NodeState([], [], true)

  /** The hub once its first m links are addressed. */
  function HubAddressed(m: nat): NodeState
    requires m <= BranchCount
  {
    NodeState(HubAddrs(m), [], true)
  }

  /** The hub once all links are addressed and its first m static routes are installed. */
  function HubRouted(m: nat): NodeState
    requires m <= BranchCount
  {
    NodeState(HubAddrs(BranchCount), HubRoutes(m), true)
  }

  /** Branch router i once both its interfaces are addressed. */
  function RouterAddressed(i: Branch): NodeState {
    NodeState(BranchAddrs(i), [], true)
  }

  /** The hub's table once the first m links are addressed is the beginning of its planned table. */
  lemma {:induction false} HubAddressedTable(m: nat)
    requires m <= BranchCount
    ensures Table(HubAddressed(m)) == Table(HubPlan())[..m]
  {
  }

  /** The hub's table once m static routes are installed is the beginning of its planned table. */
  lemma {:induction false} HubRoutedTable(m: nat)
    requires m <= BranchCount
    ensures Table(HubRouted(m)) == Table(HubPlan())[..BranchCount + m]
  {
  }

  /** `ip a a 192.168.100.(8m+6)/29 dev rc-eth{m}` succeeds on the hub with links 0..m-1 addressed. */
  lemma {:induction false} HubAddressStep(m: Branch)
    ensures WithAddress(HubAddressed(m), m, WanHub(m)) == Some(HubAddressed(m + 1))
  {
    var full := Table(HubPlan());
    HubAddressedTable(m);
    HubTable();
    HubTableDests();
    WanEndpoints(m);
    AddressAppends(HubAddressed(m), m, WanHub(m), full);
    HubPlanGrows(m);
  }

  /** The hub's planned addresses and routes grow by one entry per link. */
  lemma {:induction false} HubPlanGrows(m: Branch)
    ensures HubAddrs(m) + [IfAddr(m, WanHub(m))] == HubAddrs(m + 1)
    ensures HubRoutes(m) + [Route(LanPrefix(m), Via(WanRouter(m).addr), m)] == HubRoutes(m + 1)
  {
  }

  /** `ip r a 10.0.{m+1}.0/24 via 192.168.100.(8m+1)` succeeds on the hub with routes 0..m-1 installed. */
  lemma {:induction false} HubRouteStep(m: Branch)
    ensures WithRoute(HubRouted(m), LanPrefix(m), WanRouter(m).addr) == Some(HubRouted(m + 1))
  {
    var full := Table(HubPlan());
    HubRoutedTable(m);
    HubTableDests();
    assert full[BranchCount + m] == HubEntry(BranchCount + m) by {
      HubTable();
    }
    HubGateway(m, HubRouted(m));
    RouteAppends(HubRouted(m), LanPrefix(m), WanRouter(m).addr, m, full);
    HubPlanGrows(m);
  }

  /** The hub reaches the branch end of link m through rc-eth{m}. */
  lemma {:induction false} HubGateway(m: Branch, s: NodeState)
    requires s.addrs == HubAddrs(BranchCount)
    ensures GatewayDevice(s, WanRouter(m).addr) == Some(m)
  {
    assert Connected(s.addrs) == Table(HubPlan())[..BranchCount] by {
      HubAddressedTable(BranchCount);
    }
    assert DistinctDests(Connected(s.addrs)) by {
      HubTableDests();
    }
    assert Contains(s.addrs[m].cidr, WanRouter(m).addr) by {
      WanEndpoints(m);
    }
    GatewayFound(s, WanRouter(m).addr, m);
  }

  /** Branch router i with only its LAN address bound. */
  function RouterLanOnly(i: Branch): NodeState {
    NodeState([IfAddr(0, RouterLan(i))], [], true)
  }

  /** Branch router i with its addresses and the /21 aggregate. */
  function RouterHalfRouted(i: Branch): NodeState {
    NodeState(BranchAddrs(i), [BranchRoutes(i)[0]], true)
  }

  /** `ip a a 10.0.{i+1}.1/24 dev r{i+1}-eth0` succeeds on a fresh router. */
  lemma {:induction false} BranchLanStep(i: Branch)
    ensures WithAddress(Forwarder, 0, RouterLan(i)) == Some(RouterLanOnly(i))
    ensures Table(RouterLanOnly(i)) == BranchEntries(i)[..1]
  {
    BranchEntriesDests(i);
    assert Prefix(RouterLan(i)) == LanPrefix(i) by {
      LanEndpoints(i);
    }
    assert Table(Forwarder) == BranchEntries(i)[..0];
    AddressAppends(Forwarder, 0, RouterLan(i), BranchEntries(i));
    assert [] + [IfAddr(0, RouterLan(i))] == RouterLanOnly(i).addrs;
  }

  /** `ip a a {wan_ips_routers[i]} dev r{i+1}-eth1` then succeeds. */
  lemma {:induction false} BranchWanStep(i: Branch)
    ensures WithAddress(RouterLanOnly(i), 1, WanRouter(i)) == Some(RouterAddressed(i))
    ensures Table(RouterAddressed(i)) == BranchEntries(i)[..2]
  {
    BranchLanStep(i);
    BranchEntriesDests(i);
    assert Prefix(WanRouter(i)) == WanBlock(i) by {
      WanEndpoints(i);
    }
    AddressAppends(RouterLanOnly(i), 1, WanRouter(i), BranchEntries(i));
    assert RouterLanOnly(i).addrs + [IfAddr(1, WanRouter(i))] == BranchAddrs(i);
  }

  /** The hub's end of link i lies on branch router i's WAN block only. */
  lemma {:induction false} BranchGatewayPlace(i: Branch)
    ensures Contains(WanBlock(i), WanHub(i).addr)
    ensures !Contains(LanPrefix(i), WanHub(i).addr) && !Contains(LanAggregate, WanHub(i).addr)
  {
  }

  /** Branch router i reaches the hub's end of link i through r{i+1}-eth1. */
  lemma {:induction false} BranchGateway(i: Branch, s: NodeState)
    requires s.addrs == BranchAddrs(i)
    ensures GatewayDevice(s, WanHub(i).addr) == Some(1)
  {
    assert DistinctDests(Connected(s.addrs)) by {
      TwoLengths(Connected(s.addrs));
    }
    assert Contains(s.addrs[1].cidr, WanHub(i).addr) by {
      WanEndpoints(i);
    }
    GatewayFound(s, WanHub(i).addr, 1);
  }

  /** `ip r a 10.0.0.0/21 via <hub end of link i>` succeeds on the addressed router, sent on r{i+1}-eth1. */
  lemma {:induction false} BranchLanAggregateStep(i: Branch)
    ensures WithRoute(RouterAddressed(i), LanAggregate, WanHub(i).addr) == Some(RouterHalfRouted(i))
    ensures Table(RouterHalfRouted(i)) == BranchEntries(i)[..3]
  {
    var s, full := RouterAddressed(i), BranchEntries(i);
    assert Table(s) == full[..2] by { BranchWanStep(i); }
    BranchEntriesDests(i);
    BranchGateway(i, s);
    RouteAppends(s, LanAggregate, WanHub(i).addr, 1, full);
    assert [] + [BranchRoutes(i)[0]] == RouterHalfRouted(i).routes;
  }

  /** `ip r a 192.168.100.0/26 via <hub end of link i>` then succeeds and completes the router's plan. */
  lemma {:induction false} BranchWanAggregateStep(i: Branch)
    ensures WithRoute(RouterHalfRouted(i), WanAggregate, WanHub(i).addr) == Some(BranchPlan(i))
  {
    var s, full := RouterHalfRouted(i), BranchEntries(i);
    assert Table(s) == full[..3] by { BranchLanAggregateStep(i); }
    BranchEntriesDests(i);
    BranchGateway(i, s);
    RouteAppends(s, WanAggregate, WanHub(i).addr, 1, full);
    assert [BranchRoutes(i)[0]] + [BranchRoutes(i)[1]] == BranchRoutes(i);
  }

  /** Host i with only its address bound. */
  function HostAddressed(i: Branch): NodeState {
    NodeState([IfAddr(0, HostLan(i))], [], false)
  }

  /** Mininet binds `10.0.{i+1}.100/24` to h{i+1}-eth0 of a fresh host. */
  lemma {:induction false} HostAddressStep(i: Branch)
    ensures WithAddress(NodeState([], [], false), 0, HostLan(i)) == Some(HostAddressed(i))
    ensures Table(HostAddressed(i)) == HostEntries(i)[..1]
  {
    HostTable(i);
    assert Prefix(HostLan(i)) == LanPrefix(i) by {
      LanEndpoints(i);
    }
    assert Table(NodeState([], [], false)) == HostEntries(i)[..0];
    AddressAppends(NodeState([], [], false), 0, HostLan(i), HostEntries(i));
    assert [] + [IfAddr(0, HostLan(i))] == HostAddressed(i).addrs;
  }

  /** Mininet then installs the default route `via 10.0.{i+1}.1`, completing the host's plan. */
  lemma {:induction false} HostRouteStep(i: Branch)
    ensures WithRoute(HostAddressed(i), DefaultRoute, HostGateway(i)) == Some(HostPlan(i))
  {
    var s := HostAddressed(i);
    HostAddressStep(i);
    HostTable(i);
    assert Contains(s.addrs[0].cidr, HostGateway(i)) by {
      LanEndpoints(i);
    }
    GatewayFound(s, HostGateway(i), 0);
    RouteAppends(s, DefaultRoute, HostGateway(i), 0, HostEntries(i));
    assert [] + [Route(DefaultRoute, Via(HostGateway(i)), 0)] == HostPlan(i).routes;
  }

  /** `rc = net.addHost('rc', ...)` and its `sysctl -w net.ipv4.ip_forward=1`. */
  method AddHub() returns (rc: Node)
    ensures fresh(rc) && rc.State() == Forwarder
  {
    rc := new Node();
    rc.EnableForwarding();
  }

  /** The loop creating r1..r6, each with forwarding on, appended to `routers`. */
  method AddRouters() returns (routers: seq<Node>)
    ensures |routers| == BranchCount && Distinct(routers)
    ensures forall k :: 0 <= k < |routers| ==> fresh(routers[k]) && routers[k].State() == Forwarder
  {
    routers := [];
    for i := 0 to BranchCount
      invariant |routers| == i && Distinct(routers)
      invariant forall k :: 0 <= k < i ==> fresh(routers[k]) && routers[k].State() == Forwarder
    {
      var r := new Node();
      r.EnableForwarding();
      routers := routers + [r];
    }
  }

  /**
    The loop creating h1..h6: host i+1 gets `10.0.{i+1}.100/24` and the
    default route `via 10.0.{i+1}.1`, and does not forward.
  */
  method AddHosts() returns (hosts: seq<Node>)
    ensures |hosts| == BranchCount && Distinct(hosts)
    ensures forall k :: 0 <= k < |hosts| ==> fresh(hosts[k]) && hosts[k].State() == HostPlan(k)
  {
    hosts := [];
    for i := 0 to BranchCount
      invariant |hosts| == i && Distinct(hosts)
      invariant forall k :: 0 <= k < i ==> fresh(hosts[k]) && hosts[k].State() == HostPlan(k)
    {
      var h := AddHost(i);
      hosts := hosts + [h];
    }
  }

  /** One round of that loop: `net.addHost('h{i+1}', ip=..., defaultRoute=...)`. */
  method AddHost(i: Branch) returns (h: Node)
    ensures fresh(h) && h.State() == HostPlan(i)
  {
    h := new Node();
    HostAddressStep(i);
    var ok := h.AddAddress(0, HostLan(i));
    HostRouteStep(i);
    ok := h.AddRoute(DefaultRoute, HostGateway(i));
  }

  /** The loop `ip a a {wan_ips_rc[i]} dev rc-eth{i}`, the table text read by the canonical parser. */
  method AddressHub(rc: Node)
    requires rc.State() == Forwarder
    modifies rc
    ensures rc.State() == HubAddressed(BranchCount)
  {
    for i := 0 to BranchCount
      invariant rc.State() == HubAddressed(i)
    {
      AddressHubLink(rc, i);
    }
  }

  /** One round of that loop, on link i. */
  method AddressHubLink(rc: Node, i: Branch)
    requires rc.State() == HubAddressed(i)
    modifies rc
    ensures rc.State() == HubAddressed(i + 1)
  {
    WanTablesParse(i);
    var c := ParseCidr(WanIpsRc[i]).value;
    HubAddressStep(i);
    var ok := rc.AddAddress(i, c);
  }

  /** The loop `ip a a 10.0.{i+1}.1/24 dev r{i+1}-eth0` then `ip a a {wan_ips_routers[i]} dev r{i+1}-eth1`. */
  method AddressBranches(routers: seq<Node>)
    requires |routers| == BranchCount && Distinct(routers)
    requires forall k :: 0 <= k < |routers| ==> routers[k].State() == Forwarder
    modifies routers
    ensures forall k :: 0 <= k < |routers| ==> routers[k].State() == RouterAddressed(k)
  {
    for i := 0 to BranchCount
      invariant forall k :: 0 <= k < i ==> routers[k].State() == RouterAddressed(k)
      invariant forall k :: i <= k < |routers| ==> routers[k].State() == Forwarder
    {
      AddressBranch(routers[i], i);
    }
  }

  /** One round of that loop, on branch router i+1. */
  method AddressBranch(r: Node, i: Branch)
    requires r.State() == Forwarder
    modifies r
    ensures r.State() == RouterAddressed(i)
  {
    BranchLanStep(i);
    var ok := r.AddAddress(0, RouterLan(i));
    WanTablesParse(i);
    BranchWanStep(i);
    ok := r.AddAddress(1, ParseCidr(WanIpsRouters[i]).value);
  }

  /**
    The loop installing `10.0.0.0/21` and `192.168.100.0/26` on branch
    router i+1 via `strip_mask(wan_ips_rc[i])`, the hub's end of link i.
  */
  method RouteBranches(routers: seq<Node>)
    requires |routers| == BranchCount && Distinct(routers)
    requires forall k :: 0 <= k < |routers| ==> routers[k].State() == RouterAddressed(k)
    modifies routers
    ensures forall k :: 0 <= k < |routers| ==> routers[k].State() == BranchPlan(k)
  {
    for i := 0 to BranchCount
      invariant forall k :: 0 <= k < i ==> routers[k].State() == BranchPlan(k)
      invariant forall k :: i <= k < |routers| ==> routers[k].State() == RouterAddressed(k)
    {
      RouteBranch(routers[i], i);
    }
  }

  /** One round of that loop, on branch router i+1. */
  method RouteBranch(r: Node, i: Branch)
    requires r.State() == RouterAddressed(i)
    modifies r
    ensures r.State() == BranchPlan(i)
  {
    WanTablesParse(i);
    var rcIp := StripMask(WanIpsRc[i]);
    var gw := ParseAddr(rcIp).value;
    BranchLanAggregateStep(i);
    var ok := r.AddRoute(LanAggregate, gw);
    BranchWanAggregateStep(i);
    ok := r.AddRoute(WanAggregate, gw);
  }

  /** The loop installing `10.0.{i+1}.0/24` on the hub via `strip_mask(wan_ips_routers[i])`. */
  method RouteHub(rc: Node)
    requires rc.State() == HubAddressed(BranchCount)
    modifies rc
    ensures rc.State() == HubPlan()
  {
    assert HubRoutes(0) == [];
    for i := 0 to BranchCount
      invariant rc.State() == HubRouted(i)
    {
      RouteHubLink(rc, i);
    }
  }

  /** One round of that loop, for branch LAN i. */
  method RouteHubLink(rc: Node, i: Branch)
    requires rc.State() == HubRouted(i)
    modifies rc
    ensures rc.State() == HubRouted(i + 1)
  {
    WanTablesParse(i);
    var routerIp := StripMask(WanIpsRouters[i]);
    HubRouteStep(i);
    var ok := rc.AddRoute(LanPrefix(i), ParseAddr(routerIp).value);
  }

  /** Everything `myNetwork()` does before its tests: every node ends up as the plan prescribes. */
  method Configure() returns (rc: Node, routers: seq<Node>, hosts: seq<Node>)
    ensures rc.State() == HubPlan()
    ensures |routers| == BranchCount && forall k :: 0 <= k < |routers| ==> routers[k].State() == BranchPlan(k)
    ensures |hosts| == BranchCount && forall k :: 0 <= k < |hosts| ==> hosts[k].State() == HostPlan(k)
  {
    rc := AddHub();
    routers := AddRouters();
    assert forall k :: 0 <= k < |routers| ==> routers[k] != rc;
    hosts := AddHosts();
    assert forall k :: 0 <= k < |hosts| ==> hosts[k] != rc && hosts[k] !in routers;
    assert HubAddrs(0) == [];
    AddressHub(rc);
    AddressBranches(routers);
    RouteBranches(routers);
    RouteHub(rc);
  }

  /** A network whose nodes hold the planned states is deployed as planned. */
  lemma {:induction false} SnapshotDeployed(rc: NodeState, routers: seq<NodeState>, hosts: seq<NodeState>)
    requires rc == HubPlan()
    requires |routers| == BranchCount && forall k :: 0 <= k < |routers| ==> routers[k] == BranchPlan(k)
    requires |hosts| == BranchCount && forall k :: 0 <= k < |hosts| ==> hosts[k] == HostPlan(k)
    ensures Deployed(Net(rc, routers, hosts))
  {
  }

  /**
    The ping loop: `ping(i, j)` is whether `ping` from h{i+1} to h{j+1}
    gets its reply, and `passed[k]` is the outcome printed for h{k+2}.
  */
  method PingFromFirst(ping: (Branch, Branch) -> bool) returns (passed: seq<bool>)
    ensures |passed| == BranchCount - 1
    ensures forall k :: 0 <= k < |passed| ==> passed[k] == ping(0, k + 1)
  {
    passed := [];
    for i := 1 to BranchCount
      invariant |passed| == i - 1
      invariant forall k :: 0 <= k < |passed| ==> passed[k] == ping(0, k + 1)
    {
      passed := passed + [ping(0, i)];
    }
  }

  /**
    The script up to its ping test: the configured nodes, the network they
    form, and the outcome of each ping from h1, every one of them ==PASS==.
  */
  method MyNetwork() returns (rc: Node, routers: seq<Node>, hosts: seq<Node>, net: Net, passed: seq<bool>)
    ensures net == Net(rc.State(), States(routers), States(hosts)) && Deployed(net)
    ensures |passed| == BranchCount - 1
    ensures forall k :: 0 <= k < |passed| ==> passed[k] == PingSucceeds(net, 0, k + 1)
    ensures forall k :: 0 <= k < |passed| ==> passed[k]
  {
    rc, routers, hosts := Configure();
    net := Net(rc.State(), States(routers), States(hosts));
    SnapshotDeployed(net.hub, net.routers, net.hosts);
    passed := TestPings(net);
  }

  /** The ping loop run on a network deployed as planned: every ping from h1 passes. */
  method TestPings(net: Net) returns (passed: seq<bool>)
    requires Deployed(net)
    ensures |passed| == BranchCount - 1
    ensures forall k :: 0 <= k < |passed| ==> passed[k] == PingSucceeds(net, 0, k + 1)
    ensures forall k :: 0 <= k < |passed| ==> passed[k]
  {
    passed := PingFromFirst((i: Branch, j: Branch) => PingSucceeds(net, i, j));
    forall k | 0 <= k < |passed| ensures passed[k] {
      FirstHostReachesAll(net, k + 1);
    }
  }
}
