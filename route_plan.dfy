/**
  The routing state the configuration should leave in every node: the hub
  with one address per link and one static route per branch LAN, each
  branch router with its LAN and WAN addresses and the two aggregates via
  the hub, and each host with its LAN address and its default route.
*/
module RoutePlan {
  import opened Options
  import opened Ipv4
  import opened AddressPlan
  import opened Kernel

  /** The default route 0.0.0.0/0 that Mininet installs for `defaultRoute`. */
  const DefaultRoute: Cidr := Cidr(0, 0)

  /** The hub's addresses once the first n links are addressed: link k on rc-eth{k}. */
  function HubAddrs(n: nat): seq<IfAddr>
    requires n <= BranchCount
  {
    seq(n, k requires 0 <= k < n => IfAddr(k, WanHub(k)))
  }

  /** The hub's static routes once the first n are installed: LAN k via branch router k. */
  function HubRoutes(n: nat): seq<Route>
    requires n <= BranchCount
  {
    seq(n, k requires 0 <= k < n => Route(LanPrefix(k), Via(WanRouter(k).addr), k))
  }

  function HubPlan(): NodeState {
    NodeState(HubAddrs(BranchCount), HubRoutes(BranchCount), true)
  }

  /** Branch router i: LAN on r{i+1}-eth0, WAN on r{i+1}-eth1. */
  function BranchAddrs(i: Branch): seq<IfAddr> {
    [IfAddr(0, RouterLan(i)), IfAddr(1, WanRouter(i))]
  }

  /** Both aggregates through the hub's end of link i, sent on the WAN interface. */
  function BranchRoutes(i: Branch): seq<Route> {
    [Route(LanAggregate, Via(WanHub(i).addr), 1), Route(WanAggregate, Via(WanHub(i).addr), 1)]
  }

  function BranchPlan(i: Branch): NodeState {
    NodeState(BranchAddrs(i), BranchRoutes(i), true)
  }

  /** Host i: its LAN address on h{i+1}-eth0 and a default route through the branch router. */
  function HostPlan(i: Branch): NodeState {
    NodeState([IfAddr(0, HostLan(i))], [Route(DefaultRoute, Via(HostGateway(i)), 0)], false)
  }

  /** Entry n of the hub's table: the six connected /29s, then the six static /24s. */
  function HubEntry(n: nat): Route
    requires n < 2 * BranchCount
  {
    if n < BranchCount then Route(WanBlock(n), Direct, n)
    else Route(LanPrefix(n - BranchCount), Via(WanRouter(n - BranchCount).addr), n - BranchCount)
  }

  lemma {:induction false} HubTable()
    ensures Table(HubPlan()) == seq(2 * BranchCount, n requires 0 <= n < 2 * BranchCount => HubEntry(n))
  {
  }

  /** Every destination in the hub's table is a network prefix. */
  lemma {:induction false} HubEntryNetwork(n: nat)
    requires n < 2 * BranchCount
    ensures IsNetwork(HubEntry(n).dest)
  {
  }

  lemma {:induction false} HubTableDests()
    ensures NetworkDests(Table(HubPlan())) && DistinctDests(Table(HubPlan()))
  {
    var t := Table(HubPlan());
    HubTable();
    forall n | 0 <= n < |t| ensures IsNetwork(t[n].dest) {
      HubEntryNetwork(n);
    }
    assert DistinctDests(t);
  }

  /** The hub's table has one static entry per branch LAN, via that branch's router on link k. */
  lemma {:induction false} HubRoutesPerBranch(k: Branch)
    ensures |HubPlan().routes| == BranchCount
    ensures HubPlan().routes[k].dest == LanPrefix(k)
    ensures HubPlan().routes[k].hop == Via(WanRouter(k).addr)
    ensures HubPlan().addrs[k] == IfAddr(k, WanHub(k))
    ensures Contains(HubPlan().addrs[k].cidr, HubPlan().routes[k].hop.gw)
    ensures HubPlan().routes[k].hop.gw != HubPlan().addrs[k].cidr.addr
  {
  }

  /** The hub owns no address of any branch LAN. */
  lemma {:induction false} HubOwnsNoLanAddress(j: Branch, a: Addr)
    requires Contains(LanPrefix(j), a)
    ensures !Owns(HubPlan(), a)
  {
  }

  /** Branch router i owns exactly the gateway of LAN i and its end of WAN link i. */
  lemma {:induction false} BranchOwns(i: Branch, a: Addr)
    ensures Owns(BranchPlan(i), a) <==> a == HostGateway(i) || a == WanRouter(i).addr
  {
    LanEndpoints(i);
    assert BranchPlan(i).addrs == [IfAddr(0, RouterLan(i)), IfAddr(1, WanRouter(i))];
    assert BranchPlan(i).addrs[0].cidr.addr == HostGateway(i);
    assert BranchPlan(i).addrs[1].cidr.addr == WanRouter(i).addr;
  }

  /** Host i owns exactly its LAN address. */
  lemma {:induction false} HostOwns(i: Branch, a: Addr)
    ensures Owns(HostPlan(i), a) <==> a == HostLan(i).addr
  {
    assert HostPlan(i).addrs == [IfAddr(0, HostLan(i))];
    assert HostPlan(i).addrs[0].cidr.addr == HostLan(i).addr;
  }

  /** Every planned table is unambiguous and its gateways are on connected prefixes. */
  lemma {:induction false} HubConsistent()
    ensures Consistent(HubPlan())
  {
    var s := HubPlan();
    HubTableDests();
    forall k | 0 <= k < |s.routes| ensures s.routes[k].hop.Via? && GatewayOn(s.addrs, s.routes[k]) {
      HubRoutesPerBranch(k);
    }
  }

  function BranchEntries(i: Branch): seq<Route> {
    [Route(LanPrefix(i), Direct, 0), Route(WanBlock(i), Direct, 1),
     Route(LanAggregate, Via(WanHub(i).addr), 1), Route(WanAggregate, Via(WanHub(i).addr), 1)]
  }

  /** Branch router i's table: its two connected prefixes, then the two aggregates through the hub. */
  lemma {:induction false} BranchTable(i: Branch)
    ensures Table(BranchPlan(i)) == BranchEntries(i)
    ensures NetworkDests(BranchEntries(i)) && DistinctDests(BranchEntries(i))
  {
    assert Table(BranchPlan(i)) == BranchEntries(i) by {
      LanEndpoints(i);
      WanEndpoints(i);
      ConnectedPair(IfAddr(0, RouterLan(i)), IfAddr(1, WanRouter(i)));
    }
    BranchEntriesDests(i);
  }

  lemma {:induction false} BranchEntriesDests(i: Branch)
    ensures NetworkDests(BranchEntries(i)) && DistinctDests(BranchEntries(i))
  {
    assert IsNetwork(LanPrefix(i)) by { LanEndpoints(i); }
    assert IsNetwork(WanBlock(i)) by { WanEndpoints(i); }
    assert IsNetwork(LanAggregate) && IsNetwork(WanAggregate) by { AggregateBounds(); }
    FourLengths(BranchEntries(i));
  }

  lemma {:induction false} BranchConsistent(i: Branch)
    ensures Consistent(BranchPlan(i))
  {
    var s := BranchPlan(i);
    BranchTable(i);
    WanEndpoints(i);
    assert GatewayOn(s.addrs, s.routes[0]) && GatewayOn(s.addrs, s.routes[1]) by {
      assert s.addrs[1] == IfAddr(1, WanRouter(i));
    }
  }

  function HostEntries(i: Branch): seq<Route> {
    [Route(LanPrefix(i), Direct, 0), Route(DefaultRoute, Via(HostGateway(i)), 0)]
  }

  /** Host i's table: its LAN prefix, then the default route through its gateway. */
  lemma {:induction false} HostTable(i: Branch)
    ensures Table(HostPlan(i)) == HostEntries(i)
    ensures NetworkDests(HostEntries(i)) && DistinctDests(HostEntries(i))
  {
    assert Table(HostPlan(i)) == HostEntries(i) by {
      LanEndpoints(i);
      ConnectedPair(IfAddr(0, HostLan(i)), IfAddr(0, HostLan(i)));
    }
    assert IsNetwork(LanPrefix(i)) by { LanEndpoints(i); }
    assert IsNetwork(DefaultRoute) by { DefaultRouteCovers(0); }
    TwoLengths(HostEntries(i));
  }

  /** The default route covers every address. */
  lemma {:induction false} DefaultRouteCovers(a: Addr)
    ensures IsNetwork(DefaultRoute) && Contains(DefaultRoute, a)
  {
    assert BlockSize(0) == AddrSpace by { BlockSizes(); }
  }

  lemma {:induction false} HostConsistent(i: Branch)
    ensures Consistent(HostPlan(i))
  {
    var s := HostPlan(i);
    HostTable(i);
    LanEndpoints(i);
    assert GatewayOn(s.addrs, s.routes[0]) by {
      assert s.addrs[0] == IfAddr(0, HostLan(i));
    }
  }

  /** At the hub, an address in branch j's LAN goes to branch router j over link j. */
  lemma {:induction false} HubLookupLan(j: Branch, a: Addr)
    requires Contains(LanPrefix(j), a)
    ensures Lookup(Table(HubPlan()), a) == Some(Route(LanPrefix(j), Via(WanRouter(j).addr), j))
  {
    var t := Table(HubPlan());
    HubTable();
    HubTableDests();
    forall n: Branch ensures !Contains(WanBlock(n), a) {
      LanWanDisjoint(j, n);
      DisjointIff(LanPrefix(j), WanBlock(n));
    }
    assert forall k :: 0 <= k < |t| && Contains(t[k].dest, a) ==> t[k].dest.len <= 24;
    LookupFinds(t, a, BranchCount + j);
  }

  /** At the hub, an address on link j is reached directly on rc-eth{j}. */
  lemma {:induction false} HubLookupWan(j: Branch, a: Addr)
    requires Contains(WanBlock(j), a)
    ensures Lookup(Table(HubPlan()), a) == Some(Route(WanBlock(j), Direct, j))
  {
    var t := Table(HubPlan());
    HubTable();
    HubTableDests();
    assert forall k :: 0 <= k < |t| ==> t[k].dest.len <= 29;
    LookupFinds(t, a, j);
  }

  /**
    At branch router i, an address in its own LAN is delivered on the LAN
    interface: the connected /24 beats the /21 aggregate.
  */
  lemma {:induction false} BranchLookupOwnLan(i: Branch, a: Addr)
    requires Contains(LanPrefix(i), a)
    ensures Lookup(Table(BranchPlan(i)), a) == Some(Route(LanPrefix(i), Direct, 0))
    ensures Contains(LanAggregate, a)
  {
    BranchTable(i);
    AggregatesCover(i);
    WithinContains(LanPrefix(i), LanAggregate, a);
    assert !Contains(WanBlock(i), a) by {
      LanWanDisjoint(i, i);
      DisjointIff(LanPrefix(i), WanBlock(i));
    }
    assert !Contains(WanAggregate, a) by {
      DisjointIff(WanAggregate, LanPrefix(i));
    }
    LookupFinds(BranchEntries(i), a, 0);
  }

  /** At branch router i, an address in another branch's LAN goes to the hub via the aggregate. */
  lemma {:induction false} BranchLookupOtherLan(i: Branch, j: Branch, a: Addr)
    requires i != j && Contains(LanPrefix(j), a)
    ensures Lookup(Table(BranchPlan(i)), a) == Some(Route(LanAggregate, Via(WanHub(i).addr), 1))
  {
    BranchTable(i);
    AggregatesCover(j);
    WithinContains(LanPrefix(j), LanAggregate, a);
    assert !Contains(LanPrefix(i), a) by {
      LanBlocksDisjoint(j, i);
      DisjointIff(LanPrefix(j), LanPrefix(i));
    }
    assert !Contains(WanBlock(i), a) by {
      LanWanDisjoint(j, i);
      DisjointIff(LanPrefix(j), WanBlock(i));
    }
    assert !Contains(WanAggregate, a) by {
      DisjointIff(WanAggregate, LanPrefix(j));
    }
    LookupFinds(BranchEntries(i), a, 2);
  }

  /** At branch router i, an address on its own link is reached directly on the WAN interface. */
  lemma {:induction false} BranchLookupOwnWan(i: Branch, a: Addr)
    requires Contains(WanBlock(i), a)
    ensures Lookup(Table(BranchPlan(i)), a) == Some(Route(WanBlock(i), Direct, 1))
  {
    BranchTable(i);
    LookupFinds(BranchEntries(i), a, 1);
  }

  /** Host i reaches its own LAN directly and everything else through its gateway. */
  lemma {:induction false} HostLookup(i: Branch, a: Addr)
    ensures Contains(LanPrefix(i), a) ==> Lookup(Table(HostPlan(i)), a) == Some(Route(LanPrefix(i), Direct, 0))
    ensures !Contains(LanPrefix(i), a) ==> Lookup(Table(HostPlan(i)), a) == Some(Route(DefaultRoute, Via(HostGateway(i)), 0))
  {
    if Contains(LanPrefix(i), a) {
      HostLookupLocal(i, a);
    } else {
      HostLookupRemote(i, a);
    }
  }

  lemma {:induction false} HostLookupLocal(i: Branch, a: Addr)
    requires Contains(LanPrefix(i), a)
    ensures Lookup(Table(HostPlan(i)), a) == Some(Route(LanPrefix(i), Direct, 0))
  {
    HostTable(i);
    LookupFinds(HostEntries(i), a, 0);
  }

  lemma {:induction false} HostLookupRemote(i: Branch, a: Addr)
    requires !Contains(LanPrefix(i), a)
    ensures Lookup(Table(HostPlan(i)), a) == Some(Route(DefaultRoute, Via(HostGateway(i)), 0))
  {
    HostTable(i);
    DefaultRouteCovers(a);
    LookupFinds(HostEntries(i), a, 1);
  }
}
