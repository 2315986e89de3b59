/**
  The emulated topology and packet forwarding over it. Every switch joins
  exactly two interfaces: s{i+1}wan the hub's rc-eth{i} and r{i+1}-eth1,
  s{i+1}lan r{i+1}-eth0 and h{i+1}-eth0. A packet moves from node to node
  by longest-prefix match on the sender's table, across the switch cabled
  to the chosen interface, to the neighbour that owns the next-hop address.
*/
module Forwarding {
  import opened Options
  import opened Ipv4
  import opened AddressPlan
  import opened Kernel
  import opened RoutePlan

  datatype NodeId = Hub | Router(i: Branch) | Host(i: Branch)

  /** Interface `dev` of a node: rc-eth{dev}, r{i+1}-eth{dev}, h{i+1}-eth{dev}. */
  datatype Port = Port(node: NodeId, dev: nat)

  datatype Switch = WanSwitch(i: Branch) | LanSwitch(i: Branch)

  /** The switch each interface is cabled to, interfaces numbered in the order the links are added. */
  function Attachment(p: Port): Option<Switch> {
    match p.node
    case Hub => if p.dev < BranchCount then Some(WanSwitch(p.dev)) else None
    case Router(i) => if p.dev == 0 then Some(LanSwitch(i)) else if p.dev == 1 then Some(WanSwitch(i)) else None
    case Host(i) => if p.dev == 0 then Some(LanSwitch(i)) else None
  }

  /** The other interface on the same switch. */
  function Peer(p: Port): (q: Option<Port>)
    ensures q.Some? <==> Attachment(p).Some?
    ensures q.Some? ==> q.value != p && Attachment(q.value) == Attachment(p)
  {
    match Attachment(p)
    case None => None
    case Some(WanSwitch(i)) => if p.node == Hub then Some(Port(Router(i), 1)) else Some(Port(Hub, i))
    case Some(LanSwitch(i)) => if p.node == Router(i) then Some(Port(Host(i), 0)) else Some(Port(Router(i), 0))
  }

  /** Each switch joins exactly two interfaces: the peer of the peer is the interface itself. */
  lemma {:induction false} PeerSymmetric(p: Port, q: Port)
    requires Peer(p) == Some(q)
    ensures Peer(q) == Some(p)
    ensures forall r :: Attachment(r) == Attachment(p) ==> r == p || r == q
  {
  }

  /** The state of every node at one moment. */
  datatype Net = Net(hub: NodeState, routers: seq<NodeState>, hosts: seq<NodeState>)

  predicate WellSized(net: Net) {
    |net.routers| == BranchCount && |net.hosts| == BranchCount
  }

  function NodeAt(net: Net, n: NodeId): NodeState
    requires WellSized(net)
  {
    match n
    case Hub => net.hub
    case Router(i) => net.routers[i]
    case Host(i) => net.hosts[i]
  }

  datatype Hop = Arrived | Forward(next: NodeId) | Dropped

  /**
    What node `at` does with a packet for `d`: keep it when `d` is one of
    its addresses; otherwise drop it when it is passing through a node
    that does not forward; otherwise send it on the interface its table
    chooses, to the neighbour owning the gateway (or `d` itself on a
    direct route), or drop it when there is no route or no such neighbour.
  */
  function Step(net: Net, at: NodeId, d: Addr, origin: bool): (h: Hop)
    requires WellSized(net)
    ensures h == Arrived <==> Owns(NodeAt(net, at), d)
  {
    var s := NodeAt(net, at);
    if Owns(s, d) then Arrived
    else if !origin && !s.forwarding then Dropped
    else match Lookup(Table(s), d)
      case None => Dropped
      case Some(r) =>
        var target := if r.hop.Via? then r.hop.gw else d;
        match Peer(Port(at, r.dev))
        case None => Dropped
        case Some(q) => if Owns(NodeAt(net, q.node), target) then Forward(q.node) else Dropped
  }

  /** The nodes a packet visits, and whether it reached a node owning its destination. */
  datatype Trace = Trace(path: seq<NodeId>, delivered: bool)

  /**
    Moves a packet from `at` by the decisions of `next` (given the node and
    whether the packet starts there), crossing at most `budget` more links.
  */
  function Walk(next: (NodeId, bool) -> Hop, at: NodeId, budget: nat, origin: bool): Trace
    decreases budget
  {
    match next(at, origin)
    case Arrived => Trace([at], true)
    case Dropped => Trace([at], false)
    case Forward(n) =>
      if budget == 0 then Trace([at], false)
      else
        var rest := Walk(next, n, budget - 1, false);
        Trace([at] + rest.path, rest.delivered)
  }

  /** The decisions of every node of `net` about a packet for `d`. */
  function Hops(net: Net, d: Addr): (NodeId, bool) -> Hop {
    (at: NodeId, origin: bool) => if WellSized(net) then Step(net, at, d, origin) else Dropped
  }

  /**
    Sends a packet for `d` from `at`, allowing at most `budget` more links to
    be crossed (the packet's time to live).
  */
  function Send(net: Net, at: NodeId, d: Addr, budget: nat, origin: bool): Trace {
    Walk(Hops(net, d), at, budget, origin)
  }

  /**
    A walk visits at most one node per link it may cross plus the first,
    starts where it began, and stops at once where the packet arrives.
  */
  lemma {:induction false} WalkShape(next: (NodeId, bool) -> Hop, at: NodeId, budget: nat, origin: bool)
    ensures 1 <= |Walk(next, at, budget, origin).path| <= budget + 1
    ensures Walk(next, at, budget, origin).path[0] == at
    ensures next(at, origin) == Arrived ==> Walk(next, at, budget, origin) == Trace([at], true)
    decreases budget
  {
    match next(at, origin)
    case Arrived =>
    case Dropped =>
    case Forward(n) =>
      if budget > 0 {
        WalkShape(next, n, budget - 1, false);
      }
  }

  /** A walk counts as delivered only when the last node it reaches keeps the packet. */
  lemma {:induction false} WalkDelivered(next: (NodeId, bool) -> Hop, at: NodeId, budget: nat, origin: bool)
    ensures var t := Walk(next, at, budget, origin);
      t.delivered ==> |t.path| >= 1 && next(t.path[|t.path| - 1], |t.path| == 1 && origin) == Arrived
    decreases budget
  {
    var t := Walk(next, at, budget, origin);
    match next(at, origin)
    case Arrived =>
    case Dropped =>
    case Forward(n) =>
      if budget > 0 {
        WalkDelivered(next, n, budget - 1, false);
        WalkShape(next, n, budget - 1, false);
        var rest := Walk(next, n, budget - 1, false);
        assert t.path == [at] + rest.path && t.delivered == rest.delivered;
        if t.delivered {
          assert t.path[|t.path| - 1] == rest.path[|rest.path| - 1];
        }
      }
  }

  /** A send counts as delivered only at a node that owns the destination, and a node keeps a packet for itself. */
  lemma {:induction false} SendDelivered(net: Net, at: NodeId, d: Addr, budget: nat, origin: bool)
    requires WellSized(net)
    ensures var t := Send(net, at, d, budget, origin);
      t.delivered ==> |t.path| >= 1 && Owns(NodeAt(net, t.path[|t.path| - 1]), d)
    ensures Owns(NodeAt(net, at), d) ==> Send(net, at, d, budget, origin) == Trace([at], true)
  {
    var t := Send(net, at, d, budget, origin);
    WalkDelivered(Hops(net, d), at, budget, origin);
    WalkShape(Hops(net, d), at, budget, origin);
    if t.delivered {
      var last := t.path[|t.path| - 1];
      assert Step(net, last, d, |t.path| == 1 && origin) == Arrived;
    }
    if Owns(NodeAt(net, at), d) {
      assert Hops(net, d)(at, origin) == Arrived;
    }
  }

  /** `ping` from host i to host j succeeds: the request gets there and the reply gets back. */
  predicate PingSucceeds(net: Net, i: Branch, j: Branch) {
    Send(net, Host(i), HostLan(j).addr, DefaultTtl, true).delivered &&
    Send(net, Host(j), HostLan(i).addr, DefaultTtl, true).delivered
  }

  /** The time to live `ping` gives its packets. */
  const DefaultTtl: nat := 64

  /** Every node holds the state the address plan prescribes. */
  predicate Deployed(net: Net) {
    && WellSized(net)
    && NodeAt(net, Hub) == HubPlan()
    && (forall i: Branch :: NodeAt(net, Router(i)) == BranchPlan(i))
    && (forall i: Branch :: NodeAt(net, Host(i)) == HostPlan(i))
  }

  /** A node that does not own `d` and may send it passes it to the neighbour its route leads to. */
  lemma {:induction false} StepForward(net: Net, at: NodeId, d: Addr, origin: bool, r: Route, q: Port)
    requires WellSized(net)
    requires !Owns(NodeAt(net, at), d) && (origin || NodeAt(net, at).forwarding)
    requires Lookup(Table(NodeAt(net, at)), d) == Some(r)
    requires Peer(Port(at, r.dev)) == Some(q)
    requires Owns(NodeAt(net, q.node), if r.hop.Via? then r.hop.gw else d)
    ensures Step(net, at, d, origin) == Forward(q.node)
  {
  }

  /**
    A packet follows `path` when each node on it passes the packet to the
    next one and the last one keeps it.
  */
  predicate Follows(next: (NodeId, bool) -> Hop, path: seq<NodeId>, origin: bool)
    decreases |path|
  {
    && |path| >= 1
    && if |path| == 1 then next(path[0], origin) == Arrived
       else next(path[0], origin) == Forward(path[1]) && Follows(next, path[1..], false)
  }

  /** A packet that follows a path, and may cross as many links as it has, is delivered along exactly that path. */
  lemma {:induction false} FollowPath(next: (NodeId, bool) -> Hop, path: seq<NodeId>, budget: nat, origin: bool)
    requires |path| <= budget + 1
    requires Follows(next, path, origin)
    ensures Walk(next, path[0], budget, origin) == Trace(path, true)
    decreases |path|
  {
    if |path| == 1 {
      assert path == [path[0]];
    } else {
      var tail := path[1..];
      FollowPath(next, tail, budget - 1, false);
      assert [path[0]] + tail == path;
    }
  }

  /** Host i's packet for another branch's LAN goes to its own branch router. */
  lemma {:induction false} HostStep(net: Net, i: Branch, j: Branch, a: Addr)
    requires WellSized(net) && NodeAt(net, Host(i)) == HostPlan(i) && NodeAt(net, Router(i)) == BranchPlan(i)
    requires i != j && Contains(LanPrefix(j), a)
    ensures Step(net, Host(i), a, true) == Forward(Router(i))
  {
    assert !Contains(LanPrefix(i), a) by {
      LanBlocksDisjoint(i, j);
      DisjointIff(LanPrefix(i), LanPrefix(j));
    }
    assert a != HostLan(i).addr by {
      LanEndpoints(i);
    }
    HostOwns(i, a);
    BranchOwns(i, HostGateway(i));
    HostLookup(i, a);
    StepForward(net, Host(i), a, true, Route(DefaultRoute, Via(HostGateway(i)), 0), Port(Router(i), 0));
  }

  /** Branch router i passes a packet for another branch's LAN to the hub. */
  lemma {:induction false} BranchUpStep(net: Net, i: Branch, j: Branch, a: Addr)
    requires WellSized(net) && NodeAt(net, Router(i)) == BranchPlan(i) && NodeAt(net, Hub) == HubPlan()
    requires i != j && Contains(LanPrefix(j), a)
    ensures Step(net, Router(i), a, false) == Forward(Hub)
  {
    assert a != HostGateway(i) && a != WanRouter(i).addr by {
      LanEndpoints(i);
      WanEndpoints(i);
      LanBlocksDisjoint(i, j);
      LanWanDisjoint(j, i);
    }
    BranchOwns(i, a);
    BranchLookupOtherLan(i, j, a);
    assert Owns(HubPlan(), WanHub(i).addr) by {
      HubRoutesPerBranch(i);
    }
    StepForward(net, Router(i), a, false, Route(LanAggregate, Via(WanHub(i).addr), 1), Port(Hub, i));
  }

  /** The hub passes a packet for branch j's LAN to branch router j. */
  lemma {:induction false} HubStep(net: Net, j: Branch, a: Addr)
    requires WellSized(net) && NodeAt(net, Hub) == HubPlan() && NodeAt(net, Router(j)) == BranchPlan(j)
    requires Contains(LanPrefix(j), a)
    ensures Step(net, Hub, a, false) == Forward(Router(j))
  {
    HubOwnsNoLanAddress(j, a);
    HubLookupLan(j, a);
    BranchOwns(j, WanRouter(j).addr);
    StepForward(net, Hub, a, false, Route(LanPrefix(j), Via(WanRouter(j).addr), j), Port(Router(j), 1));
  }

  /** Branch router j hands a packet for host j's address to host j on its LAN. */
  lemma {:induction false} BranchDownStep(net: Net, j: Branch)
    requires WellSized(net) && NodeAt(net, Router(j)) == BranchPlan(j) && NodeAt(net, Host(j)) == HostPlan(j)
    ensures Step(net, Router(j), HostLan(j).addr, false) == Forward(Host(j))
  {
    var a := HostLan(j).addr;
    assert Contains(LanPrefix(j), a) by {
      LanEndpoints(j);
    }
    assert !Owns(NodeAt(net, Router(j)), a) by {
      assert a != HostGateway(j) && a != WanRouter(j).addr by {
        LanEndpoints(j);
        WanEndpoints(j);
        LanWanDisjoint(j, j);
      }
      BranchOwns(j, a);
    }
    assert Owns(NodeAt(net, Host(j)), a) by {
      HostOwns(j, a);
    }
    assert Lookup(Table(NodeAt(net, Router(j))), a) == Some(Route(LanPrefix(j), Direct, 0)) by {
      BranchLookupOwnLan(j, a);
    }
    StepForward(net, Router(j), a, false, Route(LanPrefix(j), Direct, 0), Port(Host(j), 0));
  }

  /**
    Every host reaches every other host along h{i+1} -> r{i+1} -> rc ->
    r{j+1} -> h{j+1}: three router hops, no loop, whenever the packet may
    cross at least four links.
  */
  lemma {:induction false} HostToHost(net: Net, i: Branch, j: Branch, n: nat)
    requires Deployed(net) && i != j && n >= 4
    ensures Send(net, Host(i), HostLan(j).addr, n, true)
         == Trace([Host(i), Router(i), Hub, Router(j), Host(j)], true)
  {
    var a := HostLan(j).addr;
    var path := [Host(i), Router(i), Hub, Router(j), Host(j)];
    assert Contains(LanPrefix(j), a) by { LanEndpoints(j); }
    assert NodeAt(net, Host(i)) == HostPlan(i) && NodeAt(net, Router(i)) == BranchPlan(i);
    assert NodeAt(net, Host(j)) == HostPlan(j) && NodeAt(net, Router(j)) == BranchPlan(j);
    HostStep(net, i, j, a);
    BranchUpStep(net, i, j, a);
    HubStep(net, j, a);
    BranchDownStep(net, j);
    var next := Hops(net, a);
    assert Follows(next, [Host(j)], false) by {
      assert NodeAt(net, Host(j)).addrs[0] == IfAddr(0, HostLan(j));
      assert Step(net, Host(j), a, false) == Arrived;
    }
    assert Follows(next, [Router(j), Host(j)], false) by {
      assert [Router(j), Host(j)][1..] == [Host(j)];
    }
    assert Follows(next, [Hub, Router(j), Host(j)], false) by {
      assert [Hub, Router(j), Host(j)][1..] == [Router(j), Host(j)];
    }
    assert Follows(next, [Router(i), Hub, Router(j), Host(j)], false) by {
      assert [Router(i), Hub, Router(j), Host(j)][1..] == [Hub, Router(j), Host(j)];
    }
    assert Follows(next, path, true) by {
      assert path[1..] == [Router(i), Hub, Router(j), Host(j)];
    }
    FollowPath(next, path, n, true);
  }

  /** What the script's ping loop expects: h1 reaches every other host, and the replies come back. */
  lemma {:induction false} FirstHostReachesAll(net: Net, j: Branch)
    requires Deployed(net) && j != 0
    ensures PingSucceeds(net, 0, j)
  {
    HostToHost(net, 0, j, DefaultTtl);
    HostToHost(net, j, 0, DefaultTtl);
  }
}
