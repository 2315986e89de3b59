/**
  The routing state that the script's shell commands leave in a node's
  kernel: the addresses bound to its interfaces (`ip a a addr/len dev X`),
  its static routes (`ip r a dest via gw`), and whether it forwards packets
  (`sysctl -w net.ipv4.ip_forward=1`). Interfaces are numbered in the order
  their links were added: `-eth0`, `-eth1`, ...
*/
module Kernel {
  import opened Options
  import opened Ipv4

  /** An address bound to interface `dev`. */
  datatype IfAddr = IfAddr(dev: nat, cidr: Cidr)

  datatype NextHop = Direct | Via(gw: Addr)

  /** A routing-table entry: a destination prefix, how to reach it, and the interface to send on. */
  datatype Route = Route(dest: Cidr, hop: NextHop, dev: nat)

  datatype NodeState = NodeState(addrs: seq<IfAddr>, routes: seq<Route>, forwarding: bool)

  /** The routes the kernel derives from the bound addresses: each address's prefix, directly on its interface. */
  function Connected(addrs: seq<IfAddr>): (r: seq<Route>)
    ensures |r| == |addrs|
    ensures forall k :: 0 <= k < |r| ==>
      && IsNetwork(r[k].dest) && r[k].dest.len == addrs[k].cidr.len && Contains(r[k].dest, addrs[k].cidr.addr)
      && r[k].hop == Direct && r[k].dev == addrs[k].dev
  {
    seq(|addrs|, k requires 0 <= k < |addrs| => Route(Prefix(addrs[k].cidr), Direct, addrs[k].dev))
  }

  /** The main routing table: connected routes first, then the static ones. */
  function Table(s: NodeState): seq<Route> {
    Connected(s.addrs) + s.routes
  }

  predicate Owns(s: NodeState, a: Addr) {
    exists k :: 0 <= k < |s.addrs| && s.addrs[k].cidr.addr == a
  }

  predicate HasDest(table: seq<Route>, d: Cidr) {
    exists k :: 0 <= k < |table| && table[k].dest == d
  }

  /**
    Longest-prefix match: the matching entry with the longest prefix, the
    first such when two are equally long.
  */
  function Lookup(table: seq<Route>, a: Addr): Option<Route>
    decreases |table|
  {
    if table == [] then None
    else
      var rest := Lookup(table[1..], a);
      if Contains(table[0].dest, a) && (rest.None? || rest.value.dest.len <= table[0].dest.len)
      then Some(table[0])
      else rest
  }

  /**
    The lookup answers with an entry of the table that holds the address and
    whose prefix is at least as long as that of every other such entry, and
    answers nothing exactly when no entry holds the address.
  */
  lemma {:induction false} LookupSpec(table: seq<Route>, a: Addr)
    ensures Lookup(table, a).Some? ==> Lookup(table, a).value in table && Contains(Lookup(table, a).value.dest, a)
    ensures Lookup(table, a).Some? ==>
      forall e :: e in table && Contains(e.dest, a) ==> e.dest.len <= Lookup(table, a).value.dest.len
    ensures Lookup(table, a).None? <==> forall e :: e in table ==> !Contains(e.dest, a)
    decreases |table|
  {
    if table != [] {
      LookupSpec(table[1..], a);
      assert forall e :: e in table ==> e == table[0] || e in table[1..];
    }
  }

  /**
    The table is unambiguous and usable: every destination is a network
    prefix, no two entries share a destination, every static route goes
    through a gateway, and that gateway lies in a prefix bound to the
    interface the route sends on.
  */
  predicate Consistent(s: NodeState) {
    && NetworkDests(Table(s))
    && DistinctDests(Table(s))
    && (forall k :: 0 <= k < |s.routes| ==> s.routes[k].hop.Via? && GatewayOn(s.addrs, s.routes[k]))
  }

  predicate NetworkDests(t: seq<Route>) {
    forall k :: 0 <= k < |t| ==> IsNetwork(t[k].dest)
  }

  predicate DistinctDests(t: seq<Route>) {
    forall k, l :: 0 <= k < l < |t| ==> t[k].dest != t[l].dest
  }

  predicate GatewayOn(addrs: seq<IfAddr>, r: Route)
    requires r.hop.Via?
  {
    exists k :: 0 <= k < |addrs| && addrs[k].dev == r.dev && Contains(addrs[k].cidr, r.hop.gw)
  }

  /**
    The interface through which a gateway is directly reachable: the
    longest of the node's own prefixes that holds the gateway (the kernel
    checks a gateway against its link-scope routes only, so static routes
    play no part). There is one exactly when some bound prefix holds the
    gateway.
  */
  function GatewayDevice(s: NodeState, gw: Addr): (r: Option<nat>)
    ensures r.Some? <==> exists k :: 0 <= k < |s.addrs| && Contains(s.addrs[k].cidr, gw)
    ensures r.Some? ==>
      exists k :: 0 <= k < |s.addrs| && s.addrs[k].dev == r.value && Contains(s.addrs[k].cidr, gw)
        && (forall l :: 0 <= l < |s.addrs| && Contains(s.addrs[l].cidr, gw) ==> s.addrs[l].cidr.len <= s.addrs[k].cidr.len)
  {
    ConnectedLookup(s.addrs, gw);
    match Lookup(Connected(s.addrs), gw)
    case Some(e) => Some(e.dev)
    case None => None
  }

  /**
    Looking an address up among the connected routes alone finds the longest
    bound prefix that holds it, and finds nothing exactly when none does.
  */
  lemma {:induction false} ConnectedLookup(addrs: seq<IfAddr>, a: Addr)
    ensures Lookup(Connected(addrs), a).Some? <==> exists k :: 0 <= k < |addrs| && Contains(addrs[k].cidr, a)
    ensures Lookup(Connected(addrs), a).Some? ==>
      exists k :: 0 <= k < |addrs| && addrs[k].dev == Lookup(Connected(addrs), a).value.dev && Contains(addrs[k].cidr, a)
        && (forall l :: 0 <= l < |addrs| && Contains(addrs[l].cidr, a) ==> addrs[l].cidr.len <= addrs[k].cidr.len)
  {
    var c := Connected(addrs);
    LookupSpec(c, a);
    assert forall l :: 0 <= l < |addrs| ==> c[l] in c && (Contains(c[l].dest, a) <==> Contains(addrs[l].cidr, a));
    if Lookup(c, a).Some? {
      var k :| 0 <= k < |c| && c[k] == Lookup(c, a).value;
      assert Contains(addrs[k].cidr, a);
    }
  }

  /**
    `ip a a c dev d`: binds the address and installs its prefix as a
    connected route; refused when that prefix is already in the table.
  */
  function WithAddress(s: NodeState, dev: nat, c: Cidr): (r: Option<NodeState>)
    ensures r.Some? <==> !HasDest(Table(s), Prefix(c))
    ensures r.Some? ==> r.value.addrs == s.addrs + [IfAddr(dev, c)] && r.value.routes == s.routes
    ensures r.Some? ==> r.value.forwarding == s.forwarding
  {
    if HasDest(Table(s), Prefix(c)) then None
    else
      Some(s.(addrs := s.addrs + [IfAddr(dev, c)]))
  }

  /** Binding an address that the kernel accepts keeps the table consistent. */
  lemma {:induction false} AddressKeepsConsistent(s: NodeState, dev: nat, c: Cidr)
    requires Consistent(s) && WithAddress(s, dev, c).Some?
    ensures Consistent(WithAddress(s, dev, c).value)
  {
    var s' := WithAddress(s, dev, c).value;
    var x := Route(Prefix(c), Direct, dev);
    ConnectedAppend(s.addrs, IfAddr(dev, c));
    InsertKeepsDests(Connected(s.addrs), x, s.routes);
    assert Table(s') == Connected(s.addrs) + [x] + s.routes;
    forall k | 0 <= k < |s'.routes| ensures s'.routes[k].hop.Via? && GatewayOn(s'.addrs, s'.routes[k]) {
      var j :| 0 <= j < |s.addrs| && s.addrs[j].dev == s.routes[k].dev && Contains(s.addrs[j].cidr, s.routes[k].hop.gw);
      assert s'.addrs[j] == s.addrs[j];
    }
  }

  lemma ConnectedAppend(addrs: seq<IfAddr>, x: IfAddr)
    ensures Connected(addrs + [x]) == Connected(addrs) + [Route(Prefix(x.cidr), Direct, x.dev)]
  {
  }

  lemma ConnectedPair(x: IfAddr, y: IfAddr)
    ensures Connected([x]) == [Route(Prefix(x.cidr), Direct, x.dev)]
    ensures Connected([x, y]) == [Route(Prefix(x.cidr), Direct, x.dev), Route(Prefix(y.cidr), Direct, y.dev)]
  {
  }

  /** A two-entry table whose prefix lengths differ has distinct destinations. */
  lemma TwoLengths(t: seq<Route>)
    requires |t| == 2 && t[0].dest.len != t[1].dest.len
    ensures DistinctDests(t)
  {
  }

  /** A four-entry table whose prefix lengths all differ has distinct destinations. */
  lemma FourLengths(t: seq<Route>)
    requires |t| == 4
    requires t[0].dest.len != t[1].dest.len && t[0].dest.len != t[2].dest.len && t[0].dest.len != t[3].dest.len
    requires t[1].dest.len != t[2].dest.len && t[1].dest.len != t[3].dest.len && t[2].dest.len != t[3].dest.len
    ensures DistinctDests(t)
  {
  }

  /** Inserting an entry with a new network destination keeps the destinations distinct networks. */
  lemma {:induction false} InsertKeepsDests(front: seq<Route>, x: Route, back: seq<Route>)
    requires NetworkDests(front + back) && DistinctDests(front + back)
    requires IsNetwork(x.dest) && !HasDest(front + back, x.dest)
    ensures NetworkDests(front + [x] + back) && DistinctDests(front + [x] + back)
  {
    var t, t' := front + back, front + [x] + back;
    var n := |front|;
    forall k, l | 0 <= k < l < |t'| ensures t'[k].dest != t'[l].dest {
      if k == n {
        assert t'[l] == t[l - 1];
      } else if l == n {
        assert t'[k] == t[k];
      } else {
        var k0 := if k < n then k else k - 1;
        var l0 := if l < n then l else l - 1;
        assert t'[k] == t[k0] && t'[l] == t[l0];
      }
    }
    forall k | 0 <= k < |t'| ensures IsNetwork(t'[k].dest) {
      if k < n {
        assert t'[k] == t[k];
      } else if k > n {
        assert t'[k] == t[k - 1];
      }
    }
  }

  /**
    `ip r a dest via gw`: installs a static route sent on the interface
    through which the gateway is directly reachable; refused when the
    destination has host bits, is already in the table, or no bound prefix
    holds the gateway.
  */
  function WithRoute(s: NodeState, dest: Cidr, gw: Addr): (r: Option<NodeState>)
    ensures r.Some? <==> IsNetwork(dest) && !HasDest(Table(s), dest) && GatewayDevice(s, gw).Some?
    ensures r.Some? ==> r.value.addrs == s.addrs && r.value.forwarding == s.forwarding
    ensures r.Some? ==> r.value.routes == s.routes + [Route(dest, Via(gw), GatewayDevice(s, gw).value)]
  {
    if !IsNetwork(dest) || HasDest(Table(s), dest) then None
    else match GatewayDevice(s, gw)
      case None => None
      case Some(dev) =>
        Some(s.(routes := s.routes + [Route(dest, Via(gw), dev)]))
  }

  /** Installing a static route that the kernel accepts keeps the table consistent. */
  lemma {:induction false} RouteKeepsConsistent(s: NodeState, dest: Cidr, gw: Addr)
    requires Consistent(s) && WithRoute(s, dest, gw).Some?
    ensures Consistent(WithRoute(s, dest, gw).value)
  {
    var s' := WithRoute(s, dest, gw).value;
    var e := Route(dest, Via(gw), GatewayDevice(s, gw).value);
    InsertKeepsDests(Table(s), e, []);
    assert Table(s') == Table(s) + [e] + [];
    forall k | 0 <= k < |s'.routes| ensures s'.routes[k].hop.Via? && GatewayOn(s'.addrs, s'.routes[k]) {
      if k < |s.routes| {
        assert s'.routes[k] == s.routes[k];
      } else {
        assert s'.routes[k] == e;
      }
    }
  }

  /**
    In an unambiguous table, a matching entry that no other matching entry
    beats in length is the entry the lookup answers with.
  */
  lemma {:induction false} LookupFinds(t: seq<Route>, a: Addr, n: nat)
    requires NetworkDests(t) && DistinctDests(t)
    requires n < |t| && Contains(t[n].dest, a)
    requires forall k :: 0 <= k < |t| && Contains(t[k].dest, a) ==> t[k].dest.len <= t[n].dest.len
    ensures Lookup(t, a) == Some(t[n])
  {
    LookupSpec(t, a);
    assert Lookup(t, a).Some?;
    var r := Lookup(t, a).value;
    var k :| 0 <= k < |t| && t[k] == r;
    assert r.dest.len == t[n].dest.len;
    SameLengthOverlap(r.dest, t[n].dest, a);
    assert k == n;
  }

  /** The first n entries of an unambiguous table are an unambiguous table without the entry n's destination. */
  lemma {:induction false} PrefixDests(t: seq<Route>, n: nat)
    requires NetworkDests(t) && DistinctDests(t) && n < |t|
    ensures NetworkDests(t[..n]) && DistinctDests(t[..n])
    ensures !HasDest(t[..n], t[n].dest)
  {
  }

  /**
    Binding an address to a node with no static routes, when the table so
    far is the beginning of an unambiguous table `full` whose next entry is
    the address's prefix, succeeds and extends the table by that entry.
  */
  lemma {:induction false} AddressAppends(s: NodeState, dev: nat, c: Cidr, full: seq<Route>)
    requires s.routes == [] && NetworkDests(full) && DistinctDests(full)
    requires |Table(s)| < |full| && Table(s) == full[..|Table(s)|]
    requires full[|Table(s)|] == Route(Prefix(c), Direct, dev)
    ensures WithAddress(s, dev, c) == Some(s.(addrs := s.addrs + [IfAddr(dev, c)]))
    ensures Table(s.(addrs := s.addrs + [IfAddr(dev, c)])) == full[..|Table(s)| + 1]
  {
  }

  /**
    A gateway held by bound prefix g, where no other bound prefix holding it
    is longer, is reached through g's interface, provided the bound
    prefixes are distinct.
  */
  lemma {:induction false} GatewayFound(s: NodeState, gw: Addr, g: nat)
    requires DistinctDests(Connected(s.addrs))
    requires g < |s.addrs| && Contains(s.addrs[g].cidr, gw)
    requires forall k :: 0 <= k < |s.addrs| && Contains(s.addrs[k].cidr, gw) ==> s.addrs[k].cidr.len <= s.addrs[g].cidr.len
    ensures GatewayDevice(s, gw) == Some(s.addrs[g].dev)
  {
    var c := Connected(s.addrs);
    assert forall k :: 0 <= k < |c| ==> (Contains(c[k].dest, gw) <==> Contains(s.addrs[k].cidr, gw));
    LookupFinds(c, gw, g);
  }

  /**
    Installing a static route, when the table so far is the beginning of an
    unambiguous table `full` whose next entry is that route sent on the
    gateway's interface, succeeds and extends the table by that entry.
  */
  lemma {:induction false} RouteAppends(s: NodeState, dest: Cidr, gw: Addr, dev: nat, full: seq<Route>)
    requires NetworkDests(full) && DistinctDests(full)
    requires |Table(s)| < |full| && Table(s) == full[..|Table(s)|]
    requires full[|Table(s)|] == Route(dest, Via(gw), dev)
    requires GatewayDevice(s, gw) == Some(dev)
    ensures WithRoute(s, dest, gw) == Some(s.(routes := s.routes + [Route(dest, Via(gw), dev)]))
    ensures Table(s.(routes := s.routes + [Route(dest, Via(gw), dev)])) == full[..|Table(s)| + 1]
  {
    var t, n, e := Table(s), |Table(s)|, Route(dest, Via(gw), dev);
    assert IsNetwork(dest) && !HasDest(t, dest) by {
      PrefixDests(full, n);
    }
    var s' := s.(routes := s.routes + [e]);
    assert Table(s') == t + [e];
    assert full[..n + 1] == full[..n] + [full[n]];
  }

  /**
    A node in a network namespace: what the shell commands issued through
    `.cmd(...)` leave in its kernel.
  */
  class Node {
    var addrs: seq<IfAddr>
    var routes: seq<Route>
    var forwarding: bool

    function State(): NodeState
      reads this
    {
      NodeState(addrs, routes, forwarding)
    }

    /** A fresh node: no address, no route, forwarding off. */
    constructor ()
      ensures State() == NodeState([], [], false)
      ensures Consistent(State())
    {
      addrs, routes, forwarding := [], [], false;
    }

    /** `sysctl -w net.ipv4.ip_forward=1` */
    method EnableForwarding()
      modifies this
      ensures State() == old(State()).(forwarding := true)
      ensures Consistent(old(State())) ==> Consistent(State())
    {
      ghost var before := State();
      forwarding := true;
      assert Table(State()) == Table(before);
    }

    /** `ip a a c dev <interface dev>`; `ok` is false when the command is refused. */
    method AddAddress(dev: nat, c: Cidr) returns (ok: bool)
      modifies this
      ensures ok <==> WithAddress(old(State()), dev, c).Some?
      ensures State() == if ok then WithAddress(old(State()), dev, c).value else old(State())
      ensures Consistent(old(State())) ==> Consistent(State())
    {
      var next := WithAddress(State(), dev, c);
      ok := next.Some?;
      if ok {
        if Consistent(State()) {
          AddressKeepsConsistent(State(), dev, c);
        }
        addrs := next.value.addrs;
      }
    }

    /** `ip r a dest via gw`; `ok` is false when the command is refused. */
    method AddRoute(dest: Cidr, gw: Addr) returns (ok: bool)
      modifies this
      ensures ok <==> WithRoute(old(State()), dest, gw).Some?
      ensures State() == if ok then WithRoute(old(State()), dest, gw).value else old(State())
      ensures Consistent(old(State())) ==> Consistent(State())
    {
      var next := WithRoute(State(), dest, gw);
      ok := next.Some?;
      if ok {
        if Consistent(State()) {
          RouteKeepsConsistent(State(), dest, gw);
        }
        routes := next.value.routes;
      }
    }
  }
}
