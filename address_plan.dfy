/**
  The address plan of the hub-and-spoke WAN: one LAN per branch site, one
  point-to-point /29 per hub-to-branch link, and the two aggregates the
  branch routers send towards the hub. Branch index i (0..5) is site i+1
  (router r{i+1}, host h{i+1}).
*/
module AddressPlan {
  import opened Options
  import opened Ipv4
  import opened DottedQuad

  /** suc_count: the fixed number of branch sites. */
  const BranchCount: nat := 6

  type Branch = i: nat | i < BranchCount

  /** The LAN of branch i: 10.0.{i+1}.0/24. */
  function LanPrefix(i: Branch): Cidr {
    Cidr(Dotted(10, 0, i + 1, 0), 24)
  }

  /** The branch router's LAN address, `10.0.{i+1}.1/24` on r{i+1}-eth0. */
  function RouterLan(i: Branch): Cidr {
    Cidr(Dotted(10, 0, i + 1, 1), 24)
  }

  /** The host's address, `10.0.{i+1}.100/24`. */
  function HostLan(i: Branch): Cidr {
    Cidr(Dotted(10, 0, i + 1, 100), 24)
  }

  /** The host's default gateway, `via 10.0.{i+1}.1`. */
  function HostGateway(i: Branch): Addr {
    Dotted(10, 0, i + 1, 1)
  }

  /** The WAN space is carved into /29 blocks from 192.168.100.0. */
  const WanBase: Addr := Dotted(192, 168, 100, 0)

  /** The i-th /29 block of the WAN space: the link between the hub and branch i. */
  function WanBlock(i: Branch): Cidr {
    Cidr(WanBase + 8 * i, 29)
  }

  /** The branch router's end of link i: the first usable address of the block. */
  function WanRouter(i: Branch): Cidr {
    Cidr(WanBase + 8 * i + 1, 29)
  }

  /** The hub's end of link i: the last usable address of the block. */
  function WanHub(i: Branch): Cidr {
    Cidr(WanBase + 8 * i + 6, 29)
  }

  /** The static route every branch router sends to the hub for all LANs. */
  const LanAggregate: Cidr := Cidr(Dotted(10, 0, 0, 0), 21)

  /** The static route every branch router sends to the hub for all WAN links. */
  const WanAggregate: Cidr := Cidr(WanBase, 26)

  /** The hand-written table `wan_ips_routers`. */
  const WanIpsRouters: seq<string> := [
    "192.168.100.1/29", "192.168.100.9/29", "192.168.100.17/29",
    "192.168.100.25/29", "192.168.100.33/29", "192.168.100.41/29"]

  /** The hand-written table `wan_ips_rc`. */
  const WanIpsRc: seq<string> := [
    "192.168.100.6/29", "192.168.100.14/29", "192.168.100.22/29",
    "192.168.100.30/29", "192.168.100.38/29", "192.168.100.46/29"]

  /** The text of the WAN address 192.168.100.k/29, given the decimal text of k. */
  lemma WanText(k: nat, digits: string)
    requires k < 256 && Decimal(k) == digits
    ensures FormatCidr(Cidr(Dotted(192, 168, 100, k), 29)) == "192.168.100." + digits + "/29"
  {
    var addr := FormatAddr(Dotted(192, 168, 100, k));
    FormatDotted(192, 168, 100, k);
    DecimalLiterals();
    assert addr == "192.168.100." + digits;
    Join2(addr, "29", '/');
    assert addr + ['/'] + "29" == addr + "/29";
  }

  lemma DecimalLiterals()
    ensures Decimal(192) + "." + Decimal(168) + "." + Decimal(100) + "." == "192.168.100."
    ensures Decimal(29) == "29"
  {
  }

  /** Entry i of `wan_ips_routers`, given the decimal text of its last octet. */
  lemma RouterEntry(i: Branch, r: string)
    requires Decimal(8 * i + 1) == r && WanIpsRouters[i] == "192.168.100." + r + "/29"
    ensures WanIpsRouters[i] == FormatCidr(WanRouter(i))
  {
    assert WanRouter(i) == Cidr(Dotted(192, 168, 100, 8 * i + 1), 29);
    WanText(8 * i + 1, r);
  }

  /** Entry i of `wan_ips_rc`, given the decimal text of its last octet. */
  lemma HubEntryText(i: Branch, h: string)
    requires Decimal(8 * i + 6) == h && WanIpsRc[i] == "192.168.100." + h + "/29"
    ensures WanIpsRc[i] == FormatCidr(WanHub(i))
  {
    assert WanHub(i) == Cidr(Dotted(192, 168, 100, 8 * i + 6), 29);
    WanText(8 * i + 6, h);
  }

  /** The table `wan_ips_routers` is the text of the first usable address of each block. */
  lemma {:induction false} RouterTableMatchesFormula(i: Branch)
    ensures |WanIpsRouters| == BranchCount
    ensures WanIpsRouters[i] == FormatCidr(WanRouter(i))
  {
    if i == 0 {
      RouterEntry(0, "1");
    } else if i == 1 {
      RouterEntry(1, "9");
    } else if i == 2 {
      RouterEntry(2, "17");
    } else if i == 3 {
      RouterEntry(3, "25");
    } else if i == 4 {
      RouterEntry(4, "33");
    } else {
      RouterEntry(5, "41");
    }
  }

  /** The table `wan_ips_rc` is the text of the last usable address of each block. */
  lemma {:induction false} HubTableMatchesFormula(i: Branch)
    ensures |WanIpsRc| == BranchCount
    ensures WanIpsRc[i] == FormatCidr(WanHub(i))
  {
    if i == 0 {
      HubEntryText(0, "6");
    } else if i == 1 {
      HubEntryText(1, "14");
    } else if i == 2 {
      HubEntryText(2, "22");
    } else if i == 3 {
      HubEntryText(3, "30");
    } else if i == 4 {
      HubEntryText(4, "38");
    } else {
      HubEntryText(5, "46");
    }
  }

  /** What the configuration loops read from the tables, through `strip_mask` where the script uses it. */
  lemma {:induction false} WanTablesParse(i: Branch)
    ensures ParseCidr(WanIpsRouters[i]) == Some(WanRouter(i))
    ensures ParseCidr(WanIpsRc[i]) == Some(WanHub(i))
    ensures StripMask(WanIpsRouters[i]) == FormatAddr(WanRouter(i).addr)
    ensures StripMask(WanIpsRc[i]) == FormatAddr(WanHub(i).addr)
    ensures ParseAddr(StripMask(WanIpsRouters[i])) == Some(WanRouter(i).addr)
    ensures ParseAddr(StripMask(WanIpsRc[i])) == Some(WanHub(i).addr)
  {
    RouterTableMatchesFormula(i);
    HubTableMatchesFormula(i);
    ParseFormatCidr(WanRouter(i));
    ParseFormatCidr(WanHub(i));
    StripMaskCidr(WanRouter(i));
    StripMaskCidr(WanHub(i));
    ParseFormatAddr(WanRouter(i).addr);
    ParseFormatAddr(WanHub(i).addr);
  }

  /**
    Link i's block is a /29 network whose first usable address goes to the
    branch router and whose last usable address goes to the hub.
  */
  lemma {:induction false} WanEndpoints(i: Branch)
    ensures IsNetwork(WanBlock(i)) && Network(WanBlock(i)) == WanBase + 8 * i
    ensures Broadcast(WanBlock(i)) == WanBase + 8 * i + 7
    ensures Prefix(WanRouter(i)) == WanBlock(i) && Prefix(WanHub(i)) == WanBlock(i)
    ensures WanRouter(i).addr == Network(WanBlock(i)) + 1
    ensures WanHub(i).addr == Broadcast(WanBlock(i)) - 1
    ensures Contains(WanRouter(i), WanHub(i).addr) && WanHub(i).addr != WanRouter(i).addr
  {
    BlockSizes();
    var n := WanBase + 8 * i;
    assert n % 8 == 0;
    NetworkOf(WanBlock(i), n);
    NetworkOf(WanRouter(i), n);
    NetworkOf(WanHub(i), n);
  }

  /** Branch i's LAN is a /24 network holding the router's and the host's address. */
  lemma {:induction false} LanEndpoints(i: Branch)
    ensures IsNetwork(LanPrefix(i)) && Network(LanPrefix(i)) == LanPrefix(i).addr
    ensures Broadcast(LanPrefix(i)) == LanPrefix(i).addr + 255
    ensures Prefix(RouterLan(i)) == LanPrefix(i) && Prefix(HostLan(i)) == LanPrefix(i)
    ensures RouterLan(i).addr == Network(LanPrefix(i)) + 1
    ensures Network(LanPrefix(i)) < HostLan(i).addr < Broadcast(LanPrefix(i))
    ensures HostLan(i).addr != RouterLan(i).addr
    ensures HostGateway(i) == RouterLan(i).addr
    ensures Contains(LanPrefix(i), HostGateway(i)) && Contains(LanPrefix(i), HostLan(i).addr)
    ensures Contains(HostLan(i), HostGateway(i))
  {
  }

  /** The six WAN blocks are pairwise disjoint. */
  lemma {:induction false} WanBlocksDisjoint(i: Branch, j: Branch)
    requires i != j
    ensures Disjoint(WanBlock(i), WanBlock(j))
  {
    WanEndpoints(i);
    WanEndpoints(j);
  }

  /** The six LANs are pairwise disjoint. */
  lemma {:induction false} LanBlocksDisjoint(i: Branch, j: Branch)
    requires i != j
    ensures Disjoint(LanPrefix(i), LanPrefix(j))
  {
  }

  /** No LAN overlaps any WAN block. */
  lemma {:induction false} LanWanDisjoint(i: Branch, j: Branch)
    ensures Disjoint(LanPrefix(i), WanBlock(j))
  {
  }

  /** The aggregates are networks: 10.0.0.0 - 10.0.7.255 and 192.168.100.0 - 192.168.100.63. */
  lemma {:induction false} AggregateBounds()
    ensures IsNetwork(LanAggregate) && Network(LanAggregate) == Dotted(10, 0, 0, 0)
    ensures Broadcast(LanAggregate) == Dotted(10, 0, 7, 255)
    ensures IsNetwork(WanAggregate) && Network(WanAggregate) == WanBase
    ensures Broadcast(WanAggregate) == Dotted(192, 168, 100, 63)
  {
  }

  /** The LAN aggregate covers every branch LAN, the WAN aggregate every link block. */
  lemma {:induction false} AggregatesCover(i: Branch)
    ensures Within(LanPrefix(i), LanAggregate)
    ensures Within(WanBlock(i), WanAggregate)
    ensures Disjoint(LanAggregate, WanBlock(i)) && Disjoint(WanAggregate, LanPrefix(i))
  {
    AggregateBounds();
    LanEndpoints(i);
    WanEndpoints(i);
  }

  /**
    The plan's capacity: branch k's LAN 10.0.{k+1}.0/24 lies in the /21
    aggregate exactly when k < 7, and its /29 WAN block lies in the /26
    aggregate exactly when k < 8, so the plan holds at most seven branches;
    six fit.
  */
  lemma {:induction false} AggregateCapacity(k: nat)
    requires k < 31
    ensures Within(Cidr(Dotted(10, 0, k + 1, 0), 24), LanAggregate) <==> k < 7
    ensures Within(Cidr(WanBase + 8 * k, 29), WanAggregate) <==> k < 8
    ensures BranchCount <= 7
  {
    AggregateBounds();
    BlockSizes();
    var lan, wan := Cidr(Dotted(10, 0, k + 1, 0), 24), Cidr(WanBase + 8 * k, 29);
    NetworkOf(lan, lan.addr);
    assert (WanBase + 8 * k) % 8 == 0;
    NetworkOf(wan, wan.addr);
  }
}
