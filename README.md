# Hub-and-spoke WAN routing plan, modelled in Dafny

`routing.py` builds an emulated WAN with six branches around one central
router `rc`. Branch `i+1` (for `i` in `0..5`) has:

- a router `r{i+1}` and a host `h{i+1}`;
- a LAN `10.0.{i+1}.0/24`: the router holds `.1` and the host holds `.100`, with the router as its default gateway;
- a point-to-point link to the hub inside the `/29` block `192.168.100.{8i}/29`: the router holds `.8i+1` and the hub holds `.8i+6`. The script writes these WAN addresses out as two literal string tables.

Each branch router sends everything in `10.0.0.0/21` and `192.168.100.0/26` to the hub. The hub sends each branch LAN to that branch's router. Then `h1` pings every other host and expects each ping to succeed.

The model has seven modules:

- `Ipv4` (`ipv4.dfy`): addresses as numbers below 2^32, CIDR prefixes, and network, broadcast, containment, nesting and disjointness.
- `DottedQuad` (`dotted_quad.dfy`):
  - Python's `str.split` and `strip_mask`;
  - decimal and dotted-quad text;
  - a parser for the canonical `a.b.c.d/p` notation, with round-trip lemmas.
- `AddressPlan` (`address_plan.dfy`):
  - the address formulas for every branch;
  - the two literal tables, proved equal, entry by entry, to the text of the formulas;
  - the geometry of the plan: endpoints, disjointness, and the two aggregates.
- `Kernel` (`kernel.dfy`): what a Linux node keeps after `ip a a`, `ip r a` and the forwarding `sysctl`. This covers:
  - connected routes and the longest-prefix-match lookup;
  - the rules under which an address or a route is accepted;
  - the invariant those rules keep;
  - the class `Node`, whose methods update the addresses, routes and forwarding flag in place.
- `RoutePlan` (`route_plan.dfy`): the tables every node ends up with, their consistency, and what their lookups return for each destination.
- `Forwarding` (`forwarding.dfy`):
  - the cabling: each switch joins exactly two interfaces;
  - hop-by-hop forwarding of a packet, bounded by its time to live;
  - the proof that every host reaches every other host through its router, the hub and the other router, with the reply coming back the same way.
- `Setup` (`setup.dfy`): the body of `myNetwork()`.
  - Each configuration loop is a method over `Node` objects. Its loop invariant ties the nodes handled so far to the plan.
  - The ping loop is a method whose outcomes are proved all to be `==PASS==`.

The branch count is the constant 6, as in the script (`suc_count = 6`). A larger count is not modelled. `AddressPlan.AggregateCapacity` shows why: under the plan's own formulas, the `/21` aggregate covers the LANs of only seven branches, and the `/26` covers only eight WAN blocks.

## Model

| member | source | states |
|---|---|---|
| Ipv4.Dotted | routing.py:85-89 | `a.b.c.d` denotes a 32-bit number whose top byte is `a` and whose low byte is `d` |
| Ipv4.BlockSizes | routing.py:112-115 | a `/21` spans 2048 addresses, a `/24` 256, a `/26` 64 and a `/29` 8 |
| Ipv4.Network | routing.py:83-84 | the network address is block-aligned and is the start of the block that holds the address |
| Ipv4.Broadcast | routing.py:83-84 | the broadcast address is the last address of the block, block-size minus one addresses after the network |
| Ipv4.Prefix | routing.py:96 | the prefix an interface address lies in is a network of the same length, holds the address, and holds exactly the addresses the interface's subnet holds |
| Ipv4.WithinContains | routing.py:112-115 | an address in a prefix nested inside an aggregate is in the aggregate |
| Ipv4.DisjointIff | routing.py:85-89 | two prefixes are disjoint exactly when no address lies in both |
| Ipv4.SameLengthOverlap | routing.py:121 | two networks of the same length that share an address are the same network |
| DottedQuad.Split | routing.py:108 | `str.split` yields at least one part, no part holds the separator, and the first part is the text before the first separator |
| DottedQuad.JoinSplit | routing.py:108 | joining the parts of a split with the separator gives back the original text |
| DottedQuad.SplitJoin | routing.py:108 | splitting a join of separator-free parts gives back the parts |
| DottedQuad.SplitPrefix | routing.py:108 | splitting a separator-free head followed by more text extends the first part |
| DottedQuad.StripMask | routing.py:107-108 | `strip_mask` returns the longest prefix of its argument without `/`: the argument unchanged when it has no `/`, otherwise everything before the first `/` |
| DottedQuad.StripMaskCidr | routing.py:107-108 | stripping the mask from `a.b.c.d/p` yields exactly `a.b.c.d` |
| DottedQuad.Decimal | routing.py:100 | the decimal text of a number is a non-empty digit string, with no leading zero, and as short as the number |
| DottedQuad.DecimalValue | routing.py:100 | the decimal text of a number reads back as that number |
| DottedQuad.CanonicalDigits | routing.py:85-89 | a digit string without leading zero is the decimal text of its value |
| DottedQuad.ParseOctet | routing.py:85-89 | an accepted octet is below 256 and its text is canonical |
| DottedQuad.ParseOctetDecimal | routing.py:85-89 | every octet's decimal text is accepted as that octet |
| DottedQuad.Octets | routing.py:85-89 | an address splits into four octets below 256 that rebuild it |
| DottedQuad.OctetsDotted | routing.py:85-89 | the octets of `a.b.c.d` are `a`, `b`, `c`, `d` |
| DottedQuad.FormatDotted | routing.py:85-89 | the text of `a.b.c.d` is the four decimals joined by dots |
| DottedQuad.ParseFormatAddr | routing.py:113 | the text of any address parses back to that address |
| DottedQuad.FormatParseAddr | routing.py:113 | any text that parses as an address is the canonical text of the result |
| DottedQuad.ParseLength | routing.py:85-89 | an accepted prefix length is written canonically |
| DottedQuad.ParseFormatCidr | routing.py:96 | the text `a.b.c.d/p` of any prefixed address parses back to it |
| AddressPlan.RouterTableMatchesFormula | routing.py:83-86 | `wan_ips_routers` has six entries, and entry i is the text of `192.168.100.(8i+1)/29` |
| AddressPlan.HubTableMatchesFormula | routing.py:84-89 | `wan_ips_rc` has six entries, and entry i is the text of `192.168.100.(8i+6)/29` |
| AddressPlan.WanTablesParse | routing.py:96-120 | both table entries parse to the router and hub ends of link i, and their stripped forms parse to the bare addresses |
| AddressPlan.WanEndpoints | routing.py:83-89 | block i is the network `192.168.100.8i/29`, the router holds its first usable address and the hub its last, both share the block, and they differ |
| AddressPlan.LanEndpoints | routing.py:51-100 | LAN i is `10.0.{i+1}.0/24`. The router holds `.1` and the host holds `.100`, neither being the network or broadcast address. Both lie in the LAN, and the host's gateway is the router's address |
| AddressPlan.WanBlocksDisjoint | routing.py:85-89 | the WAN blocks of two different links are disjoint |
| AddressPlan.LanBlocksDisjoint | routing.py:100 | the LANs of two different branches are disjoint |
| AddressPlan.LanWanDisjoint | routing.py:100-101 | every LAN is disjoint from every WAN block |
| AddressPlan.AggregateBounds | routing.py:112-115 | `10.0.0.0/21` runs from `10.0.0.0` to `10.0.7.255`, and `192.168.100.0/26` from `192.168.100.0` to `192.168.100.63` |
| AddressPlan.AggregatesCover | routing.py:112-115 | the `/21` aggregate holds every branch LAN and the `/26` holds every WAN block. Neither aggregate overlaps the other kind of block |
| AddressPlan.AggregateCapacity | routing.py:18-115 | the `/21` holds branch k's LAN `10.0.{k+1}.0/24` exactly when k < 7, and the `/26` holds the k-th `/29` exactly when k < 8. So at most seven branches fit, and six do |
| Kernel.Connected | routing.py:96-101 | every address gives one connected route, out of its device and with no gateway. Its destination is a network of the address's length that holds the address |
| Kernel.LookupSpec | routing.py:111-121 | a lookup returns an entry of the table that holds the destination and is at least as long as every other entry that holds it, and returns nothing exactly when no entry holds it |
| Kernel.LookupFinds | routing.py:111-121 | in a table of distinct networks, the longest entry that holds the destination is the one found |
| Kernel.GatewayDevice | routing.py:114-121 | a gateway is usable exactly when some bound prefix holds it. The device used carries a bound prefix that holds the gateway and that no other prefix holding it is longer than |
| Kernel.ConnectedLookup | routing.py:114-121 | a lookup among the connected routes alone finds something exactly when a bound prefix holds the address. What it finds is on the device of the longest such prefix |
| Kernel.GatewayFound | routing.py:114-121 | when the bound prefixes are distinct, the gateway is reached through the device of the longest bound prefix that holds it |
| Kernel.WithAddress | routing.py:96-101 | `ip a a` succeeds exactly when its subnet is not yet a destination in the table, whether connected or static. It appends the address and changes nothing else |
| Kernel.WithRoute | routing.py:114-121 | `ip r a` succeeds exactly when the destination is a network not yet in the table and some bound prefix holds the gateway (static routes play no part in that check). It appends the route through the gateway's device and changes nothing else |
| Kernel.AddressKeepsConsistent | routing.py:96-101 | an accepted address keeps the table consistent: networks only, no duplicate destination, every gateway on the subnet of its device |
| Kernel.RouteKeepsConsistent | routing.py:114-121 | an accepted route keeps the table consistent |
| Kernel.Node.constructor | routing.py:39-51 | a new node has no address, no route and forwarding off, which is a consistent state |
| Kernel.Node.EnableForwarding | routing.py:40-45 | the forwarding `sysctl` turns forwarding on and changes nothing else |
| Kernel.Node.AddAddress | routing.py:96-101 | the node's new state is what `WithAddress` gives when it accepts, and the node is unchanged otherwise. Consistency is kept |
| Kernel.Node.AddRoute | routing.py:114-121 | the node's new state is what `WithRoute` gives when it accepts, and the node is unchanged otherwise. Consistency is kept |
| RoutePlan.HubTable | routing.py:95-121 | the hub's table is its six connected WAN blocks followed by its six LAN routes |
| RoutePlan.HubTableDests | routing.py:118-121 | the hub's table holds only networks, and no two of its entries share a destination |
| RoutePlan.HubRoutesPerBranch | routing.py:94-121 | the hub has exactly one static route per branch LAN. Its gateway is the branch router's WAN address, which lies in the subnet of interface `rc-eth{i}` and is not the hub's own address |
| RoutePlan.HubOwnsNoLanAddress | routing.py:94-96 | the hub owns no address in any branch LAN |
| RoutePlan.BranchOwns | routing.py:99-101 | a branch router owns exactly its LAN gateway address and its WAN address |
| RoutePlan.HostOwns | routing.py:51 | a host owns exactly its `.100` address |
| RoutePlan.HubConsistent | routing.py:94-121 | the hub's planned state is consistent |
| RoutePlan.BranchTable | routing.py:99-115 | a branch router's table is its LAN, its WAN block, and the two aggregates via the hub, with distinct network destinations |
| RoutePlan.BranchConsistent | routing.py:99-115 | a branch router's planned state is consistent, so both static routes have their gateway inside the router's connected WAN `/29` |
| RoutePlan.HostTable | routing.py:51 | a host's table is its LAN and the default route via its gateway, with distinct network destinations |
| RoutePlan.DefaultRouteCovers | routing.py:51 | the default route is a network that holds every address |
| RoutePlan.HostConsistent | routing.py:51 | a host's planned state is consistent |
| RoutePlan.HubLookupLan | routing.py:118-121 | for any address in LAN j, the hub chooses the route to LAN j via router j, out of `rc-eth{j}` |
| RoutePlan.HubLookupWan | routing.py:95-96 | for any address in WAN block j, the hub chooses its connected route on `rc-eth{j}` |
| RoutePlan.BranchLookupOwnLan | routing.py:100-114 | for its own LAN, a branch router's connected `/24` beats the `/21` aggregate, even though the aggregate also holds the address |
| RoutePlan.BranchLookupOtherLan | routing.py:111-114 | for another branch's LAN, a branch router chooses the `/21` aggregate via the hub, out of its WAN interface |
| RoutePlan.BranchLookupOwnWan | routing.py:101-115 | for its own WAN block, a branch router's connected `/29` beats the `/26` aggregate |
| RoutePlan.HostLookup | routing.py:51 | a host sends its own LAN directly and everything else to its gateway |
| RoutePlan.HostLookupLocal | routing.py:51 | a host sends an address in its own LAN directly |
| RoutePlan.HostLookupRemote | routing.py:51 | a host sends an address outside its LAN to its gateway |
| Forwarding.Peer | routing.py:56-66 | an interface is cabled exactly when it has a peer. The peer is a different interface on the same switch |
| Forwarding.PeerSymmetric | routing.py:56-66 | the peer of the peer is the interface itself, and nothing else is on that switch |
| Forwarding.Step | routing.py:126-128 | a node keeps a packet exactly when it owns the destination |
| Forwarding.StepForward | routing.py:126-128 | a node that may send a packet it does not own passes it to the neighbour that its chosen route's gateway (or the destination itself) names |
| Forwarding.WalkShape | routing.py:126-128 | a packet's path starts where it was sent, visits at most one node per link it may cross plus the first, and stops at once where it arrives |
| Forwarding.WalkDelivered | routing.py:126-128 | a packet counts as delivered only when the last node it reaches keeps it |
| Forwarding.SendDelivered | routing.py:126-128 | a delivered packet ends at a node that owns the destination, and a packet for the sender's own address stays there |
| Forwarding.FollowPath | routing.py:126-128 | a packet whose nodes pass it along a path, with enough time to live, is delivered along exactly that path |
| Forwarding.HostStep | routing.py:51 | a host passes a packet for another branch's LAN to its own router |
| Forwarding.BranchUpStep | routing.py:111-115 | a branch router passes a packet for another branch's LAN to the hub |
| Forwarding.HubStep | routing.py:118-121 | the hub passes a packet for LAN j to router j |
| Forwarding.BranchDownStep | routing.py:100 | router j hands a packet for host j to host j |
| Forwarding.HostToHost | routing.py:126-128 | with the planned tables, a packet from any host to any other host goes host, its router, hub, the other router, the other host. That is three router hops and no loop, within any time to live of at least four |
| Forwarding.FirstHostReachesAll | routing.py:126-129 | h1's ping to each other host is delivered and so is the reply |
| Setup.HubAddressStep | routing.py:95-96 | `ip a a {wan_ips_rc[i]} dev rc-eth{i}` is accepted and extends the hub's addresses by link i |
| Setup.HubAddressedTable | routing.py:95-96 | after i links are addressed, the hub's table is the first i entries of its planned table |
| Setup.HubGateway | routing.py:120-121 | the hub reaches the branch end of link m through `rc-eth{m}` |
| Setup.HubRouteStep | routing.py:118-121 | `ip r a 10.0.{i+1}.0/24 via …` is accepted on the hub and extends its routes by LAN i |
| Setup.HubRoutedTable | routing.py:118-121 | after i LAN routes, the hub's table is the planned table up to those routes |
| Setup.BranchLanStep | routing.py:100 | `ip a a 10.0.{i+1}.1/24 dev r{i+1}-eth0` is accepted on a fresh router and gives the first entry of its planned table |
| Setup.BranchWanStep | routing.py:101 | `ip a a {wan_ips_routers[i]} dev r{i+1}-eth1` is accepted next and gives the first two entries |
| Setup.BranchGatewayPlace | routing.py:113-115 | the hub's end of link i, the gateway of both branch routes, lies in WAN block i and in neither the branch LAN nor the `/21` aggregate |
| Setup.BranchGateway | routing.py:113-115 | branch router i reaches the hub's end of link i through `r{i+1}-eth1` |
| Setup.BranchLanAggregateStep | routing.py:113-114 | `ip r a 10.0.0.0/21 via {rc_ip}` is accepted and gives the first three entries |
| Setup.BranchWanAggregateStep | routing.py:113-115 | `ip r a 192.168.100.0/26 via {rc_ip}` is accepted and completes the branch's plan |
| Setup.HostAddressStep | routing.py:51 | the host's `10.0.{i+1}.100/24` is accepted on a fresh host |
| Setup.HostRouteStep | routing.py:51 | the host's `defaultRoute='via 10.0.{i+1}.1'` is accepted and completes the host's plan |
| Setup.AddHub | routing.py:39-40 | `rc` is a new node with forwarding on and nothing else |
| Setup.AddRouters | routing.py:42-46 | `routers` holds six distinct new nodes, each with forwarding on and nothing else |
| Setup.AddHost | routing.py:51 | host i+1 is a new node holding its planned state |
| Setup.AddHosts | routing.py:49-52 | `hosts` holds six distinct new nodes, host i holding its planned state |
| Setup.AddressHubLink | routing.py:96 | one round of the hub address loop moves the hub from i addressed links to i+1 |
| Setup.AddressHub | routing.py:95-96 | after the loop, the hub has all six WAN addresses in order |
| Setup.AddressBranch | routing.py:100-101 | one round of the branch address loop gives router i+1 its LAN then its WAN address |
| Setup.AddressBranches | routing.py:99-101 | after the loop, every router holds its two addresses, and every other router is untouched along the way |
| Setup.RouteBranch | routing.py:113-115 | one round of the branch route loop completes router i+1's plan, with the gateway parsed from `strip_mask(wan_ips_rc[i])` |
| Setup.RouteBranches | routing.py:111-115 | after the loop, every branch router holds its planned state |
| Setup.RouteHubLink | routing.py:120-121 | one round of the hub route loop adds the route for LAN i via `strip_mask(wan_ips_routers[i])` |
| Setup.RouteHub | routing.py:118-121 | after the loop, the hub holds its planned state |
| Setup.Configure | routing.py:39-121 | after the configuration, the hub, every router and every host hold their planned states |
| Setup.SnapshotDeployed | routing.py:126-128 | nodes holding their planned states form the planned network |
| Setup.PingFromFirst | routing.py:126-129 | the ping loop records, for h2..h6 in order, whether h1's ping to that host succeeds |
| Setup.TestPings | routing.py:126-129 | on a network deployed as planned, the five outcomes are h1's pings to h2..h6 in order, and each one passes |
| Setup.MyNetwork | routing.py:14-129 | returns the configured nodes and the network their states form, which is deployed as planned. Outcome k is h1's ping to h{k+2} on that network, and every one passes |

## Left out

- The emulator: `Mininet(...)`, `addSwitch`, `addHost`, `addLink`, `build`, `start`, `CLI` and `stop` are not modelled as calls.
  - What they create is modelled as data: a node per host or router, and a fixed cabling in which interfaces are numbered in the order the links are added (`Forwarding.Attachment`).
  - The switches are plain learning switches, each joining exactly two interfaces. They appear only as that pairing.
- Shell commands run through `.cmd(...)` are not executed.
  - `sysctl`, `ip a a` and `ip r a` are modelled by their effect on the node's kernel state (`Kernel.Node`).
  - `ping` is modelled by hop-by-hop forwarding (`Forwarding.Send`).
  - `route -n` and the printed output are left out.
- Logging: `info(...)` and the closing addressing summary are output only and are left out.
- Kernel.WithAddress: an address whose subnet is already a destination in the table is refused. Linux would accept it: as a secondary address when the subnet is connected, and beside the static route when the subnet is a static destination. The script never adds such an address, and it installs its static routes only after all addresses are bound.
- Kernel.WithAddress: interfaces are not checked to exist. Device numbers only select the cable in `Forwarding.Attachment`.
- Forwarding.Send: the time to live counts links crossed. ARP, the 0.5 s timeout and packet loss are not modelled. A neighbour is reached when it owns the next-hop address.
- Setup.PingFromFirst: the outcome of one ping is a parameter. `Setup.TestPings` supplies it from the simulated network rather than from a real `ping`.
- DottedQuad.ParseAddr: only the canonical dotted quad is accepted. The `ip` tool also accepts partial quads and octal or hexadecimal octets, which the script never writes.
- AddressPlan: the addresses written as f-strings (`10.0.{i+1}.1/24`, `10.0.{i+1}.100/24`, `via 10.0.{i+1}.1`) are used as numbers. Only the literal WAN tables and the stripped gateways are modelled as text that is parsed.
- The branch count is fixed at 6, as in the script. A general planner for any number of branches, its capacity and range errors, and route-conflict detection are not modelled, because the code has none of them.
