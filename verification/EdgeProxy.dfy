/**
 The edge proxy: every node turns a cluster snapshot into its own route table and allowlist, and
 hands connections for remote endpoints to the peer on the endpoint's node through a tunnel.
 Snapshots are already parsed values; iptables outcomes are inputs.
 */
module EdgeProxy {
  import opened Options
  import opened Text
  import opened NetAddr

  datatype TargetPort = Unset | Number(value: int) | Name(name: string)

  datatype ServicePort = ServicePort(port: int, nodePort: int, target: TargetPort)

  datatype Service = Service(namespace: string, name: string, loadBalancer: bool, ports: seq<ServicePort>,
      ingress: seq<string>)

  datatype EndpointPort = EndpointPort(name: Option<string>, port: Option<int>, protocol: Option<string>)

  datatype Endpoint = Endpoint(addresses: seq<string>, nodeName: string, ready: Option<bool>)

  datatype EndpointSlice = EndpointSlice(namespace: string, service: string, addressType: string,
                                         ports: seq<EndpointPort>, endpoints: seq<Endpoint>)

  /** A Node object: its name and its InternalIP addresses in order. */
  datatype NodeItem = NodeItem(name: string, internal: seq<string>)

  datatype NodeAddrs = NodeAddrs(v4: string, v6: string)

  datatype Snapshot = Snapshot(services: seq<Service>, slices: seq<EndpointSlice>, nodes: seq<NodeItem>)

  /** One proxy: its node's name, its port, the shared token and whether its kernel can redirect IPv6. */
  datatype Config = Config(name: string, proxyPort: string, token: string, ipv6: bool)

  datatype Target = Target(address: string, nodeName: string)

  datatype Route = Route(dial: string, tunnelTarget: string)

  const NO_ROUTE := Route("", "")

  datatype NodePortKey = NodePortKey(port: int, v6: bool)

  datatype Table = Table(loadBalancers: map<string, Route>, nodePorts: map<NodePortKey, Route>, allowed: set<string>)

  const EMPTY_TABLE := Table(map[], map[], {})

  // ---- host:port text ----

  function Decimal(n: int): string { if n < 0 then "-" + Itoa(-n) else Itoa(n) }

  function JoinHostPort(host: string, port: string): string {
    if ':' in host then "[" + host + "]:" + port else host + ":" + port
  }

  /** net.SplitHostPort. */
  function SplitHostPort(s: string): Option<(string, string)> {
    var i := LastIndexOf(s, ':');
    if i < 0 then None
    else if s[0] == '['
    then
      var end := IndexOf(s, ']');
      if end == |s| || end + 1 != i || '[' in s[1..] || ']' in s[end + 1..] then None else Some((s[1..end], s[i + 1..]))
    else if ':' in s[..i] || '[' in s || ']' in s then None
    else Some((s[..i], s[i + 1..]))
  }

  predicate Flat(s: string) { ':' !in s && '[' !in s && ']' !in s }

  lemma {:induction false} LastColonAt(a: string, b: string)
    requires ':' !in b
    ensures LastIndexOf(a + ":" + b, ':') == |a|
  {
    var s := a + ":" + b;
    assert s[|a|] == ':';
    forall k | |a| < k < |s| ensures s[k] != ':' { assert s[k] == b[k - |a| - 1]; }
  }

  lemma BracketedCut(host: string, port: string)
    requires ':' !in port && '[' !in host && ']' !in host && '[' !in port && ']' !in port
    ensures SplitHostPort("[" + host + "]:" + port) == Some((host, port))
  {
    var open, rest := "[" + host, ":" + port;
    var s := open + "]" + rest;
    assert s == "[" + host + "]:" + port == (open + "]") + ":" + port;
    LastColonAt(open + "]", port);
    IndexOfAppend(open, ']', rest);
    assert s[|open| + 1..] == rest && ']' !in rest;
    assert s[1..|open|] == host && s[|open| + 2..] == port;
    BracketFree(host, port);
    assert s[1..] == host + "]:" + port;
  }

  lemma BracketFree(host: string, port: string)
    requires '[' !in host && '[' !in port
    ensures '[' !in host + "]:" + port
  {
  }

  lemma PlainCut(host: string, port: string)
    requires Flat(port) && Flat(host)
    ensures SplitHostPort(host + ":" + port) == Some((host, port))
  {
    var s := host + ":" + port;
    LastColonAt(host, port);
    assert s[..|host|] == host && s[|host| + 1..] == port;
    assert s[0] == if host == "" then ':' else host[0];
    PlainFree(host, port);
  }

  lemma PlainFree(host: string, port: string)
    requires Flat(port) && Flat(host)
    ensures '[' !in host + ":" + port && ']' !in host + ":" + port
  {
  }

  lemma HostPortRoundTrip(host: string, port: string)
    requires Flat(port) && '[' !in host && ']' !in host
    ensures SplitHostPort(JoinHostPort(host, port)) == Some((host, port))
  {
    hide SplitHostPort;
    if ':' in host {
      BracketedCut(host, port);
    } else {
      PlainCut(host, port);
    }
  }

  lemma DigitsFlat(s: string)
    requires AllDigits(s)
    ensures Flat(s) && forall k :: 0 <= k < |s| ==> !IsSpace(s[k])
  {
  }

  /** Decimal text is one plain word, and passes the port test exactly for a port number. */
  lemma DecimalPlain(n: int)
    ensures Flat(Decimal(n)) && Decimal(n) != "" && forall k :: 0 <= k < |Decimal(n)| ==> !IsSpace(Decimal(n)[k])
    ensures (Atoi(Decimal(n)).Some? && 1 <= Atoi(Decimal(n)).value <= 65535) <==> 1 <= n <= 65535
  {
    hide Flat, IsSpace, Itoa;
    var m: nat := if n < 0 then -n else n;
    ItoaReads(m);
    DigitsFlat(Itoa(m));
    if n < 0 {
      assert Decimal(n)[1..] == Itoa(m);
      NegativePlain(Itoa(m));
    } else {
      assert Itoa(m)[0] != '-' && Itoa(m)[0] != '+';
    }
  }

  lemma NegativePlain(s: string)
    requires Flat(s) && forall k :: 0 <= k < |s| ==> !IsSpace(s[k])
    ensures Flat("-" + s) && forall k :: 0 <= k < |"-" + s| ==> !IsSpace(("-" + s)[k])
  {
  }

  // ---- endpoints behind a Service port ----

  predicate PortMatches(p: ServicePort, e: EndpointPort) {
    && (e.protocol.None? || e.protocol.value == "" || e.protocol.value == "TCP")
    && match p.target
       case Name(name) => if name != "" then e.name == Some(name) else e.port == Some(0)
       case Number(value) => e.port == Some(value)
       case Unset => e.port == Some(p.port)
  }

  predicate OfFamily(addr: string, v6: bool) {
    var ip := ParseIP(addr);
    ip.Some? && ip.value.V6? == v6
  }

  function AddressTargets(addrs: seq<string>, node: string, port: int, v6: bool): seq<Target> {
    if addrs == [] then []
    else
      var addr := addrs[|addrs| - 1];
      AddressTargets(addrs[..|addrs| - 1], node, port, v6)
      + if OfFamily(addr, v6) then [Target(JoinHostPort(addr, Decimal(port)), node)] else []
  }

  predicate Ready(e: Endpoint) { e.ready != Some(false) }

  function EndpointTargets(eps: seq<Endpoint>, port: int, v6: bool): seq<Target> {
    if eps == [] then []
    else
      var e := eps[|eps| - 1];
      EndpointTargets(eps[..|eps| - 1], port, v6)
      + if Ready(e) then AddressTargets(e.addresses, e.nodeName, port, v6) else []
  }

  predicate Uses(p: ServicePort, e: EndpointPort) { e.port.Some? && PortMatches(p, e) }

  function PortTargets(ports: seq<EndpointPort>, eps: seq<Endpoint>, p: ServicePort, v6: bool): seq<Target> {
    if ports == [] then []
    else
      var e := ports[|ports| - 1];
      PortTargets(ports[..|ports| - 1], eps, p, v6) + if Uses(p, e) then EndpointTargets(eps, e.port.value, v6) else []
  }

  predicate Belongs(slice: EndpointSlice, svc: Service, v6: bool) {
    && slice.namespace == svc.namespace && slice.service == svc.name
    && (slice.addressType == "" || (slice.addressType == "IPv6") == v6)
  }

  function Matching(slices: seq<EndpointSlice>, svc: Service, p: ServicePort, v6: bool): seq<Target> {
    if slices == [] then []
    else
      var slice := slices[|slices| - 1];
      Matching(slices[..|slices| - 1], svc, p, v6)
      + if Belongs(slice, svc, v6) then PortTargets(slice.ports, slice.endpoints, p, v6) else []
  }

  /** A ready endpoint of the family, at an address and port that back the Service port. */
  ghost predicate Backs(slices: seq<EndpointSlice>, svc: Service, p: ServicePort, v6: bool, t: Target) {
    exists slice, ep, e, addr ::
      && slice in slices && Belongs(slice, svc, v6) && ep in slice.ports && Uses(p, ep) && e in slice.endpoints
        && Ready(e)
      && addr in e.addresses && OfFamily(addr, v6)
        && t == Target(JoinHostPort(addr, Decimal(ep.port.value)), e.nodeName)
  }

  lemma {:induction false} AddressMembers(addrs: seq<string>, node: string, port: int, v6: bool, t: Target)
    ensures t in AddressTargets(addrs, node, port, v6) <==>
            exists addr :: addr in addrs && OfFamily(addr, v6) && t == Target(JoinHostPort(addr, Decimal(port)), node)
  {
    if addrs != [] {
      hide OfFamily, JoinHostPort, Decimal;
      var init, last := addrs[..|addrs| - 1], addrs[|addrs| - 1];
      AddressMembers(init, node, port, v6, t);
      assert addrs == init + [last];
    }
  }

  lemma {:induction false} EndpointMembers(eps: seq<Endpoint>, port: int, v6: bool, t: Target)
    ensures t in EndpointTargets(eps, port, v6) <==>
            exists e :: e in eps && Ready(e) && t in AddressTargets(e.addresses, e.nodeName, port, v6)
  {
    if eps != [] {
      hide AddressTargets;
      var init, last := eps[..|eps| - 1], eps[|eps| - 1];
      EndpointMembers(init, port, v6, t);
      assert eps == init + [last];
    }
  }

  lemma {:induction false} PortMembers(ports: seq<EndpointPort>, eps: seq<Endpoint>, p: ServicePort, v6: bool,
        t: Target)
    ensures t in PortTargets(ports, eps, p, v6) <==>
            exists ep :: ep in ports && Uses(p, ep) && t in EndpointTargets(eps, ep.port.value, v6)
  {
    if ports != [] {
      hide EndpointTargets, PortMatches;
      var init, last := ports[..|ports| - 1], ports[|ports| - 1];
      PortMembers(init, eps, p, v6, t);
      assert ports == init + [last];
    }
  }

  lemma {:induction false} SliceMembers(slices: seq<EndpointSlice>, svc: Service, p: ServicePort, v6: bool, t: Target)
    ensures t in Matching(slices, svc, p, v6) <==>
            exists s :: s in slices && Belongs(s, svc, v6) && t in PortTargets(s.ports, s.endpoints, p, v6)
  {
    if slices != [] {
      hide PortTargets, Belongs;
      var init, last := slices[..|slices| - 1], slices[|slices| - 1];
      SliceMembers(init, svc, p, v6, t);
      assert slices == init + [last];
    }
  }

  /** Everything listed backs the port. */
  lemma ListedBacks(slices: seq<EndpointSlice>, svc: Service, p: ServicePort, v6: bool, t: Target)
    requires t in Matching(slices, svc, p, v6)
    ensures Backs(slices, svc, p, v6, t)
  {
    hide Matching, PortTargets, EndpointTargets, AddressTargets, Belongs, PortMatches, OfFamily, JoinHostPort, Decimal,
        Ready;
    SliceMembers(slices, svc, p, v6, t);
    var s :| s in slices && Belongs(s, svc, v6) && t in PortTargets(s.ports, s.endpoints, p, v6);
    PortMembers(s.ports, s.endpoints, p, v6, t);
    var ep :| ep in s.ports && Uses(p, ep) && t in EndpointTargets(s.endpoints, ep.port.value, v6);
    EndpointMembers(s.endpoints, ep.port.value, v6, t);
    var e :| e in s.endpoints && Ready(e) && t in AddressTargets(e.addresses, e.nodeName, ep.port.value, v6);
    AddressMembers(e.addresses, e.nodeName, ep.port.value, v6, t);
  }

  /** Everything that backs the port is listed. */
  lemma BacksListed(slices: seq<EndpointSlice>, svc: Service, p: ServicePort, v6: bool, t: Target)
    requires Backs(slices, svc, p, v6, t)
    ensures t in Matching(slices, svc, p, v6)
  {
    hide Matching, PortTargets, EndpointTargets, AddressTargets, Belongs, PortMatches, OfFamily, JoinHostPort, Decimal,
        Ready;
    var s, ep, e, addr :|
      && s in slices && Belongs(s, svc, v6) && ep in s.ports && Uses(p, ep) && e in s.endpoints && Ready(e)
      && addr in e.addresses && OfFamily(addr, v6)
        && t == Target(JoinHostPort(addr, Decimal(ep.port.value)), e.nodeName);
    AddressMembers(e.addresses, e.nodeName, ep.port.value, v6, t);
    EndpointMembers(s.endpoints, ep.port.value, v6, t);
    PortMembers(s.ports, s.endpoints, p, v6, t);
    SliceMembers(slices, svc, p, v6, t);
  }

  /** The endpoints listed are exactly the ready ones of the family that back the port. */
  lemma MatchingExactly(slices: seq<EndpointSlice>, svc: Service, p: ServicePort, v6: bool, t: Target)
    ensures t in Matching(slices, svc, p, v6) <==> Backs(slices, svc, p, v6, t)
  {
    hide Matching, Backs;
    if t in Matching(slices, svc, p, v6) {
      ListedBacks(slices, svc, p, v6, t);
    }
    if Backs(slices, svc, p, v6, t) {
      BacksListed(slices, svc, p, v6, t);
    }
  }

  // ---- node addresses ----

  function FirstOfFamily(addrs: seq<string>, v6: bool): (r: string)
    ensures r != "" ==> r in addrs && OfFamily(r, v6)
  {
    if addrs == [] then "" else
      var before := FirstOfFamily(addrs[..|addrs| - 1], v6);
      if before == "" && OfFamily(addrs[|addrs| - 1], v6) then addrs[|addrs| - 1] else before
  }

  /** The first internal address of the family that a node of this name reports, or none. */
  function NodeIP(nodes: seq<NodeItem>, name: string, v6: bool): (r: string)
    ensures r != "" ==> OfFamily(r, v6)
  {
    if nodes == [] then "" else
      var before, last := NodeIP(nodes[..|nodes| - 1], name, v6), nodes[|nodes| - 1];
      if before == "" && last.name == name then FirstOfFamily(last.internal, v6) else before
  }

  function Lookup(ips: map<string, NodeAddrs>, name: string, v6: bool): string {
    if name !in ips then "" else if v6 then ips[name].v6 else ips[name].v4
  }

  lemma EmptyIsNoAddress(v6: bool)
    ensures !OfFamily("", v6)
  {
  }

  method ReadNode(addrs: NodeAddrs, internal: seq<string>) returns (r: NodeAddrs)
    ensures r.v4 == if addrs.v4 != "" then addrs.v4 else FirstOfFamily(internal, false)
    ensures r.v6 == if addrs.v6 != "" then addrs.v6 else FirstOfFamily(internal, true)
  {
    hide OfFamily;
    r := addrs;
    for i := 0 to |internal|
      invariant r.v4 == if addrs.v4 != "" then addrs.v4 else FirstOfFamily(internal[..i], false)
      invariant r.v6 == if addrs.v6 != "" then addrs.v6 else FirstOfFamily(internal[..i], true)
    {
      assert internal[..i + 1][..i] == internal[..i];
      var addr := internal[i];
      FamilyIs(addr);
      EmptyIsNoAddress(false);
      EmptyIsNoAddress(true);
      var ip := ParseIP(addr);
      if ip.None? {
        continue;
      }
      if ip.value.V4? {
        if r.v4 == "" {
          r := r.(v4 := addr);
        }
      } else if r.v6 == "" {
        r := r.(v6 := addr);
      }
    }
    assert internal[..|internal|] == internal;
  }

  lemma FamilyIs(addr: string)
    ensures forall v6 :: OfFamily(addr, v6) <==> ParseIP(addr).Some? && ParseIP(addr).value.V6? == v6
  {
  }

  method ReadNodes(nodes: seq<NodeItem>) returns (ips: map<string, NodeAddrs>)
    ensures forall name, v6 :: Lookup(ips, name, v6) == NodeIP(nodes, name, v6)
  {
    ips := map[];
    for i := 0 to |nodes|
      invariant forall name, v6 :: Lookup(ips, name, v6) == NodeIP(nodes[..i], name, v6)
    {
      assert nodes[..i + 1][..i] == nodes[..i];
      var node := nodes[i];
      var addrs := if node.name in ips then ips[node.name] else NodeAddrs("", "");
      assert addrs.v4 == Lookup(ips, node.name, false) && addrs.v6 == Lookup(ips, node.name, true);
      addrs := ReadNode(addrs, node.internal);
      ips := ips[node.name := addrs];
    }
    assert nodes[..|nodes|] == nodes;
  }

  // ---- choosing a route ----

  predicate Local(t: Target, node: string) { t.nodeName == "" || t.nodeName == node }

  function FirstLocal(ts: seq<Target>, node: string): (i: nat)
    ensures i <= |ts| && (i < |ts| ==> Local(ts[i], node)) && forall k :: 0 <= k < i ==> !Local(ts[k], node)
  {
    if ts == [] || Local(ts[0], node) then 0 else 1 + FirstLocal(ts[1..], node)
  }

  function FirstReachable(ts: seq<Target>, nodes: seq<NodeItem>, v6: bool): (i: nat)
    ensures i <= |ts| && (i < |ts| ==> NodeIP(nodes, ts[i].nodeName, v6) != "")
    ensures forall k :: 0 <= k < i ==> NodeIP(nodes, ts[k].nodeName, v6) == ""
  {
    if ts == [] || NodeIP(nodes, ts[0].nodeName, v6) != "" then 0 else 1 + FirstReachable(ts[1..], nodes, v6)
  }

  function Choose(c: Config, nodes: seq<NodeItem>, ts: seq<Target>, v6: bool): Route {
    var i, j := FirstLocal(ts, c.name), FirstReachable(ts, nodes, v6);
    if i < |ts| then Route(ts[i].address, "")
    else if j < |ts| then Route(JoinHostPort(NodeIP(nodes, ts[j].nodeName, v6), c.proxyPort), ts[j].address)
    else if ts != [] then Route(ts[0].address, "")
    else NO_ROUTE
  }

  function RouteFor(c: Config, snap: Snapshot, svc: Service, p: ServicePort, v6: bool): Route {
    Choose(c, snap.nodes, Matching(snap.slices, svc, p, v6), v6)
  }

  /** The route leads through the proxy on the node of an endpoint elsewhere. */
  predicate LeadsTo(c: Config, nodes: seq<NodeItem>, r: Route, t: Target, v6: bool) {
    && r.tunnelTarget == t.address && !Local(t, c.name) && NodeIP(nodes, t.nodeName, v6) != ""
    && r.dial == JoinHostPort(NodeIP(nodes, t.nodeName, v6), c.proxyPort)
  }

  ghost predicate Backed(c: Config, snap: Snapshot, svc: Service, p: ServicePort, v6: bool, r: Route) {
    exists t :: Backs(snap.slices, svc, p, v6, t) && (r == Route(t.address, "") || LeadsTo(c, snap.nodes, r, t, v6))
  }

  ghost predicate HasLocal(c: Config, snap: Snapshot, svc: Service, p: ServicePort, v6: bool) {
    exists t :: Backs(snap.slices, svc, p, v6, t) && Local(t, c.name)
  }

  /** Routes use only endpoints that back the port; one on this node wins; a tunnel leads to the endpoint's own node. */
  lemma RouteMeaning(c: Config, snap: Snapshot, svc: Service, p: ServicePort, v6: bool)
    ensures var r := RouteFor(c, snap, svc, p, v6);
            && (r == NO_ROUTE || Backed(c, snap, svc, p, v6, r))
            && (r == NO_ROUTE <==> forall t :: !Backs(snap.slices, svc, p, v6, t))
            && (HasLocal(c, snap, svc, p, v6) ==>
                exists t :: Backs(snap.slices, svc, p, v6, t) && Local(t, c.name) && r == Route(t.address, ""))
            && (r.tunnelTarget != "" ==>
                exists t :: Backs(snap.slices, svc, p, v6, t) && LeadsTo(c, snap.nodes, r, t, v6))
  {
    hide Matching, Backs, JoinHostPort, NodeIP;
    var ts := Matching(snap.slices, svc, p, v6);
    forall t ensures t in ts <==> Backs(snap.slices, svc, p, v6, t) { MatchingExactly(snap.slices, svc, p, v6, t); }
    var i, j := FirstLocal(ts, c.name), FirstReachable(ts, snap.nodes, v6);
    forall t | t in ts ensures t.address != "" { AddressNonEmpty(snap.slices, svc, p, v6, t); }
    if ts != [] {
      assert ts[0] in ts;
      if i < |ts| {
        assert ts[i] in ts;
      } else if j < |ts| {
        assert ts[j] in ts && LeadsTo(c, snap.nodes, Choose(c, snap.nodes, ts, v6), ts[j], v6);
      }
    }
  }

  lemma AddressNonEmpty(slices: seq<EndpointSlice>, svc: Service, p: ServicePort, v6: bool, t: Target)
    requires Backs(slices, svc, p, v6, t)
    ensures t.address != ""
  {
  }

  method FindRoute(c: Config, ips: map<string, NodeAddrs>, ghost nodes: seq<NodeItem>, ts: seq<Target>, v6: bool)
    returns (r: Route)
    requires forall name, family :: Lookup(ips, name, family) == NodeIP(nodes, name, family)
    ensures r == Choose(c, nodes, ts, v6)
  {
    hide NodeIP, Lookup, JoinHostPort;
    for i := 0 to |ts|
      invariant i <= FirstLocal(ts, c.name)
    {
      if ts[i].nodeName == "" || ts[i].nodeName == c.name {
        return Route(ts[i].address, "");
      }
    }
    for i := 0 to |ts|
      invariant i <= FirstReachable(ts, nodes, v6)
    {
      var nodeIP := Lookup(ips, ts[i].nodeName, v6);
      if nodeIP != "" {
        return Route(JoinHostPort(nodeIP, c.proxyPort), ts[i].address);
      }
    }
    if |ts| > 0 {
      return Route(ts[0].address, "");
    }
    return NO_ROUTE;
  }

  method AppendEndpoints(out: seq<Target>, eps: seq<Endpoint>, port: int, v6: bool) returns (r: seq<Target>)
    ensures r == out + EndpointTargets(eps, port, v6)
  {
    hide OfFamily, JoinHostPort, Decimal;
    r := out;
    for i := 0 to |eps|
      invariant r == out + EndpointTargets(eps[..i], port, v6)
    {
      assert eps[..i + 1][..i] == eps[..i];
      var ep := eps[i];
      if ep.ready == Some(false) {
        continue;
      }
      ghost var before := r;
      for k := 0 to |ep.addresses|
        invariant r == before + AddressTargets(ep.addresses[..k], ep.nodeName, port, v6)
      {
        assert ep.addresses[..k + 1][..k] == ep.addresses[..k];
        var addr := ep.addresses[k];
        if !OfFamily(addr, v6) {
          continue;
        }
        r := r + [Target(JoinHostPort(addr, Decimal(port)), ep.nodeName)];
      }
      assert ep.addresses[..|ep.addresses|] == ep.addresses;
    }
    assert eps[..|eps|] == eps;
  }

  method MatchingEndpoints(slices: seq<EndpointSlice>, svc: Service, p: ServicePort, v6: bool)
    returns (out: seq<Target>)
    ensures out == Matching(slices, svc, p, v6)
  {
    hide PortMatches, EndpointTargets;
    out := [];
    for i := 0 to |slices|
      invariant out == Matching(slices[..i], svc, p, v6)
    {
      assert slices[..i + 1][..i] == slices[..i];
      var slice := slices[i];
      if slice.namespace != svc.namespace || slice.service != svc.name {
        continue;
      }
      if slice.addressType != "" && (slice.addressType == "IPv6") != v6 {
        continue;
      }
      ghost var before := out;
      for k := 0 to |slice.ports|
        invariant out == before + PortTargets(slice.ports[..k], slice.endpoints, p, v6)
      {
        assert slice.ports[..k + 1][..k] == slice.ports[..k];
        var epPort := slice.ports[k];
        if epPort.port.None? || !PortMatches(p, epPort) {
          continue;
        }
        out := AppendEndpoints(out, slice.endpoints, epPort.port.value, v6);
      }
      assert slice.ports[..|slice.ports|] == slice.ports;
    }
    assert slices[..|slices|] == slices;
  }
}
