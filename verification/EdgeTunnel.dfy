/** Route tables built from a snapshot, the tunnel header, and what a peer does with it. */
module EdgeTunnel {
  import opened Options
  import opened Text
  import opened NetAddr
  import opened EdgeProxy

  // ---- the allowlist ----

  /** Some endpoint on this node backs the port at this address. */
  ghost predicate AllowedAt(c: Config, snap: Snapshot, svc: Service, p: ServicePort, v6: bool, a: string) {
    (v6 ==> c.ipv6) && exists t :: t in Matching(snap.slices, svc, p, v6) && t.nodeName == c.name && t.address == a
  }

  ghost predicate AllowedPorts(c: Config, snap: Snapshot, svc: Service, n: nat, a: string)
    requires n <= |svc.ports|
  {
    exists k, v6 :: 0 <= k < n && AllowedAt(c, snap, svc, svc.ports[k], v6, a)
  }

  ghost predicate AllowedServices(c: Config, snap: Snapshot, n: nat, a: string)
    requires n <= |snap.services|
  {
    exists i :: 0 <= i < n && AllowedPorts(c, snap, snap.services[i], |snap.services[i].ports|, a)
  }

  method AllowLocalTargets(allowed: set<string>, ts: seq<Target>, node: string) returns (r: set<string>)
    ensures forall a :: a in r <==> a in allowed || exists t :: t in ts && t.nodeName == node && t.address == a
  {
    r := allowed;
    for i := 0 to |ts|
      invariant forall a :: a in r <==>
                a in allowed || exists k :: 0 <= k < i && ts[k].nodeName == node && ts[k].address == a
    {
      if ts[i].nodeName == node {
        r := r + {ts[i].address};
      }
    }
    forall a ensures a in r <==> a in allowed || exists t :: t in ts && t.nodeName == node && t.address == a {
      if exists t :: t in ts && t.nodeName == node && t.address == a {
        var t :| t in ts && t.nodeName == node && t.address == a;
        var k :| 0 <= k < |ts| && ts[k] == t;
        assert ts[k].nodeName == node && ts[k].address == a;
      }
    }
  }

  // ---- route tables ----

  ghost predicate NodePortSound(c: Config, snap: Snapshot, key: NodePortKey, r: Route) {
    exists svc, p :: svc in snap.services && p in svc.ports && p.nodePort == key.port > 0 && (key.v6 ==> c.ipv6)
                  && r == RouteFor(c, snap, svc, p, key.v6)
  }

  /** A LoadBalancer route falls back to the node port on its own address. */
  function LoadBalancerRoute(c: Config, snap: Snapshot, svc: Service, ip: string, p: ServicePort, v6: bool): Route {
    var r := RouteFor(c, snap, svc, p, v6);
    if r.dial == "" && p.nodePort > 0 then r.(dial := JoinHostPort(ip, Decimal(p.nodePort))) else r
  }

  /** A port that is redirected for an ingress address this kernel can serve, and the key it is filed under. */
  predicate Redirected(c: Config, ip: string, p: ServicePort, v6: bool, key: string) {
    && OfFamily(ip, v6) && (v6 ==> c.ipv6) && p.port > 0 && Decimal(p.port) != c.proxyPort
    && key == JoinHostPort(ip, Decimal(p.port))
  }

  /** The keys one ingress address of a Service asks for, and those of the whole Service. */
  ghost predicate IngressKey(c: Config, svc: Service, ip: string, key: string) {
    exists p, v6 :: p in svc.ports && Redirected(c, ip, p, v6, key)
  }

  ghost predicate ServiceKey(c: Config, svc: Service, key: string) {
    svc.loadBalancer && exists k :: 0 <= k < |svc.ingress| && IngressKey(c, svc, svc.ingress[k], key)
  }

  ghost predicate LoadBalancerSound(c: Config, snap: Snapshot, key: string, r: Route) {
    exists svc, ip, p, v6 :: svc in snap.services && svc.loadBalancer && ip in svc.ingress && p in svc.ports
                  && Redirected(c, ip, p, v6, key) && r == LoadBalancerRoute(c, snap, svc, ip, p, v6)
  }

  /** Every entry is the route of a Service port of the snapshot, in the family of its key. */
  ghost predicate Sound(c: Config, snap: Snapshot, table: Table) {
    && (forall key :: key in table.nodePorts ==> NodePortSound(c, snap, key, table.nodePorts[key]))
    && (forall key :: key in table.loadBalancers ==> LoadBalancerSound(c, snap, key, table.loadBalancers[key]))
  }

  method AddNodePort(c: Config, snap: Snapshot, ips: map<string, NodeAddrs>, table: Table, svc: Service,
        p: ServicePort, v6: bool)
    returns (r: Table)
    requires forall name, family :: Lookup(ips, name, family) == NodeIP(snap.nodes, name, family)
    requires Sound(c, snap, table) && svc in snap.services && p in svc.ports && p.nodePort > 0 && (v6 ==> c.ipv6)
    ensures Sound(c, snap, r) && r.allowed == table.allowed && NodePortKey(p.nodePort, v6) in r.nodePorts
    ensures r.loadBalancers == table.loadBalancers
    ensures table.nodePorts.Keys <= r.nodePorts.Keys
  {
    hide NodeIP, Lookup, Choose, Matching;
    var ts := MatchingEndpoints(snap.slices, svc, p, v6);
    var route := FindRoute(c, ips, snap.nodes, ts, v6);
    r := table.(nodePorts := table.nodePorts[NodePortKey(p.nodePort, v6) := route]);
    assert NodePortSound(c, snap, NodePortKey(p.nodePort, v6), route);
  }

  method AddPorts(c: Config, snap: Snapshot, ips: map<string, NodeAddrs>, table: Table, svc: Service) returns (r: Table)
    requires forall name, family :: Lookup(ips, name, family) == NodeIP(snap.nodes, name, family)
    requires Sound(c, snap, table) && svc in snap.services
    ensures Sound(c, snap, r) && r.loadBalancers == table.loadBalancers
    ensures forall a :: a in r.allowed <==> a in table.allowed || AllowedPorts(c, snap, svc, |svc.ports|, a)
    ensures table.nodePorts.Keys <= r.nodePorts.Keys
    ensures forall p :: p in svc.ports && p.nodePort > 0 ==>
              NodePortKey(p.nodePort, false) in r.nodePorts && (c.ipv6 ==> NodePortKey(p.nodePort, true) in r.nodePorts)
  {
    hide NodeIP, Lookup, Matching, Sound;
    r := table;
    for i := 0 to |svc.ports|
      invariant Sound(c, snap, r) && table.nodePorts.Keys <= r.nodePorts.Keys && r.loadBalancers == table.loadBalancers
      invariant forall a :: a in r.allowed <==> a in table.allowed || AllowedPorts(c, snap, svc, i, a)
      invariant forall k :: 0 <= k < i && svc.ports[k].nodePort > 0 ==>
                  && NodePortKey(svc.ports[k].nodePort, false) in r.nodePorts
                  && (c.ipv6 ==> NodePortKey(svc.ports[k].nodePort, true) in r.nodePorts)
    {
      var p := svc.ports[i];
      var ts := MatchingEndpoints(snap.slices, svc, p, false);
      var allowed := AllowLocalTargets(r.allowed, ts, c.name);
      if c.ipv6 {
        ts := MatchingEndpoints(snap.slices, svc, p, true);
        allowed := AllowLocalTargets(allowed, ts, c.name);
      }
      AllowedOneMore(c, snap, svc, i);
      SoundIgnoresAllowed(c, snap, r, allowed);
      r := r.(allowed := allowed);
      if p.nodePort > 0 {
        r := AddNodePort(c, snap, ips, r, svc, p, false);
        if c.ipv6 {
          r := AddNodePort(c, snap, ips, r, svc, p, true);
        }
      }
    }
  }

  lemma SoundIgnoresAllowed(c: Config, snap: Snapshot, table: Table, allowed: set<string>)
    requires Sound(c, snap, table)
    ensures Sound(c, snap, table.(allowed := allowed))
  {
  }

  lemma AllowedOneMore(c: Config, snap: Snapshot, svc: Service, i: nat)
    requires i < |svc.ports|
    ensures forall a :: AllowedPorts(c, snap, svc, i + 1, a) <==>
              || AllowedPorts(c, snap, svc, i, a)
              || AllowedAt(c, snap, svc, svc.ports[i], false, a) || AllowedAt(c, snap, svc, svc.ports[i], true, a)
  {
    hide AllowedAt;
  }

  lemma AllowedOneService(c: Config, snap: Snapshot, i: nat)
    requires i < |snap.services|
    ensures forall a :: AllowedServices(c, snap, i + 1, a) <==>
              AllowedServices(c, snap, i, a) || AllowedPorts(c, snap, snap.services[i], |snap.services[i].ports|, a)
  {
    hide AllowedPorts;
  }

  /** The redirects of one ingress address; `works` says which pairs of iptables rules could be added. */
  method AddIngress(c: Config, snap: Snapshot, ips: map<string, NodeAddrs>, table: Table, svc: Service, ip: string,
        v6: bool, works: (string, int) -> bool)
    returns (r: Table, ok: bool)
    requires forall name, family :: Lookup(ips, name, family) == NodeIP(snap.nodes, name, family)
    requires Sound(c, snap, table) && svc in snap.services && svc.loadBalancer && ip in svc.ingress
    requires OfFamily(ip, v6) && (v6 ==> c.ipv6)
    ensures Sound(c, snap, r) && r.allowed == table.allowed && r.nodePorts == table.nodePorts
    ensures table.loadBalancers.Keys <= r.loadBalancers.Keys
    ensures ok ==> forall key :: IngressKey(c, svc, ip, key) ==> key in r.loadBalancers
  {
    hide NodeIP, Lookup, Choose, Matching, OfFamily;
    r := table;
    OneFamily(ip, v6);
    for i := 0 to |svc.ports|
      invariant Sound(c, snap, r) && r.allowed == table.allowed && r.nodePorts == table.nodePorts
      invariant table.loadBalancers.Keys <= r.loadBalancers.Keys
      invariant forall k, key :: 0 <= k < i && Redirected(c, ip, svc.ports[k], v6, key) ==> key in r.loadBalancers
    {
      var p := svc.ports[i];
      if p.port <= 0 || Decimal(p.port) == c.proxyPort {
        continue;
      }
      if !works(ip, p.port) {
        return r, false;
      }
      var ts := MatchingEndpoints(snap.slices, svc, p, v6);
      var route := FindRoute(c, ips, snap.nodes, ts, v6);
      if route.dial == "" && p.nodePort > 0 {
        route := route.(dial := JoinHostPort(ip, Decimal(p.nodePort)));
      }
      var key := JoinHostPort(ip, Decimal(p.port));
      assert Redirected(c, ip, p, v6, key) && route == LoadBalancerRoute(c, snap, svc, ip, p, v6);
      assert LoadBalancerSound(c, snap, key, route);
      r := r.(loadBalancers := r.loadBalancers[key := route]);
    }
    ok := true;
  }

  lemma OneFamily(ip: string, v6: bool)
    requires OfFamily(ip, v6)
    ensures !OfFamily(ip, !v6)
  {
  }

  /** `done` Services were reached before an iptables failure, all of them without one. */
  method AddServiceRules(c: Config, snap: Snapshot, works: (string, int) -> bool)
    returns (table: Table, ok: bool, ghost done: nat)
    ensures Sound(c, snap, table) && done <= |snap.services| && (ok ==> done == |snap.services|)
    ensures forall a :: a in table.allowed <==> AllowedServices(c, snap, done, a)
    ensures forall i, p :: 0 <= i < done && p in snap.services[i].ports && p.nodePort > 0 ==>
              && NodePortKey(p.nodePort, false) in table.nodePorts
              && (c.ipv6 ==> NodePortKey(p.nodePort, true) in table.nodePorts)
    ensures ok ==> forall key :: key in table.loadBalancers <==>
              exists i :: 0 <= i < |snap.services| && ServiceKey(c, snap.services[i], key)
  {
    hide NodeIP, Lookup, AllowedPorts, OfFamily, Sound, IngressKey;
    var ips := ReadNodes(snap.nodes);
    table, ok := EMPTY_TABLE, true;
    EmptySound(c, snap);
    for i := 0 to |snap.services|
      invariant Sound(c, snap, table)
      invariant forall a :: a in table.allowed <==> AllowedServices(c, snap, i, a)
      invariant forall k, p :: 0 <= k < i && p in snap.services[k].ports && p.nodePort > 0 ==>
                  && NodePortKey(p.nodePort, false) in table.nodePorts
                  && (c.ipv6 ==> NodePortKey(p.nodePort, true) in table.nodePorts)
      invariant forall k, key :: 0 <= k < i && ServiceKey(c, snap.services[k], key) ==> key in table.loadBalancers
    {
      var svc := snap.services[i];
      AllowedOneService(c, snap, i);
      table := AddPorts(c, snap, ips, table, svc);
      done := i + 1;
      if svc.loadBalancer {
        ghost var before := table;
        for k := 0 to |svc.ingress|
          invariant Sound(c, snap, table) && table.allowed == before.allowed && table.nodePorts == before.nodePorts
          invariant before.loadBalancers.Keys <= table.loadBalancers.Keys
          invariant forall j, key :: 0 <= j < k && IngressKey(c, svc, svc.ingress[j], key) ==>
                    key in table.loadBalancers
        {
          var text := svc.ingress[k];
          var ip := ParseIP(text);
          NotServed(c, svc, text);
          if ip.None? {
            continue;
          }
          FamilyIs(text);
          if ip.value.V6? && !c.ipv6 {
            continue;
          }
          table, ok := AddIngress(c, snap, ips, table, svc, text, ip.value.V6?, works);
          if !ok {
            return;
          }
        }
      }
    }
    ok, done := true, |snap.services|;
    KeysExactly(c, snap, table);
  }

  lemma NotServed(c: Config, svc: Service, text: string)
    ensures ParseIP(text).None? || (ParseIP(text).value.V6? && !c.ipv6) ==> forall key :: !IngressKey(c, svc, text, key)
  {
    hide ParseIP, JoinHostPort, Decimal;
  }

  lemma KeysExactly(c: Config, snap: Snapshot, table: Table)
    requires Sound(c, snap, table)
    ensures forall key :: key in table.loadBalancers ==>
              exists i :: 0 <= i < |snap.services| && ServiceKey(c, snap.services[i], key)
  {
    hide Redirected, RouteFor;
    forall key | key in table.loadBalancers
      ensures exists i :: 0 <= i < |snap.services| && ServiceKey(c, snap.services[i], key)
    {
      assert LoadBalancerSound(c, snap, key, table.loadBalancers[key]);
      var svc, ip, p, v6 :| svc in snap.services && svc.loadBalancer && ip in svc.ingress && p in svc.ports
        && Redirected(c, ip, p, v6, key);
      var i :| 0 <= i < |snap.services| && snap.services[i] == svc;
      var k :| 0 <= k < |svc.ingress| && svc.ingress[k] == ip;
      assert IngressKey(c, svc, svc.ingress[k], key);
      assert ServiceKey(c, snap.services[i], key);
    }
  }

  lemma EmptySound(c: Config, snap: Snapshot)
    ensures Sound(c, snap, EMPTY_TABLE)
  {
  }

  // ---- what a proxy does with a connection ----

  const PROTOCOL := "KIACEDGE/2"

  function Header(token: string, target: string): string { PROTOCOL + " " + token + " " + target + "\n" }

  predicate ValidBackendTarget(target: string) {
    var cut := SplitHostPort(target);
    && cut.Some? && ParseIP(cut.value.0).Some?
    && var port := Atoi(cut.value.1); port.Some? && 1 <= port.value <= 65535
  }

  function Authenticate(line: string, token: string): Option<string> {
    var fields := Fields(line);
    if |fields| != 3 || fields[0] != PROTOCOL || fields[1] != token || !ValidBackendTarget(fields[2]) then None
    else Some(fields[2])
  }

  /** The first line must fit the reader's buffer of 512 bytes. */
  function FirstLine(stream: string): Option<string> {
    var i := IndexOf(stream, '\n');
    if i == |stream| || i + 1 > 512 then None else Some(stream[..i + 1])
  }

  /** The address a peer dials for a tunnel, or none when it refuses. */
  function HandleTunnel(c: Config, table: Table, stream: string): Option<string> {
    var line := FirstLine(stream);
    if line.None? then None
    else
      var target := Authenticate(line.value, c.token);
      if target.Some? && target.value in table.allowed then target else None
  }

  predicate IsProxyPort(dst: string, proxyPort: string) {
    var cut := SplitHostPort(dst);
    cut.Some? && cut.value.1 == proxyPort
  }

  function BackendRoute(table: Table, original: string): Route {
    if original in table.loadBalancers && table.loadBalancers[original].dial != "" then table.loadBalancers[original]
    else
      var cut := SplitHostPort(original);
      if cut.None? then NO_ROUTE
      else
        var port := Atoi(cut.value.1);
        if port.None? then NO_ROUTE
        else
          var key := NodePortKey(port.value, OfFamily(cut.value.0, true));
          if key in table.nodePorts then table.nodePorts[key] else NO_ROUTE
  }

  datatype Action = ServeTunnel | Forward(dial: string, header: string)

  function HandleConn(c: Config, table: Table, dst: string): Action {
    if IsProxyPort(dst, c.proxyPort) then ServeTunnel
    else
      var route := BackendRoute(table, dst);
      Forward(if route.dial == "" then dst else route.dial,
              if route.tunnelTarget == "" then "" else Header(c.token, route.tunnelTarget))
  }

  // ---- tunnels arrive ----

  /** The route leads to the proxy on the node of an endpoint that backs some Service port. */
  ghost predicate Emits(c: Config, snap: Snapshot, r: Route, t: Target) {
    exists svc, p, v6 :: svc in snap.services && p in svc.ports && (v6 ==> c.ipv6)
                      && Backs(snap.slices, svc, p, v6, t) && LeadsTo(c, snap.nodes, r, t, v6)
  }

  lemma RouteEmits(c: Config, snap: Snapshot, svc: Service, p: ServicePort, v6: bool)
    requires svc in snap.services && p in svc.ports && (v6 ==> c.ipv6)
    ensures var r := RouteFor(c, snap, svc, p, v6); r.tunnelTarget != "" ==>
              r.dial != "" && exists t :: Emits(c, snap, r, t)
  {
    hide RouteFor, Backs, NodeIP;
    RouteMeaning(c, snap, svc, p, v6);
    var r := RouteFor(c, snap, svc, p, v6);
    if r.tunnelTarget != "" {
      var t :| Backs(snap.slices, svc, p, v6, t) && LeadsTo(c, snap.nodes, r, t, v6);
      assert Emits(c, snap, r, t);
    }
  }

  /** Every tunnel a sound table can emit leads to the own node of an endpoint. */
  lemma TunnelsLeadHome(c: Config, snap: Snapshot, table: Table, dst: string)
    requires Sound(c, snap, table) && BackendRoute(table, dst).tunnelTarget != ""
    ensures exists t :: Emits(c, snap, BackendRoute(table, dst), t)
  {
    hide RouteFor, Emits, OfFamily, SplitHostPort, Atoi;
    var r := BackendRoute(table, dst);
    if dst in table.loadBalancers && table.loadBalancers[dst].dial != "" {
      var svc, ip, p, v6 :| svc in snap.services && svc.loadBalancer && ip in svc.ingress && p in svc.ports
        && Redirected(c, ip, p, v6, dst) && r == LoadBalancerRoute(c, snap, svc, ip, p, v6);
      RouteEmits(c, snap, svc, p, v6);
    } else {
      var key :| key in table.nodePorts && r == table.nodePorts[key];
      var svc, p :| svc in snap.services && p in svc.ports && p.nodePort == key.port > 0 && (key.v6 ==> c.ipv6)
        && r == RouteFor(c, snap, svc, p, key.v6);
      RouteEmits(c, snap, svc, p, key.v6);
    }
  }

  /** The port of the endpoint behind a target: its address is some IP joined with that port. */
  ghost predicate AtPort(t: Target, port: int) {
    exists addr :: ParseIP(addr).Some? && t.address == JoinHostPort(addr, Decimal(port))
  }

  /** A target has one port. */
  lemma OnePort(t: Target, port: int, other: int)
    requires AtPort(t, port) && AtPort(t, other)
    ensures port == other
  {
    hide ParseIP, JoinHostPort, Decimal, SplitHostPort;
    var x :| ParseIP(x).Some? && t.address == JoinHostPort(x, Decimal(port));
    var y :| ParseIP(y).Some? && t.address == JoinHostPort(y, Decimal(other));
    AddressCut(x, port);
    AddressCut(y, other);
    DecimalInjective(port, other);
  }

  lemma AddressCut(addr: string, port: int)
    requires ParseIP(addr).Some?
    ensures SplitHostPort(JoinHostPort(addr, Decimal(port))) == Some((addr, Decimal(port)))
  {
    hide ParseIP, Decimal, SplitHostPort, JoinHostPort;
    IPChars(addr);
    IPPlain(addr);
    DecimalPlain(port);
    HostPortRoundTrip(addr, Decimal(port));
  }

  lemma DecimalInjective(m: int, n: int)
    ensures Decimal(m) == Decimal(n) ==> m == n
  {
    var a: nat, b: nat := if m < 0 then -m else m, if n < 0 then -n else n;
    ItoaReads(a);
    ItoaReads(b);
    if Decimal(m) == Decimal(n) {
      assert Decimal(m)[0] == Decimal(n)[0];
      assert m < 0 ==> Decimal(m)[1..] == Itoa(a);
      assert n < 0 ==> Decimal(n)[1..] == Itoa(b);
    }
  }

  /** The text of a target that backs a port, and when a peer accepts it as an address. */
  lemma TargetText(slices: seq<EndpointSlice>, svc: Service, p: ServicePort, v6: bool, t: Target) returns (port: int)
    requires Backs(slices, svc, p, v6, t)
    ensures Word(t.address) && (ValidBackendTarget(t.address) <==> 1 <= port <= 65535)
    ensures AtPort(t, port) && (1 <= port <= 65535 ==> |t.address| <= 178)
  {
    hide Belongs, ParseIP, JoinHostPort, Decimal, SplitHostPort, Atoi;
    var s, ep, e, addr :|
      && s in slices && Belongs(s, svc, v6) && ep in s.ports && Uses(p, ep) && e in s.endpoints && Ready(e)
      && addr in e.addresses && OfFamily(addr, v6)
        && t == Target(JoinHostPort(addr, Decimal(ep.port.value)), e.nodeName);
    port := ep.port.value;
    AddressText(addr, port);
  }

  lemma AddressText(addr: string, port: int)
    requires ParseIP(addr).Some?
    ensures var a := JoinHostPort(addr, Decimal(port));
            Word(a) && (ValidBackendTarget(a) <==> 1 <= port <= 65535) && (1 <= port <= 65535 ==> |a| <= 178)
  {
    hide ParseIP, Decimal, SplitHostPort, Atoi;
    IPChars(addr);
    IPShort(addr);
    DecimalPlain(port);
    IPPlain(addr);
    HostPortRoundTrip(addr, Decimal(port));
    JoinedWord(addr, Decimal(port));
    if 1 <= port <= 65535 {
      PortShort(port);
    }
  }

  lemma IPPlain(addr: string)
    requires forall k :: 0 <= k < |addr| ==> IsAddrChar(addr[k])
    ensures '[' !in addr && ']' !in addr && forall k :: 0 <= k < |addr| ==> !IsSpace(addr[k])
  {
  }

  lemma JoinedWord(host: string, port: string)
    requires (forall k :: 0 <= k < |host| ==> !IsSpace(host[k])) && forall k :: 0 <= k < |port| ==> !IsSpace(port[k])
    ensures Word(JoinHostPort(host, port))
  {
  }

  lemma PortShort(port: int)
    requires 1 <= port <= 65535
    ensures |Decimal(port)| <= 5
  {
    ItoaShort(port, 5);
  }

  function Power10(k: nat): nat { if k == 0 then 1 else 10 * Power10(k - 1) }

  lemma {:induction false} ItoaShort(n: nat, k: nat)
    requires k > 0 && n < Power10(k)
    ensures |Itoa(n)| <= k
  {
    if n >= 10 {
      ItoaShort(n / 10, k - 1);
    }
  }

  lemma HeaderFields(token: string, target: string)
    requires Word(token) && Word(target)
    ensures Fields(Header(token, target)) == [PROTOCOL, token, target]
  {
    hide Fields;
    var tail := target + "\n";
    assert Header(token, target) == PROTOCOL + " " + (token + " " + tail) && tail == target + "\n" + "";
    FieldsWord(PROTOCOL, ' ', token + " " + tail);
    FieldsWord(token, ' ', tail);
    FieldsWord(target, '\n', "");
    NoFields();
  }

  lemma NoFields()
    ensures Fields("") == []
  {
  }

  /** The header is the first line of the stream it starts. */
  lemma HeaderIsFirstLine(token: string, target: string, payload: string)
    requires Word(token) && Word(target)
    ensures FirstLine(Header(token, target) + payload)
            == if |Header(token, target)| <= 512 then Some(Header(token, target)) else None
  {
    var body := PROTOCOL + " " + token + " " + target;
    assert '\n' !in body by {
      assert '\n' !in token && '\n' !in target;
    }
    assert Header(token, target) + payload == body + "\n" + payload;
    IndexOfAppend(body, '\n', payload);
    assert (body + "\n" + payload)[..|body| + 1] == Header(token, target);
  }

  /** The token as kiac generates it: one word, short enough for the header to fit. */
  predicate GoodToken(token: string) { Word(token) && |token| <= 320 }

  /**
   A tunnel arrives. Two proxies with one snapshot, token, port and IPv6 capability, the receiving one
   on the node the tunnel leads to and with every Service processed: it serves the connection as a
   tunnel and dials exactly the target, if and only if the target's own port is a port number.
   */
  lemma TunnelArrives(c: Config, peer: Config, snap: Snapshot, table: Table, r: Route, t: Target, payload: string)
    returns (port: int)
    requires Emits(c, snap, r, t) && peer.name == t.nodeName
    requires peer.token == c.token && GoodToken(c.token) && peer.proxyPort == c.proxyPort && Flat(c.proxyPort)
            && peer.ipv6 == c.ipv6
    requires forall a :: a in table.allowed <==> AllowedServices(peer, snap, |snap.services|, a)
    ensures peer.name != c.name
    ensures HandleConn(peer, table, r.dial) == ServeTunnel
    ensures AtPort(t, port)
    ensures HandleTunnel(peer, table, Header(c.token, r.tunnelTarget) + payload)
         == if 1 <= port <= 65535 then Some(r.tunnelTarget) else None
  {
    hide Backs, Word, AtPort, Fields, ValidBackendTarget, NodeIP, FirstLine, Header, AllowedServices;
    var svc, p, v6 :| svc in snap.services && p in svc.ports && (v6 ==> c.ipv6)
      && Backs(snap.slices, svc, p, v6, t) && LeadsTo(c, snap.nodes, r, t, v6);
    port := TargetText(snap.slices, svc, p, v6, t);
    DialIsProxyPort(snap.nodes, t.nodeName, v6, c.proxyPort);
    OwnTargetAllowed(peer, snap, svc, p, v6, t);
    HeaderIsFirstLine(c.token, t.address, payload);
    HeaderFields(c.token, t.address);
    HeaderLength(c.token, t.address);
  }

  /**
   Two proxies, from a client's connection to the endpoint: when one node answers a connection with a
   tunnel, it dials the proxy on the node of some endpoint; the proxy there serves it and dials that
   endpoint, if and only if that endpoint's own port is a port number.
   */
  lemma EndToEnd(a: Config, ta: Table, b: Config, tb: Table, snap: Snapshot, dst: string, payload: string)
    returns (t: Target, port: int)
    requires Sound(a, snap, ta) && forall x :: x in tb.allowed <==> AllowedServices(b, snap, |snap.services|, x)
    requires b.token == a.token && GoodToken(a.token) && b.proxyPort == a.proxyPort && Flat(a.proxyPort)
            && b.ipv6 == a.ipv6
    requires HandleConn(a, ta, dst).Forward? && HandleConn(a, ta, dst).header != ""
    ensures Emits(a, snap, BackendRoute(ta, dst), t) && HandleConn(a, ta, dst).dial == BackendRoute(ta, dst).dial
    ensures AtPort(t, port)
    ensures b.name == t.nodeName ==>
              && HandleConn(b, tb, HandleConn(a, ta, dst).dial) == ServeTunnel
              && HandleTunnel(b, tb, HandleConn(a, ta, dst).header + payload)
                 == if 1 <= port <= 65535 then Some(t.address) else None
  {
    hide Sound, AllowedServices, BackendRoute, HandleTunnel, Header, GoodToken, Flat, Backs, NodeIP, AtPort;
    TunnelsLeadHome(a, snap, ta, dst);
    var r := BackendRoute(ta, dst);
    t :| Emits(a, snap, r, t);
    assert r.dial != "" && r.tunnelTarget == t.address;
    if b.name == t.nodeName {
      port := TunnelArrives(a, b, snap, tb, r, t, payload);
    } else {
      var svc, p, v6 :| svc in snap.services && p in svc.ports && (v6 ==> a.ipv6)
        && Backs(snap.slices, svc, p, v6, t) && LeadsTo(a, snap.nodes, r, t, v6);
      port := TargetText(snap.slices, svc, p, v6, t);
    }
  }

  lemma HeaderLength(token: string, target: string)
    ensures |Header(token, target)| == |token| + |target| + 13
  {
  }

  lemma DialIsProxyPort(nodes: seq<NodeItem>, name: string, v6: bool, proxyPort: string)
    requires NodeIP(nodes, name, v6) != "" && Flat(proxyPort)
    ensures IsProxyPort(JoinHostPort(NodeIP(nodes, name, v6), proxyPort), proxyPort)
  {
    var ip := NodeIP(nodes, name, v6);
    hide ParseIP, SplitHostPort, NodeIP;
    IPChars(ip);
    IPPlain(ip);
    HostPortRoundTrip(ip, proxyPort);
  }

  lemma OwnTargetAllowed(peer: Config, snap: Snapshot, svc: Service, p: ServicePort, v6: bool, t: Target)
    requires svc in snap.services && p in svc.ports && (v6 ==> peer.ipv6)
    requires Backs(snap.slices, svc, p, v6, t) && peer.name == t.nodeName
    ensures AllowedServices(peer, snap, |snap.services|, t.address)
  {
    hide Matching, Backs;
    MatchingExactly(snap.slices, svc, p, v6, t);
    var i :| 0 <= i < |snap.services| && snap.services[i] == svc;
    var k :| 0 <= k < |svc.ports| && svc.ports[k] == p;
    assert AllowedAt(peer, snap, svc, svc.ports[k], v6, t.address);
    assert AllowedPorts(peer, snap, svc, |svc.ports|, t.address);
  }

  /** A peer stopped by an iptables failure accepts the target exactly when a Service it reached has it on this node. */
  lemma PartialPeer(peer: Config, snap: Snapshot, table: Table, done: nat, token: string, target: string,
        payload: string)
    requires done <= |snap.services| && forall a :: a in table.allowed <==> AllowedServices(peer, snap, done, a)
    requires peer.token == token && GoodToken(token) && Word(target) && ValidBackendTarget(target) && |target| <= 178
    ensures HandleTunnel(peer, table, Header(token, target) + payload)
            == if AllowedServices(peer, snap, done, target) then Some(target) else None
  {
    hide Word, Fields, ValidBackendTarget, FirstLine, Header, AllowedServices;
    HeaderIsFirstLine(token, target, payload);
    HeaderFields(token, target);
    HeaderLength(token, target);
  }

  /** Whatever a peer dials for a tunnel came with the token and is an endpoint on its own node. */
  lemma OnlyOwnEndpointsDialled(peer: Config, snap: Snapshot, table: Table, done: nat, stream: string)
    requires done <= |snap.services| && forall a :: a in table.allowed <==> AllowedServices(peer, snap, done, a)
    requires HandleTunnel(peer, table, stream).Some?
    ensures exists svc, p, v6, t :: svc in snap.services && p in svc.ports && (v6 ==> peer.ipv6)
              && Backs(snap.slices, svc, p, v6, t) && t.nodeName == peer.name
                && t.address == HandleTunnel(peer, table, stream).value
    ensures peer.token in Fields(stream[..IndexOf(stream, '\n') + 1])
  {
    hide Matching, Backs, Fields, ValidBackendTarget;
    var a := HandleTunnel(peer, table, stream).value;
    var i :| 0 <= i < done && AllowedPorts(peer, snap, snap.services[i], |snap.services[i].ports|, a);
    var svc := snap.services[i];
    var k, v6 :| 0 <= k < |svc.ports| && AllowedAt(peer, snap, svc, svc.ports[k], v6, a);
    var t :| t in Matching(snap.slices, svc, svc.ports[k], v6) && t.nodeName == peer.name && t.address == a;
    MatchingExactly(snap.slices, svc, svc.ports[k], v6, t);
    assert svc in snap.services && svc.ports[k] in svc.ports;
  }

  /** Tunnels do occur: whenever a Service's only endpoint is on another node that has an address. */
  lemma TunnelsOccur(c: Config, svc: Service, p: ServicePort, slice: EndpointSlice, ep: EndpointPort, e: Endpoint,
        address: string, node: NodeItem, ip: string)
    requires p in svc.ports && Belongs(slice, svc, false) && slice.ports == [ep] && Uses(p, ep)
            && slice.endpoints == [e] && Ready(e)
    requires e.addresses == [address] && OfFamily(address, false) && e.nodeName != "" && e.nodeName != c.name
    requires node == NodeItem(e.nodeName, [ip]) && OfFamily(ip, false)
    ensures var snap := Snapshot([svc], [slice], [node]);
            var r := RouteFor(c, snap, svc, p, false);
            r.tunnelTarget == JoinHostPort(address, Decimal(ep.port.value)) && r.dial == JoinHostPort(ip, c.proxyPort)
  {
    hide OfFamily, JoinHostPort, Decimal, Matching, NodeIP, PortMatches;
    var t := Target(JoinHostPort(address, Decimal(ep.port.value)), e.nodeName);
    OneTarget(slice, svc, p, ep, e, address);
    OneNode(node, ip);
    assert [t][1..] == [] && !Local([t][0], c.name);
    assert FirstLocal([t], c.name) == 1 && FirstReachable([t], [node], false) == 0;
  }

  lemma OneTarget(slice: EndpointSlice, svc: Service, p: ServicePort, ep: EndpointPort, e: Endpoint, address: string)
    requires Belongs(slice, svc, false) && slice.ports == [ep] && Uses(p, ep) && slice.endpoints == [e] && Ready(e)
    requires e.addresses == [address] && OfFamily(address, false)
    ensures Matching([slice], svc, p, false) == [Target(JoinHostPort(address, Decimal(ep.port.value)), e.nodeName)]
  {
    hide OfFamily, JoinHostPort, Decimal, PortMatches;
    var port := ep.port.value;
    assert [address][..0] == [] && [e][..0] == [] && [ep][..0] == [] && [slice][..0] == [];
    assert AddressTargets([address], e.nodeName, port, false)
      == [Target(JoinHostPort(address, Decimal(port)), e.nodeName)];
    assert EndpointTargets([e], port, false) == AddressTargets([address], e.nodeName, port, false);
    assert PortTargets([ep], [e], p, false) == EndpointTargets([e], port, false);
  }

  lemma OneNode(node: NodeItem, ip: string)
    requires node.internal == [ip] && OfFamily(ip, false)
    ensures NodeIP([node], node.name, false) == ip != ""
  {
    EmptyIsNoAddress(false);
    hide OfFamily;
    assert [ip][..0] == [] && [node][..0] == [];
    assert FirstOfFamily([ip], false) == ip;
  }

  // ---- the running proxy ----

  class Proxy {
    const config: Config
    var routes: Table
    ghost var snapshot: Snapshot
    ghost var reached: nat

    constructor (c: Config)
      ensures config == c && routes == EMPTY_TABLE && Valid()
    {
      config, routes := c, EMPTY_TABLE;
      snapshot, reached := Snapshot([], [], []), 0;
    }

    /** The table in force was built from one snapshot. */
    ghost predicate Valid()
      reads this
    {
      && reached <= |snapshot.services| && Sound(config, snapshot, routes)
      && forall a :: a in routes.allowed <==> AllowedServices(config, snapshot, reached, a)
    }

    /** The last part of a sync: build and install a table; without a snapshot it is empty. */
    method SyncRules(snap: Option<Snapshot>, works: (string, int) -> bool) returns (ok: bool)
      modifies this
      ensures Valid() && snapshot == (if snap.Some? then snap.value else Snapshot([], [], []))
      ensures ok ==> reached == |snapshot.services|
      ensures snap.None? ==> routes == EMPTY_TABLE
    {
      hide Sound;
      routes, ok := EMPTY_TABLE, true;
      snapshot, reached := Snapshot([], [], []), 0;
      EmptySound(config, snapshot);
      if snap.Some? {
        var table, fine, done := AddServiceRules(config, snap.value, works);
        routes, ok, snapshot, reached := table, fine, snap.value, done;
      }
    }
  }
}
