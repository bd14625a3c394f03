/**
 Address ranges of an external worker: prefixes compared bit by bit as net/netip does, proved against
 the sets of 32-bit addresses they stand for (section 3.1 of RFC 4632). Texts are already parsed.
 */
module WorkerCidr {
  import opened Options

  type Address = n: nat | n < 0x1_0000_0000

  type Bits = n: nat | n <= 32

  datatype Prefix = Prefix(addr: Address, bits: Bits)

  // ---- bits ----

  function Shr(a: nat, k: nat): nat { if k == 0 then a else Shr(a / 2, k - 1) }

  function Shl(a: nat, k: nat): nat { if k == 0 then a else 2 * Shl(a, k - 1) }

  lemma {:induction false} ShrMore(a: nat, k: nat, j: nat)
    ensures Shr(a, k + j) == Shr(Shr(a, k), j)
  {
    if k > 0 {
      ShrMore(a / 2, k - 1, j);
    }
  }

  /** Addresses that agree in their high bits agree in fewer of them too. */
  lemma AgreeHigher(a: nat, b: nat, k: nat, m: nat)
    requires Shr(a, k) == Shr(b, k) && k <= m
    ensures Shr(a, m) == Shr(b, m)
  {
    ShrMore(a, k, m - k);
    ShrMore(b, k, m - k);
  }

  /** The address with bit `k` turned over. */
  function Flip(a: nat, k: nat): nat {
    if k == 0 then (if a % 2 == 0 then a + 1 else a - 1) else 2 * Flip(a / 2, k - 1) + a % 2
  }

  lemma {:induction false} FlipDiffers(a: nat, k: nat)
    ensures Shr(Flip(a, k), k) != Shr(a, k) && Shr(Flip(a, k), k + 1) == Shr(a, k + 1)
  {
    if k == 0 {
      assert Shr(Flip(a, 0), 1) == Flip(a, 0) / 2 && Shr(a, 1) == a / 2;
    } else {
      FlipDiffers(a / 2, k - 1);
      assert Flip(a, k) / 2 == Flip(a / 2, k - 1);
    }
  }

  lemma {:induction false} ShrZero(a: nat, k: nat)
    requires Shr(a, k) == 0
    ensures a < Shl(1, k)
  {
    if k > 0 {
      ShrZero(a / 2, k - 1);
    }
  }

  lemma {:induction false} ShrSmall(a: nat, k: nat)
    requires a < Shl(1, k)
    ensures Shr(a, k) == 0
  {
    if k > 0 {
      ShrSmall(a / 2, k - 1);
    }
  }

  lemma Two32()
    ensures Shl(1, 32) == 0x1_0000_0000
  {
    assert Shl(1, 8) == 256;
    assert Shl(1, 16) == 65536 by { assert Shl(1, 12) == 4096; }
    assert Shl(1, 24) == 0x100_0000 by { assert Shl(1, 20) == 0x10_0000; }
    assert Shl(1, 28) == 0x1000_0000;
  }

  lemma FlipIsAddress(a: Address, k: nat)
    requires k < 32
    ensures Flip(a, k) < 0x1_0000_0000
  {
    Two32();
    ShrSmall(a, 32);
    FlipDiffers(a, k);
    AgreeHigher(Flip(a, k), a, k + 1, 32);
    ShrZero(Flip(a, k), 32);
  }

  // ---- prefixes as netip compares them ----

  predicate Contains(p: Prefix, a: Address) { Shr(a, 32 - p.bits) == Shr(p.addr, 32 - p.bits) }

  /** Two prefixes cut to the shorter length. */
  predicate Overlaps(p: Prefix, q: Prefix) {
    var least := if p.bits < q.bits then p.bits else q.bits;
    least == 0 || Shr(p.addr, 32 - least) == Shr(q.addr, 32 - least)
  }

  predicate Masked(p: Prefix) { p.addr == Shl(Shr(p.addr, 32 - p.bits), 32 - p.bits) }

  // ---- and as sets ----

  ghost predicate Meet(p: Prefix, q: Prefix) { exists a: Address :: Contains(p, a) && Contains(q, a) }

  ghost predicate Within(p: Prefix, q: Prefix) { forall a: Address :: Contains(p, a) ==> Contains(q, a) }

  lemma AllShrZero(a: Address, b: Address)
    ensures Shr(a, 32) == Shr(b, 32)
  {
    Two32();
    ShrSmall(a, 32);
    ShrSmall(b, 32);
  }

  /** Prefixes overlap exactly when they share an address. */
  lemma OverlapsExactly(p: Prefix, q: Prefix)
    ensures Overlaps(p, q) <==> Meet(p, q)
  {
    AllShrZero(p.addr, q.addr);
    var least := if p.bits < q.bits then p.bits else q.bits;
    if Overlaps(p, q) {
      var common := if p.bits < q.bits then q.addr else p.addr;
      assert Contains(p, common) && Contains(q, common);
    }
    if Meet(p, q) {
      var a: Address :| Contains(p, a) && Contains(q, a);
      AgreeHigher(a, p.addr, 32 - p.bits, 32 - least);
      AgreeHigher(a, q.addr, 32 - q.bits, 32 - least);
    }
  }

  /** A prefix lies within another exactly when the other is no longer and contains its address. */
  lemma WithinExactly(want: Prefix, route: Prefix)
    ensures Within(want, route) <==> route.bits <= want.bits && Contains(route, want.addr)
  {
    if route.bits <= want.bits && Contains(route, want.addr) {
      forall a: Address | Contains(want, a) ensures Contains(route, a) {
        AgreeHigher(a, want.addr, 32 - want.bits, 32 - route.bits);
      }
    }
    assert Contains(want, want.addr);
    if route.bits > want.bits {
      LongerLeavesOut(want, route);
    }
  }

  lemma LongerLeavesOut(want: Prefix, route: Prefix)
    requires route.bits > want.bits
    ensures !Within(want, route)
  {
    var k := 32 - route.bits;
    FlipIsAddress(want.addr, k);
    var a: Address := Flip(want.addr, k);
    FlipDiffers(want.addr, k);
    AgreeHigher(a, want.addr, k + 1, 32 - want.bits);
    AgreeSame(want, route, a);
  }

  /** Of two addresses that differ within a prefix length, the prefix contains one at most. */
  lemma AgreeSame(want: Prefix, route: Prefix, a: Address)
    requires Contains(want, a) && Shr(a, 32 - route.bits) != Shr(want.addr, 32 - route.bits)
    ensures !Within(want, route)
  {
    assert Contains(want, want.addr) && (!Contains(route, a) || !Contains(route, want.addr));
  }

  lemma {:induction false} ShlShr(a: nat, k: nat)
    ensures Shl(Shr(a, k), k) <= a && Shr(Shl(a, k), k) == a
  {
    if k > 0 {
      ShlShr(a / 2, k - 1);
      ShlShr(a, k - 1);
      assert Shl(Shr(a, k), k) == 2 * Shl(Shr(a / 2, k - 1), k - 1);
      assert Shr(Shl(a, k), k) == Shr(Shl(a, k) / 2, k - 1);
    }
  }

  /** A prefix is canonical exactly when its address is the lowest one it contains. */
  lemma MaskedExactly(p: Prefix)
    ensures Masked(p) <==> forall a: Address :: Contains(p, a) ==> p.addr <= a
  {
    var k := 32 - p.bits;
    forall a: Address | Contains(p, a) ensures Shl(Shr(p.addr, k), k) <= a {
      ShlShr(a, k);
    }
    ShlShr(p.addr, k);
    ShlShr(Shr(p.addr, k), k);
    var lowest: Address := Shl(Shr(p.addr, k), k);
    assert Contains(p, lowest);
  }

  method WorkerRouteCovered(want: Prefix, routes: seq<Prefix>) returns (covered: bool)
    ensures covered <==> exists i :: 0 <= i < |routes| && Within(want, routes[i])
  {
    for i := 0 to |routes|
      invariant forall k :: 0 <= k < i ==> !Within(want, routes[k])
    {
      WithinExactly(want, routes[i]);
      if routes[i].bits <= want.bits && Contains(routes[i], want.addr) {
        return true;
      }
    }
    return false;
  }

  // ---- accepting a configuration ----

  /** netip.Addr.IsGlobalUnicast for IPv4. */
  predicate GlobalUnicast(a: Address) {
    && a != 0xffff_ffff && a != 0 && !Contains(Prefix(0x7f00_0000, 8), a) && !Contains(Prefix(0xe000_0000, 4), a)
    && !Contains(Prefix(0xa9fe_0000, 16), a)
  }

  /** workerPrefix: canonical, not a full tunnel, unicast. */
  predicate WorkerPrefix(p: Prefix) { p.bits >= 1 && Masked(p) && GlobalUnicast(p.addr) }

  /** Parsed texts; None where a text is not an IPv4 prefix at all. */
  datatype Config = Config(server: Address, nodeIP: Address, pod: Option<Prefix>, service: Option<Prefix>,
                           tunnel: Option<Prefix>, endpoint: Address, allowed: seq<Option<Prefix>>)

  predicate IsRoute(p: Option<Prefix>) { p.Some? && WorkerPrefix(p.value) }

  /** Distinct canonical routes, none of which catches the tunnel's own endpoint. */
  predicate GoodRoutes(entries: seq<Option<Prefix>>, endpoint: Address) {
    && (forall i :: 0 <= i < |entries| ==> IsRoute(entries[i]) && !Contains(entries[i].value, endpoint))
    && (forall i, j :: 0 <= i < j < |entries| ==> entries[i] != entries[j])
  }

  method ParseAllowedIPs(entries: seq<Option<Prefix>>, endpoint: Address) returns (r: Option<seq<Prefix>>)
    ensures r.Some? <==> GoodRoutes(entries, endpoint)
    ensures r.Some? ==> |r.value| == |entries| && forall i :: 0 <= i < |entries| ==> entries[i] == Some(r.value[i])
  {
    hide Contains, WorkerPrefix;
    var routes: seq<Prefix> := [];
    for i := 0 to |entries|
      invariant |routes| == i && GoodRoutes(entries[..i], endpoint)
      invariant forall k :: 0 <= k < i ==> entries[k] == Some(routes[k])
    {
      var p := entries[i];
      if p.None? || !WorkerPrefix(p.value) || Contains(p.value, endpoint) {
        assert !(IsRoute(entries[i]) && !Contains(entries[i].value, endpoint));
        return None;
      }
      for k := 0 to i
        invariant forall j :: 0 <= j < k ==> routes[j] != p.value
      {
        if routes[k] == p.value {
          assert entries[k] == entries[i];
          return None;
        }
      }
      routes := routes + [p.value];
    }
    assert entries[..|entries|] == entries;
    return Some(routes);
  }

  ghost predicate CoveredBy(want: Prefix, routes: seq<Option<Prefix>>) {
    exists i :: 0 <= i < |routes| && routes[i].Some? && Within(want, routes[i].value)
  }

  /** The address part of an acceptable configuration, in terms of sets of addresses. */
  ghost predicate Acceptable(c: Config) {
    && GlobalUnicast(c.server) && GlobalUnicast(c.nodeIP) && GlobalUnicast(c.endpoint) && c.nodeIP != c.server
    && IsRoute(c.pod) && IsRoute(c.service) && !Meet(c.pod.value, c.service.value)
    && !Contains(c.pod.value, c.nodeIP) && !Contains(c.service.value, c.nodeIP)
    && !Contains(c.pod.value, c.server) && !Contains(c.service.value, c.server)
    && c.tunnel == Some(Prefix(c.nodeIP, 32)) && GoodRoutes(c.allowed, c.endpoint)
    && CoveredBy(Prefix(c.server, 32), c.allowed) && CoveredBy(c.pod.value, c.allowed)
      && CoveredBy(c.service.value, c.allowed)
  }

  method PrepareAddresses(c: Config) returns (routes: Option<seq<Prefix>>)
    ensures routes.Some? <==> Acceptable(c)
    ensures routes.Some? ==>
              && |routes.value| == |c.allowed|
              && forall i :: 0 <= i < |c.allowed| ==> c.allowed[i] == Some(routes.value[i])
  {
    hide Contains, WorkerPrefix, Within, Meet, Overlaps, GlobalUnicast, GoodRoutes;
    if !GlobalUnicast(c.server) || !GlobalUnicast(c.nodeIP) || c.nodeIP == c.server {
      return None;
    }
    if c.pod.None? || !WorkerPrefix(c.pod.value) {
      return None;
    }
    if c.service.None? || !WorkerPrefix(c.service.value) {
      return None;
    }
    var pod, service := c.pod.value, c.service.value;
    OverlapsExactly(pod, service);
    if Overlaps(pod, service) || Contains(pod, c.nodeIP) || Contains(service, c.nodeIP) || Contains(pod, c.server)
       || Contains(service, c.server) {
      return None;
    }
    if c.tunnel.None? || c.tunnel.value.bits != 32 || !GlobalUnicast(c.tunnel.value.addr)
       || !GlobalUnicast(c.endpoint) {
      return None;
    }
    var parsed := ParseAllowedIPs(c.allowed, c.endpoint);
    if parsed.None? || c.tunnel.value.addr != c.nodeIP {
      return None;
    }
    var wanted := [Prefix(c.server, 32), pod, service];
    for i := 0 to 3
      invariant forall k :: 0 <= k < i ==> CoveredBy(wanted[k], c.allowed)
    {
      var covered := WorkerRouteCovered(wanted[i], parsed.value);
      CoveredSame(wanted[i], parsed.value, c.allowed);
      if !covered {
        assert wanted[i] == Prefix(c.server, 32) || wanted[i] == pod || wanted[i] == service;
        return None;
      }
    }
    assert wanted[0] == Prefix(c.server, 32) && wanted[1] == pod && wanted[2] == service;
    return parsed;
  }

  lemma CoveredSame(want: Prefix, routes: seq<Prefix>, allowed: seq<Option<Prefix>>)
    requires |routes| == |allowed| && forall i :: 0 <= i < |allowed| ==> allowed[i] == Some(routes[i])
    ensures CoveredBy(want, allowed) <==> exists i :: 0 <= i < |routes| && Within(want, routes[i])
  {
    hide Within;
    if CoveredBy(want, allowed) {
      var i :| 0 <= i < |allowed| && allowed[i].Some? && Within(want, allowed[i].value);
      assert Within(want, routes[i]);
    }
    if exists i :: 0 <= i < |routes| && Within(want, routes[i]) {
      var i :| 0 <= i < |routes| && Within(want, routes[i]);
      assert allowed[i].Some? && Within(want, allowed[i].value);
    }
  }

  // ---- the management network ----

  function ManagementSubnet(management: Address): Prefix { Prefix(management, 24) }

  /** Join goes on exactly when no route and not the node address meets the VM's own /24. */
  method ManagementClear(management: Address, nodeIP: Address, routes: seq<Prefix>) returns (ok: bool)
    ensures ok <==>
              && !Contains(ManagementSubnet(management), nodeIP)
              && forall i :: 0 <= i < |routes| ==> !Meet(routes[i], ManagementSubnet(management))
  {
    hide Meet, Overlaps, Contains;
    var subnet := ManagementSubnet(management);
    if management == nodeIP {
      SelfContained(subnet);
      return false;
    }
    if Contains(subnet, nodeIP) {
      return false;
    }
    for i := 0 to |routes|
      invariant forall k :: 0 <= k < i ==> !Meet(routes[k], subnet)
    {
      OverlapsExactly(routes[i], subnet);
      if Overlaps(routes[i], subnet) {
        return false;
      }
    }
    return true;
  }

  lemma SelfContained(p: Prefix)
    ensures Contains(p, p.addr)
  {
  }

  /** Nothing the cluster uses is on the wrong side of the tunnel: the endpoint is outside every range it carries. */
  lemma EndpointOutside(c: Config)
    requires Acceptable(c)
    ensures c.endpoint != c.server && !Contains(c.pod.value, c.endpoint) && !Contains(c.service.value, c.endpoint)
  {
    hide WorkerPrefix, GlobalUnicast, Contains;
    CoveredMisses(Prefix(c.server, 32), c.allowed, c.endpoint);
    CoveredMisses(c.pod.value, c.allowed, c.endpoint);
    CoveredMisses(c.service.value, c.allowed, c.endpoint);
    SelfContained(Prefix(c.server, 32));
  }

  lemma CoveredMisses(want: Prefix, routes: seq<Option<Prefix>>, a: Address)
    requires CoveredBy(want, routes)
    requires forall i :: 0 <= i < |routes| && routes[i].Some? ==> !Contains(routes[i].value, a)
    ensures !Contains(want, a)
  {
  }

  /**
   A worker that passes both checks keeps its management network apart from API, pods, Services and its own address.
   */
  lemma ManagementApart(c: Config, routes: seq<Prefix>, management: Address, a: Address)
    requires Acceptable(c) && |routes| == |c.allowed|
    requires forall i :: 0 <= i < |routes| ==> c.allowed[i] == Some(routes[i])
    requires !Contains(ManagementSubnet(management), c.nodeIP)
    requires forall i :: 0 <= i < |routes| ==> !Meet(routes[i], ManagementSubnet(management))
    requires Contains(ManagementSubnet(management), a)
    ensures a != c.server && a != c.nodeIP && !Contains(c.pod.value, a) && !Contains(c.service.value, a)
  {
    hide WorkerPrefix, GlobalUnicast, Contains;
    forall i | 0 <= i < |c.allowed| && c.allowed[i].Some? ensures !Contains(c.allowed[i].value, a) {
      assert !Meet(routes[i], ManagementSubnet(management));
    }
    CoveredMisses(Prefix(c.server, 32), c.allowed, a);
    CoveredMisses(c.pod.value, c.allowed, a);
    CoveredMisses(c.service.value, c.allowed, a);
    SelfContained(Prefix(c.server, 32));
  }
}
