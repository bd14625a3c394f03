/**
 kiac-lb, the LoadBalancer controller: a two-sweep reconciler that gives Services the addresses of
 eligible nodes and lets Services share an address as long as their ports stay disjoint.
 A pass reads an arbitrary cluster (nodes, endpoints, which patches succeed), so any mixture of node
 loss, return and readdressing is a choice of the environment each pass runs in.
 */
module LoadBalancer {
  import opened Options

  datatype Family = V4 | V6

  type Addr = string

  type Id = string

  /** One line of `kubectl get nodes`. */
  datatype Row = Row(name: string, controlPlane: bool, addrs: seq<Addr>, ready: bool)

  datatype Node = Node(name: string, v4: Option<Addr>, v6: Option<Addr>)

  datatype Service = Service(id: Id, ips: seq<Addr>, ports: seq<nat>, families: seq<string>)

  /** What one pass sees: the nodes, the primary label, ready endpoints, and which patches go through. */
  datatype Env = Env(rows: seq<Row>, primary: seq<string>, endpoints: map<Id, seq<string>>, patchable: set<Id>)

  type Claims = set<(Addr, nat)>

  function FamilyOf(a: Addr): Family { if ':' in a then V6 else V4 }

  /** The last address of a family, as the awk loop leaves it. */
  function LastOf(addrs: seq<Addr>, f: Family): (r: Option<Addr>)
    ensures r.Some? ==> r.value in addrs && FamilyOf(r.value) == f
  {
    if addrs == [] then None
    else if FamilyOf(addrs[|addrs| - 1]) == f then Some(addrs[|addrs| - 1])
    else LastOf(addrs[..|addrs| - 1], f)
  }

  function Usable(rows: seq<Row>): seq<Node> {
    if rows == [] then []
    else
      var r := rows[0];
      (if r.ready && r.addrs != [] then [Node(r.name, LastOf(r.addrs, V4), LastOf(r.addrs, V6))] else [])
      + Usable(rows[1..])
  }

  function Workers(rows: seq<Row>): seq<Row> {
    if rows == [] then []
    else (if rows[0].controlPlane then [] else [rows[0]]) + Workers(rows[1..])
  }

  /** Ready workers when the cluster has any worker, otherwise every ready node. */
  function EligibleNodes(rows: seq<Row>): seq<Node> {
    Usable(if Workers(rows) == [] then rows else Workers(rows))
  }

  function Of(n: Node, f: Family): Option<Addr> { if f == V6 then n.v6 else n.v4 }

  function NodeAddr(nodes: seq<Node>, name: string, f: Family): Option<Addr> {
    if nodes == [] then None
    else if nodes[0].name == name then Of(nodes[0], f)
    else NodeAddr(nodes[1..], name, f)
  }

  predicate Eligible(nodes: seq<Node>, ip: Addr) {
    exists n :: n in nodes && (n.v4 == Some(ip) || n.v6 == Some(ip))
  }

  predicate Conflicts(used: Claims, ip: Addr, ports: seq<nat>) {
    exists p :: p in ports && (ip, p) in used
  }

  function Claim(used: Claims, ip: Addr, ports: seq<nat>): Claims {
    used + set p | p in ports :: (ip, p)
  }

  function Names(nodes: seq<Node>): seq<string> {
    seq(|nodes|, i requires 0 <= i < |nodes| => nodes[i].name)
  }

  /** Endpoint hosts first, then the primary node, then every eligible node. */
  function Candidates(env: Env, nodes: seq<Node>, id: Id): seq<string> {
    Hosts(env, id) + env.primary + Names(nodes)
  }

  predicate Acceptable(nodes: seq<Node>, cand: string, f: Family, ports: seq<nat>, used: Claims) {
    var a := NodeAddr(nodes, cand, f);
    a.Some? && !Conflicts(used, a.value, ports)
  }

  /** The address of the first acceptable candidate. */
  function Choose(nodes: seq<Node>, cands: seq<string>, f: Family, ports: seq<nat>, used: Claims): Option<Addr> {
    if cands == [] then None
    else if Acceptable(nodes, cands[0], f, ports, used) then NodeAddr(nodes, cands[0], f)
    else Choose(nodes, cands[1..], f, ports, used)
  }

  /** The first address already in status that has the family and still belongs to an eligible node. */
  function Kept(nodes: seq<Node>, ips: seq<Addr>, f: Family): Option<Addr> {
    if ips == [] then None
    else if FamilyOf(ips[0]) == f && Eligible(nodes, ips[0]) then Some(ips[0])
    else Kept(nodes, ips[1..], f)
  }

  function Tokens(families: seq<string>): seq<Family> {
    if families == [] then []
    else (if families[0] == "IPv4" then [V4] else if families[0] == "IPv6" then [V6] else []) + Tokens(families[1..])
  }

  function Requested(s: Service): seq<Family> {
    if Tokens(s.families) == [] then [V4] else Tokens(s.families)
  }

  datatype Plan = Plan(want: seq<Addr>, used: Claims, changed: bool, unmet: bool)

  /** One requested family: keep, choose, or report that nothing is free. */
  function PlanFamily(env: Env, nodes: seq<Node>, s: Service, f: Family, plan: Plan): Plan {
    var kept := Kept(nodes, s.ips, f);
    var pick := if kept.Some? then kept else Choose(nodes, Candidates(env, nodes, s.id), f, s.ports, plan.used);
    if pick.None? then plan.(unmet := true)
    else Plan(plan.want + [pick.value], Claim(plan.used, pick.value, s.ports), plan.changed || kept.None?, plan.unmet)
  }

  function PlanAll(env: Env, nodes: seq<Node>, s: Service, fams: seq<Family>, used: Claims): Plan {
    if fams == [] then Plan([], used, false, false)
    else
      var last := |fams| - 1;
      PlanFamily(env, nodes, s, fams[last], PlanAll(env, nodes, s, fams[..last], used))
  }

  predicate Patches(s: Service, plan: Plan) {
    plan.want != [] && (plan.changed || exists cur :: cur in s.ips && cur !in plan.want)
  }

  function ServicePlan(env: Env, s: Service, used: Claims): Plan {
    PlanAll(env, EligibleNodes(env.rows), s, Requested(s), used)
  }

  function AfterPatch(env: Env, s: Service, plan: Plan): Service {
    if Patches(s, plan) && s.id in env.patchable then s.(ips := plan.want) else s
  }

  /** First sweep: what every address that is still eligible already claims. */
  function Standing(nodes: seq<Node>, services: seq<Service>): Claims {
    set s, ip, p | s in services && ip in s.ips && Eligible(nodes, ip) && p in s.ports :: (ip, p)
  }

  /** The claims file before service `k` is handled in the second sweep. */
  function UsedBefore(env: Env, services: seq<Service>, k: nat): Claims
    requires k <= |services|
  {
    if k == 0 then Standing(EligibleNodes(env.rows), services)
    else ServicePlan(env, services[k - 1], UsedBefore(env, services, k - 1)).used
  }

  function PlanOf(env: Env, services: seq<Service>, k: nat): Plan
    requires k < |services|
  {
    ServicePlan(env, services[k], UsedBefore(env, services, k))
  }

  /** The statuses after the second sweep has handled the first `n` Services. */
  function Swept(env: Env, services: seq<Service>, n: nat): seq<Service>
    requires n <= |services|
  {
    seq(|services|, k requires 0 <= k < |services| =>
      if k < n then AfterPatch(env, services[k], PlanOf(env, services, k)) else services[k])
  }

  lemma SweptStart(env: Env, services: seq<Service>)
    ensures Swept(env, services, 0) == services
  {
  }

  lemma SweptStep(env: Env, services: seq<Service>, k: nat)
    requires k < |services|
    ensures |Swept(env, services, k)| == |services| && Swept(env, services, k)[k] == services[k]
    ensures Swept(env, services, k + 1)
            == Swept(env, services, k)[k := AfterPatch(env, services[k], PlanOf(env, services, k))]
  {
  }

  /** The statuses a pass leaves behind. */
  function Passed(env: Env, services: seq<Service>): seq<Service> {
    if EligibleNodes(env.rows) == [] then services else Swept(env, services, |services|)
  }

  // ---- the controller ----

  class Controller {
    var services: seq<Service>
    var nodes: seq<Node>
    var used: Claims

    constructor (services: seq<Service>)
      ensures this.services == services
    {
      this.services, nodes, used := services, [], {};
    }

    method ClaimPorts(ip: Addr, ports: seq<nat>)
      modifies `used
      ensures used == Claim(old(used), ip, ports)
    {
      for i := 0 to |ports|
        invariant used == Claim(old(used), ip, ports[..i])
      {
        assert ports[..i + 1] == ports[..i] + [ports[i]];
        used := used + {(ip, ports[i])};
      }
      assert ports[..|ports|] == ports;
    }

    method AnyClaimed(ip: Addr, ports: seq<nat>) returns (r: bool)
      ensures r == Conflicts(used, ip, ports)
    {
      for i := 0 to |ports|
        invariant forall k :: 0 <= k < i ==> (ip, ports[k]) !in used
      {
        if (ip, ports[i]) in used {
          return true;
        }
      }
      return false;
    }

    /** Walk the candidates in preference order and take the first free address. */
    method ChooseAddr(env: Env, id: Id, f: Family, ports: seq<nat>) returns (r: Option<Addr>)
      ensures r == Choose(nodes, Candidates(env, nodes, id), f, ports, used)
    {
      var cands := Candidates(env, nodes, id);
      for i := 0 to |cands|
        invariant Choose(nodes, cands, f, ports, used) == Choose(nodes, cands[i..], f, ports, used)
      {
        assert cands[i..][0] == cands[i] && cands[i..][1..] == cands[i + 1..];
        var a := NodeAddr(nodes, cands[i], f);
        if a.Some? {
          var taken := AnyClaimed(a.value, ports);
          if !taken {
            return a;
          }
        }
      }
      return None;
    }

    method FindKept(ips: seq<Addr>, f: Family) returns (r: Option<Addr>)
      ensures r == Kept(nodes, ips, f)
    {
      for i := 0 to |ips|
        invariant Kept(nodes, ips, f) == Kept(nodes, ips[i..], f)
      {
        assert ips[i..][0] == ips[i] && ips[i..][1..] == ips[i + 1..];
        if FamilyOf(ips[i]) == f && Eligible(nodes, ips[i]) {
          return Some(ips[i]);
        }
      }
      return None;
    }

    method ClaimStanding(s: Service)
      modifies `used
      ensures used == old(used) + Standing(nodes, [s])
    {
      for j := 0 to |s.ips|
        invariant used == old(used) + Standing(nodes, [s.(ips := s.ips[..j])])
      {
        assert s.ips[..j + 1] == s.ips[..j] + [s.ips[j]];
        if Eligible(nodes, s.ips[j]) {
          ClaimPorts(s.ips[j], s.ports);
        }
      }
      assert s.ips[..|s.ips|] == s.ips;
    }

    method FirstSweep()
      modifies `used
      ensures used == Standing(nodes, services)
    {
      used := {};
      for i := 0 to |services|
        invariant used == Standing(nodes, services[..i])
      {
        ClaimStanding(services[i]);
        assert services[..i + 1] == services[..i] + [services[i]];
      }
      assert services[..|services|] == services;
    }

    /** Second sweep for one Service: decide every family, then patch at most once. */
    method Reconcile(env: Env, k: nat)
      requires k < |services| && nodes == EligibleNodes(env.rows)
      modifies `used, `services
      ensures var plan := ServicePlan(env, old(services)[k], old(used));
              used == plan.used
              && services == old(services)[k := AfterPatch(env, old(services)[k], plan)]
    {
      var s := services[k];
      var fams := Requested(s);
      var want, changed, unmet := [], false, false;
      for i := 0 to |fams|
        invariant services == old(services)
        invariant Plan(want, used, changed, unmet) == PlanAll(env, nodes, s, fams[..i], old(used))
      {
        assert fams[..i + 1][..i] == fams[..i] && fams[..i + 1][i] == fams[i];
        var keep := FindKept(s.ips, fams[i]);
        if keep.None? {
          keep := ChooseAddr(env, s.id, fams[i], s.ports);
          if keep.None? {
            unmet := true;
            continue;
          }
          changed := true;
        }
        want := want + [keep.value];
        ClaimPorts(keep.value, s.ports);
      }
      assert fams[..|fams|] == fams;
      var stale := exists cur :: cur in s.ips && cur !in want;
      if want != [] && (changed || stale) && s.id in env.patchable {
        services := services[k := s.(ips := want)];
      }
      assert services[k] == AfterPatch(env, s, PlanAll(env, nodes, s, fams, old(used)));
    }

    method SecondSweep(env: Env)
      requires nodes == EligibleNodes(env.rows) && used == Standing(nodes, services)
      modifies `used, `services
      ensures services == Swept(env, old(services), |old(services)|)
    {
      hide ServicePlan, AfterPatch, Standing, EligibleNodes, Swept;
      ghost var before := services;
      SweptStart(env, before);
      for k := 0 to |services|
        invariant |services| == |before| && services == Swept(env, before, k)
        invariant used == UsedBefore(env, before, k)
      {
        SweptStep(env, before, k);
        Reconcile(env, k);
      }
    }

    /** One pass of the loop; `listed` is false when a kubectl listing fails. */
    method Pass(env: Env, listed: bool)
      modifies this
      ensures services == if listed then Passed(env, old(services)) else old(services)
    {
      nodes := EligibleNodes(env.rows);
      if listed && nodes != [] {
        FirstSweep();
        SecondSweep(env);
      }
    }
  }

  // ---- eligible_nodes ----

  function NodeOf(r: Row): Node { Node(r.name, LastOf(r.addrs, V4), LastOf(r.addrs, V6)) }

  lemma {:induction false} UsableMembers(rows: seq<Row>, n: Node)
    ensures n in Usable(rows) <==> exists r :: r in rows && r.ready && r.addrs != [] && n == NodeOf(r)
  {
    if rows != [] {
      hide LastOf;
      UsableMembers(rows[1..], n);
      assert rows == [rows[0]] + rows[1..];
    }
  }

  lemma {:induction false} WorkersMembers(rows: seq<Row>)
    ensures forall r :: r in Workers(rows) <==> r in rows && !r.controlPlane
  {
    if rows != [] {
      WorkersMembers(rows[1..]);
      assert rows == [rows[0]] + rows[1..];
    }
  }

  /** Ready nodes with an address: workers only, unless the cluster has no worker at all. */
  lemma EligibleExactly(rows: seq<Row>, n: Node)
    ensures n in EligibleNodes(rows) <==>
            exists r :: && r in rows && r.ready && r.addrs != [] && n == NodeOf(r)
                        && (r.controlPlane ==> forall q :: q in rows ==> q.controlPlane)
  {
    hide Usable, Workers, NodeOf;
    WorkersMembers(rows);
    UsableMembers(if Workers(rows) == [] then rows else Workers(rows), n);
    if Workers(rows) != [] {
      assert Workers(rows)[0] in Workers(rows);
    } else {
      assert forall q :: q in rows ==> q.controlPlane || q in Workers(rows);
    }
  }

  // ---- choose_addr ----

  /** Candidates are tried in order: the result is the first acceptable one, and None means there is none. */
  lemma {:induction false} ChooseIsFirst(nodes: seq<Node>, cands: seq<string>, f: Family, ports: seq<nat>, used: Claims)
    ensures var r := Choose(nodes, cands, f, ports, used);
            if r.None? then forall c :: c in cands ==> !Acceptable(nodes, c, f, ports, used)
            else exists i :: 0 <= i < |cands| && Acceptable(nodes, cands[i], f, ports, used)
                          && r == NodeAddr(nodes, cands[i], f)
                          && forall j :: 0 <= j < i ==> !Acceptable(nodes, cands[j], f, ports, used)
  {
    if cands != [] && !Acceptable(nodes, cands[0], f, ports, used) {
      ChooseIsFirst(nodes, cands[1..], f, ports, used);
      if Choose(nodes, cands, f, ports, used).Some? {
        var i :| 0 <= i < |cands[1..]| && Acceptable(nodes, cands[1..][i], f, ports, used)
                 && Choose(nodes, cands[1..], f, ports, used) == NodeAddr(nodes, cands[1..][i], f)
                 && forall j :: 0 <= j < i ==> !Acceptable(nodes, cands[1..][j], f, ports, used);
        assert cands[i + 1] == cands[1..][i];
        forall j | 0 <= j < i + 1 ensures !Acceptable(nodes, cands[j], f, ports, used) {
          if j > 0 { assert cands[1..][j - 1] == cands[j]; }
        }
      }
    } else if cands != [] {
      assert Acceptable(nodes, cands[0], f, ports, used);
    }
  }

  predicate UniqueNames(nodes: seq<Node>) {
    forall i, j :: 0 <= i < j < |nodes| ==> nodes[i].name != nodes[j].name
  }

  lemma {:induction false} NodeAddrOfRow(nodes: seq<Node>, i: nat, f: Family)
    requires UniqueNames(nodes) && i < |nodes|
    ensures NodeAddr(nodes, nodes[i].name, f) == Of(nodes[i], f)
  {
    if i > 0 {
      NodeAddrOfRow(nodes[1..], i - 1, f);
    }
  }

  lemma {:induction false} NodeAddrIsRow(nodes: seq<Node>, name: string, f: Family)
    ensures var a := NodeAddr(nodes, name, f);
            a.Some? ==> exists i :: 0 <= i < |nodes| && nodes[i].name == name && Of(nodes[i], f) == a
  {
    if nodes != [] {
      if nodes[0].name == name {
        assert nodes[0].name == name;
      } else {
        NodeAddrIsRow(nodes[1..], name, f);
        if NodeAddr(nodes[1..], name, f).Some? {
          var i :| 0 <= i < |nodes[1..]| && nodes[1..][i].name == name
                   && Of(nodes[1..][i], f) == NodeAddr(nodes[1..], name, f);
          assert nodes[i + 1] == nodes[1..][i];
        }
      }
    }
  }

  /** No address is found exactly when every eligible node's address of the family conflicts. */
  lemma ChooseFailsExactly(env: Env, nodes: seq<Node>, id: Id, f: Family, ports: seq<nat>, used: Claims)
    requires UniqueNames(nodes)
    ensures Choose(nodes, Candidates(env, nodes, id), f, ports, used).None?
       <==> forall n :: n in nodes && Of(n, f).Some? ==> Conflicts(used, Of(n, f).value, ports)
  {
    var cands := Candidates(env, nodes, id);
    ChooseIsFirst(nodes, cands, f, ports, used);
    forall n | n in nodes && Of(n, f).Some?
      ensures n.name in cands && NodeAddr(nodes, n.name, f) == Of(n, f)
    {
      var i :| 0 <= i < |nodes| && nodes[i] == n;
      NodeAddrOfRow(nodes, i, f);
      assert Names(nodes)[i] == n.name && Names(nodes)[i] in Names(nodes);
    }
    if Choose(nodes, cands, f, ports, used).None? {
      forall n | n in nodes && Of(n, f).Some? ensures Conflicts(used, Of(n, f).value, ports) {
        assert !Acceptable(nodes, n.name, f, ports, used);
      }
    } else {
      var i :| 0 <= i < |cands| && Acceptable(nodes, cands[i], f, ports, used);
      NodeAddrIsRow(nodes, cands[i], f);
    }
  }

  function Hosts(env: Env, id: Id): seq<string> { if id in env.endpoints then env.endpoints[id] else [] }

  ghost predicate SomeAcceptable(nodes: seq<Node>, cands: seq<string>, f: Family, ports: seq<nat>, used: Claims) {
    exists c :: c in cands && Acceptable(nodes, c, f, ports, used)
  }

  /** The address is that of an acceptable candidate from this list. */
  ghost predicate From(nodes: seq<Node>, cands: seq<string>, f: Family, ports: seq<nat>, used: Claims,
        r: Option<Addr>) {
    exists c :: c in cands && Acceptable(nodes, c, f, ports, used) && r == NodeAddr(nodes, c, f)
  }

  /** A node hosting an endpoint is preferred, then the primary node, and only then any other. */
  lemma FollowsPreference(env: Env, nodes: seq<Node>, id: Id, f: Family, ports: seq<nat>, used: Claims)
    ensures var r := Choose(nodes, Candidates(env, nodes, id), f, ports, used);
            if SomeAcceptable(nodes, Hosts(env, id), f, ports, used) then From(nodes, Hosts(env, id), f, ports, used, r)
            else if SomeAcceptable(nodes, env.primary, f, ports, used) then From(nodes, env.primary, f, ports, used, r)
            else if SomeAcceptable(nodes, Names(nodes), f, ports, used)
            then From(nodes, Names(nodes), f, ports, used, r)
            else r.None?
  {
    hide Acceptable, NodeAddr, Names;
    var hosts, rest := Hosts(env, id), env.primary + Names(nodes);
    assert Candidates(env, nodes, id) == hosts + rest;
    ChooseInParts(nodes, hosts, rest, f, ports, used);
    ChooseInParts(nodes, env.primary, Names(nodes), f, ports, used);
    ChooseInParts(nodes, Names(nodes), [], f, ports, used);
    assert Names(nodes) + [] == Names(nodes);
  }

  lemma {:induction false} ChooseInParts(nodes: seq<Node>, a: seq<string>, b: seq<string>, f: Family, ports: seq<nat>,
        used: Claims)
    ensures if SomeAcceptable(nodes, a, f, ports, used)
            then From(nodes, a, f, ports, used, Choose(nodes, a + b, f, ports, used))
            else Choose(nodes, a + b, f, ports, used) == Choose(nodes, b, f, ports, used)
  {
    hide Acceptable, NodeAddr;
    if a == [] {
      assert a + b == b;
    } else {
      ChooseInParts(nodes, a[1..], b, f, ports, used);
      assert (a + b)[1..] == a[1..] + b && a == [a[0]] + a[1..];
      assert SomeAcceptable(nodes, a, f, ports, used) <==>
          Acceptable(nodes, a[0], f, ports, used) || SomeAcceptable(nodes, a[1..], f, ports, used);
    }
  }

  // ---- addresses ----

  predicate WellFormed(nodes: seq<Node>) {
    forall n :: n in nodes ==>
      && (n.v4.Some? ==> FamilyOf(n.v4.value) == V4)
      && (n.v6.Some? ==> FamilyOf(n.v6.value) == V6)
  }

  lemma {:induction false} UsableWellFormed(rows: seq<Row>)
    ensures WellFormed(Usable(rows))
  {
    if rows != [] {
      UsableWellFormed(rows[1..]);
    }
  }

  lemma ChosenBelongs(nodes: seq<Node>, cands: seq<string>, f: Family, ports: seq<nat>, used: Claims)
    requires WellFormed(nodes)
    ensures var r := Choose(nodes, cands, f, ports, used);
            r.Some? ==> Eligible(nodes, r.value) && FamilyOf(r.value) == f && !Conflicts(used, r.value, ports)
  {
    ChooseIsFirst(nodes, cands, f, ports, used);
    var r := Choose(nodes, cands, f, ports, used);
    if r.Some? {
      var i :| 0 <= i < |cands| && Acceptable(nodes, cands[i], f, ports, used) && r == NodeAddr(nodes, cands[i], f);
      NodeAddrIsRow(nodes, cands[i], f);
    }
  }

  lemma {:induction false} KeptBelongs(nodes: seq<Node>, ips: seq<Addr>, f: Family)
    ensures var r := Kept(nodes, ips, f);
            if r.Some? then r.value in ips && FamilyOf(r.value) == f && Eligible(nodes, r.value)
            else forall ip :: ip in ips && FamilyOf(ip) == f ==> !Eligible(nodes, ip)
  {
    if ips != [] {
      KeptBelongs(nodes, ips[1..], f);
    }
  }

  // ---- safety ----

  /** Every planned address was in status before or was free of the Service's ports; claims only grow. */
  predicate Sound(nodes: seq<Node>, s: Service, used: Claims, plan: Plan) {
    && used <= plan.used
    && (forall a :: a in plan.want ==> Eligible(nodes, a) && (a in s.ips || !Conflicts(used, a, s.ports)))
    && (forall a, p :: a in plan.want && p in s.ports ==> (a, p) in plan.used)
  }

  lemma {:induction false} PlanSound(env: Env, nodes: seq<Node>, s: Service, fams: seq<Family>, used: Claims)
    requires WellFormed(nodes)
    ensures Sound(nodes, s, used, PlanAll(env, nodes, s, fams, used))
  {
    if fams != [] {
      var last := |fams| - 1;
      var plan := PlanAll(env, nodes, s, fams[..last], used);
      PlanSound(env, nodes, s, fams[..last], used);
      KeptBelongs(nodes, s.ips, fams[last]);
      ChosenBelongs(nodes, Candidates(env, nodes, s.id), fams[last], s.ports, plan.used);
    }
  }

  lemma ServicePlanSound(env: Env, s: Service, used: Claims)
    ensures Sound(EligibleNodes(env.rows), s, used, ServicePlan(env, s, used))
  {
    UsableWellFormed(if Workers(env.rows) == [] then env.rows else Workers(env.rows));
    PlanSound(env, EligibleNodes(env.rows), s, Requested(s), used);
  }

  lemma OnlyGrows(env: Env, s: Service, used: Claims)
    ensures used <= ServicePlan(env, s, used).used
  {
    hide ServicePlan, EligibleNodes;
    ServicePlanSound(env, s, used);
  }

  lemma {:induction false} UsedGrows(env: Env, services: seq<Service>, i: nat, j: nat)
    requires i <= j <= |services|
    ensures UsedBefore(env, services, i) <= UsedBefore(env, services, j)
    decreases j
  {
    hide ServicePlan, EligibleNodes, Standing;
    if i < j {
      UsedGrows(env, services, i, j - 1);
      OnlyGrows(env, services[j - 1], UsedBefore(env, services, j - 1));
    }
  }

  predicate Shares(s: Service, t: Service, a: Addr) {
    a in s.ips && a in t.ips && exists p :: p in s.ports && p in t.ports
  }

  predicate ConflictFree(services: seq<Service>) {
    forall i, j, a :: 0 <= i < j < |services| && a in services[i].ips ==> !Shares(services[i], services[j], a)
  }

  /** An address newly given to `j` is free of the ports of every earlier holder of it. */
  lemma NewForLater(env: Env, services: seq<Service>, i: nat, j: nat, a: Addr, p: nat)
    requires EligibleNodes(env.rows) != [] && i < j < |services|
    requires a in Passed(env, services)[i].ips && a in Passed(env, services)[j].ips && a !in services[j].ips
    requires p in services[i].ports
    ensures p !in services[j].ports
  {
    hide ServicePlan, EligibleNodes;
    var nodes, usedJ := EligibleNodes(env.rows), UsedBefore(env, services, j);
    ServicePlanSound(env, services[i], UsedBefore(env, services, i));
    ServicePlanSound(env, services[j], usedJ);
    UsedGrows(env, services, 0, j);
    UsedGrows(env, services, i + 1, j);
    assert a in PlanOf(env, services, j).want && !Conflicts(usedJ, a, services[j].ports);
    if a in services[i].ips {
      assert (a, p) in Standing(nodes, services);
    } else {
      assert (a, p) in UsedBefore(env, services, i + 1);
    }
    assert (a, p) in usedJ;
  }

  /** An address newly given to `i` is free of the ports of every later Service that already had it. */
  lemma NewForEarlier(env: Env, services: seq<Service>, i: nat, j: nat, a: Addr, p: nat)
    requires EligibleNodes(env.rows) != [] && i < j < |services|
    requires a in Passed(env, services)[i].ips && a !in services[i].ips && a in services[j].ips
    requires p in services[j].ports
    ensures p !in services[i].ports
  {
    hide ServicePlan, EligibleNodes;
    var nodes, usedI := EligibleNodes(env.rows), UsedBefore(env, services, i);
    ServicePlanSound(env, services[i], usedI);
    UsedGrows(env, services, 0, i);
    assert a in PlanOf(env, services, i).want && !Conflicts(usedI, a, services[i].ports);
    assert (a, p) in Standing(nodes, services);
  }

  /** Whatever the statuses were, a pass creates no conflict that was not already there. */
  lemma NoNewConflict(env: Env, services: seq<Service>, i: nat, j: nat, a: Addr)
    requires i < j < |services|
    ensures Shares(Passed(env, services)[i], Passed(env, services)[j], a) ==> Shares(services[i], services[j], a)
  {
    var after := Passed(env, services);
    if EligibleNodes(env.rows) != [] && a in after[i].ips && a in after[j].ips {
      if a !in services[j].ips {
        forall p | p in services[i].ports ensures p !in services[j].ports {
          NewForLater(env, services, i, j, a, p);
        }
      } else if a !in services[i].ips {
        forall p | p in services[j].ports ensures p !in services[i].ports {
          NewForEarlier(env, services, i, j, a, p);
        }
      }
    }
  }

  // ---- whole runs ----

  datatype Event =
    | Pass(env: Env, listed: bool)
    | Create(service: Service)
    | Delete(index: nat)
    | EditPorts(index: nat, ports: seq<nat>)

  /** New Services have no address yet, and only a Service without one may change its ports. */
  predicate Admissible(services: seq<Service>, e: Event) {
    match e
    case Pass(_, _) => true
    case Create(s) => s.ips == []
    case Delete(i) => i < |services|
    case EditPorts(i, _) => i < |services| && services[i].ips == []
  }

  function Apply(services: seq<Service>, e: Event): seq<Service>
    requires Admissible(services, e)
  {
    match e
    case Pass(env, listed) => if listed then Passed(env, services) else services
    case Create(s) => services + [s]
    case Delete(i) => services[..i] + services[i + 1..]
    case EditPorts(i, ports) => services[i := services[i].(ports := ports)]
  }

  ghost predicate IsRun(states: seq<seq<Service>>, events: seq<Event>) {
    && |states| == |events| + 1
    && forall k :: 0 <= k < |events| ==>
        Admissible(states[k], events[k]) && states[k + 1] == Apply(states[k], events[k])
  }

  lemma StepKeepsConflictFree(services: seq<Service>, e: Event)
    requires ConflictFree(services) && Admissible(services, e)
    ensures ConflictFree(Apply(services, e))
  {
    var after := Apply(services, e);
    forall i, j, a | 0 <= i < j < |after| && a in after[i].ips
      ensures !Shares(after[i], after[j], a)
    {
      match e {
        case Pass(env, listed) =>
          if listed {
            NoNewConflict(env, services, i, j, a);
          }
        case Create(s) =>
        case Delete(d) =>
          var i' := if i < d then i else i + 1;
          var j' := if j < d then j else j + 1;
          assert after[i] == services[i'] && after[j] == services[j'];
        case EditPorts(d, ports) =>
      }
    }
  }

  /** Starting without conflicts, no state of any run has two Services on one address with a common port. */
  lemma {:induction false} RunsStayConflictFree(states: seq<seq<Service>>, events: seq<Event>, k: nat)
    requires IsRun(states, events) && ConflictFree(states[0]) && k < |states|
    ensures ConflictFree(states[k])
  {
    if k > 0 {
      RunsStayConflictFree(states, events, k - 1);
      StepKeepsConflictFree(states[k - 1], events[k - 1]);
    }
  }

  // ---- settling ----

  predicate DistinctFamilies(s: Service) {
    forall i, j :: 0 <= i < j < |Requested(s)| ==> Requested(s)[i] != Requested(s)[j]
  }

  /** Every wanted address is eligible and has the family it was planned for. */
  lemma {:induction false} PlanShape(env: Env, nodes: seq<Node>, s: Service, fams: seq<Family>, used: Claims)
    requires WellFormed(nodes) && !PlanAll(env, nodes, s, fams, used).unmet
    ensures var plan := PlanAll(env, nodes, s, fams, used);
            && |plan.want| == |fams|
            && (forall i :: 0 <= i < |fams| ==> FamilyOf(plan.want[i]) == fams[i] && Eligible(nodes, plan.want[i]))
            && (!plan.changed ==> forall i :: 0 <= i < |fams| ==> Kept(nodes, s.ips, fams[i]) == Some(plan.want[i]))
  {
    if fams != [] {
      var last := |fams| - 1;
      var plan := PlanAll(env, nodes, s, fams[..last], used);
      PlanShape(env, nodes, s, fams[..last], used);
      KeptBelongs(nodes, s.ips, fams[last]);
      ChosenBelongs(nodes, Candidates(env, nodes, s.id), fams[last], s.ports, plan.used);
      forall i | 0 <= i < last ensures fams[..last][i] == fams[i] {}
    }
  }

  lemma {:induction false} AllKeptPlan(env: Env, nodes: seq<Node>, s: Service, fams: seq<Family>, used: Claims)
    requires forall i :: 0 <= i < |fams| ==> Kept(nodes, s.ips, fams[i]).Some?
    ensures var plan := PlanAll(env, nodes, s, fams, used);
            && |plan.want| == |fams| && !plan.changed && !plan.unmet
            && forall i :: 0 <= i < |fams| ==> plan.want[i] == Kept(nodes, s.ips, fams[i]).value
  {
    if fams != [] {
      var last := |fams| - 1;
      forall i | 0 <= i < last ensures Kept(nodes, s.ips, fams[..last][i]).Some? {
        assert fams[..last][i] == fams[i];
      }
      AllKeptPlan(env, nodes, s, fams[..last], used);
    }
  }

  /** A Service a pass has settled is not patched by a later pass on the same cluster, whatever is claimed. */
  lemma SettledStays(env: Env, s: Service, used: Claims, later: Claims)
    requires DistinctFamilies(s) && !ServicePlan(env, s, used).unmet && s.id in env.patchable
    ensures var settled := AfterPatch(env, s, ServicePlan(env, s, used));
            !Patches(settled, ServicePlan(env, settled, later))
  {
    var nodes, fams, plan := EligibleNodes(env.rows), Requested(s), ServicePlan(env, s, used);
    var settled := AfterPatch(env, s, plan);
    UsableWellFormed(if Workers(env.rows) == [] then env.rows else Workers(env.rows));
    PlanShape(env, nodes, s, fams, used);
    if Patches(s, plan) {
      forall i | 0 <= i < |fams| ensures Kept(nodes, settled.ips, fams[i]) == Some(plan.want[i]) {
        KeptIsFirst(nodes, settled.ips, i);
      }
    }
    AllKeptPlan(env, nodes, settled, fams, later);
    var again := ServicePlan(env, settled, later);
    assert again.want == plan.want;
  }

  /** After a pass that satisfied every family with every patch applied, the next pass patches nothing. */
  lemma SecondPassPatchesNothing(env: Env, services: seq<Service>, k: nat)
    requires EligibleNodes(env.rows) != []
    requires forall i :: 0 <= i < |services| ==> DistinctFamilies(services[i]) && services[i].id in env.patchable
    requires forall i :: 0 <= i < |services| ==> !PlanOf(env, services, i).unmet
    requires k < |services|
    ensures var after := Passed(env, services);
            !Patches(after[k], PlanOf(env, after, k)) && Passed(env, after) == after
  {
    var after := Passed(env, services);
    forall i | 0 <= i < |services| ensures !Patches(after[i], PlanOf(env, after, i)) {
      SettledStays(env, services[i], UsedBefore(env, services, i), UsedBefore(env, after, i));
    }
    assert Passed(env, after) == after;
  }

  // ---- keeping ----

  /** The kept address is the first one in status that has the family and is eligible. */
  lemma {:induction false} KeptIsFirst(nodes: seq<Node>, ips: seq<Addr>, i: nat)
    requires i < |ips| && Eligible(nodes, ips[i])
    requires forall j :: 0 <= j < i ==> FamilyOf(ips[j]) != FamilyOf(ips[i]) || !Eligible(nodes, ips[j])
    ensures Kept(nodes, ips, FamilyOf(ips[i])) == Some(ips[i])
  {
    if i > 0 {
      assert FamilyOf(ips[0]) != FamilyOf(ips[i]) || !Eligible(nodes, ips[0]);
      forall j | 0 <= j < i - 1
        ensures FamilyOf(ips[1..][j]) != FamilyOf(ips[1..][i - 1]) || !Eligible(nodes, ips[1..][j])
      {
        assert ips[1..][j] == ips[j + 1];
      }
      KeptIsFirst(nodes, ips[1..], i - 1);
    }
  }

  lemma {:induction false} KeptIsWanted(env: Env, nodes: seq<Node>, s: Service, fams: seq<Family>, used: Claims,
        f: Family)
    requires f in fams && Kept(nodes, s.ips, f).Some?
    ensures Kept(nodes, s.ips, f).value in PlanAll(env, nodes, s, fams, used).want
  {
    var last := |fams| - 1;
    if f in fams[..last] {
      KeptIsWanted(env, nodes, s, fams[..last], used, f);
    } else {
      assert fams == fams[..last] + [fams[last]];
    }
  }

  /** The first eligible address of a requested family survives every pass, patched or not. */
  lemma FirstEligibleSurvives(env: Env, services: seq<Service>, k: nat, i: nat)
    requires EligibleNodes(env.rows) != [] && k < |services|
    requires var nodes, s := EligibleNodes(env.rows), services[k];
             && i < |s.ips| && Eligible(nodes, s.ips[i]) && FamilyOf(s.ips[i]) in Requested(s)
             && forall j :: 0 <= j < i ==> FamilyOf(s.ips[j]) != FamilyOf(s.ips[i]) || !Eligible(nodes, s.ips[j])
    ensures services[k].ips[i] in Passed(env, services)[k].ips
  {
    var nodes, s := EligibleNodes(env.rows), services[k];
    KeptIsFirst(nodes, s.ips, i);
    KeptIsWanted(env, nodes, s, Requested(s), UsedBefore(env, services, k), FamilyOf(s.ips[i]));
  }

  // ---- repeated passes on one cluster ----

  /** Requested families for which nothing in status can be kept. */
  function Unmet(nodes: seq<Node>, ips: seq<Addr>, fams: seq<Family>): nat {
    if fams == [] then 0
    else Unmet(nodes, ips, fams[..|fams| - 1]) + if Kept(nodes, ips, fams[|fams| - 1]).None? then 1 else 0
  }

  /** The address is the one kept for some requested family. */
  predicate IsKept(nodes: seq<Node>, ips: seq<Addr>, fams: seq<Family>, a: Addr) {
    exists f :: f in fams && Kept(nodes, ips, f) == Some(a)
  }

  predicate Surplus(nodes: seq<Node>, ips: seq<Addr>, fams: seq<Family>) {
    exists a :: a in ips && !IsKept(nodes, ips, fams, a)
  }

  /** How much a Service's status can still change. */
  function Distance(nodes: seq<Node>, ips: seq<Addr>, fams: seq<Family>): nat {
    2 * Unmet(nodes, ips, fams) + if Surplus(nodes, ips, fams) then 1 else 0
  }

  /** Met families stay met when every kept address is kept in status. */
  lemma {:induction false} UnmetShrinks(nodes: seq<Node>, ips: seq<Addr>, after: seq<Addr>, fams: seq<Family>)
    requires forall f :: f in fams && Kept(nodes, ips, f).Some? ==> Kept(nodes, after, f).Some?
    ensures Unmet(nodes, after, fams) <= Unmet(nodes, ips, fams) <= |fams|
    ensures (exists f :: f in fams && Kept(nodes, ips, f).None? && Kept(nodes, after, f).Some?)
              ==> Unmet(nodes, after, fams) < Unmet(nodes, ips, fams)
  {
    hide Kept;
    if fams != [] {
      var init, last := fams[..|fams| - 1], fams[|fams| - 1];
      assert fams == init + [last];
      UnmetShrinks(nodes, ips, after, init);
      if f :| f in fams && Kept(nodes, ips, f).None? && Kept(nodes, after, f).Some? {
        assert f in init || f == last;
      }
    }
  }

  lemma KeptIfPresent(nodes: seq<Node>, ips: seq<Addr>, a: Addr)
    requires a in ips && Eligible(nodes, a)
    ensures Kept(nodes, ips, FamilyOf(a)).Some?
  {
    KeptBelongs(nodes, ips, FamilyOf(a));
  }

  /** What a plan keeps and adds: every family it deals with is met by its addresses unless it was left unmet. */
  lemma {:induction false} PlanMeets(env: Env, nodes: seq<Node>, s: Service, fams: seq<Family>, used: Claims)
    requires WellFormed(nodes)
    ensures var plan := PlanAll(env, nodes, s, fams, used);
            && (forall f :: f in fams && Kept(nodes, s.ips, f).Some? ==> Kept(nodes, s.ips, f).value in plan.want)
            && (plan.changed ==> exists f, a :: f in fams && Kept(nodes, s.ips, f).None? && a in plan.want
                                  && FamilyOf(a) == f && Eligible(nodes, a))
            && (!plan.changed ==> forall a :: a in plan.want ==> IsKept(nodes, s.ips, fams, a))
  {
    hide Kept, Eligible, Choose, Candidates;
    if fams != [] {
      var init, last := fams[..|fams| - 1], fams[|fams| - 1];
      assert fams == init + [last];
      var before := PlanAll(env, nodes, s, init, used);
      var plan := PlanAll(env, nodes, s, fams, used);
      PlanMeets(env, nodes, s, init, used);
      ChosenBelongs(nodes, Candidates(env, nodes, s.id), last, s.ports, before.used);
      assert forall a :: a in before.want ==> a in plan.want;
      assert forall a :: IsKept(nodes, s.ips, init, a) ==> IsKept(nodes, s.ips, fams, a);
      var kept := Kept(nodes, s.ips, last);
      if kept.Some? {
        assert IsKept(nodes, s.ips, fams, kept.value) && plan.want == before.want + [kept.value];
      } else if plan.changed && !before.changed {
        var a := plan.want[|plan.want| - 1];
        assert a in plan.want && FamilyOf(a) == last && Eligible(nodes, a);
      }
    }
  }

  /** When a plan only keeps, its addresses are all kept again. */
  lemma KeptAgain(nodes: seq<Node>, ips: seq<Addr>, want: seq<Addr>, fams: seq<Family>)
    requires forall a :: a in want ==> IsKept(nodes, ips, fams, a)
    ensures !Surplus(nodes, want, fams)
  {
    hide Eligible;
    forall a | a in want ensures IsKept(nodes, want, fams, a) {
      var f :| f in fams && Kept(nodes, ips, f) == Some(a);
      KeptBelongs(nodes, ips, f);
      KeptBelongs(nodes, want, f);
      var b := Kept(nodes, want, f).value;
      var g :| g in fams && Kept(nodes, ips, g) == Some(b);
      KeptBelongs(nodes, ips, g);
      assert b == a;
    }
  }

  /** Every patch brings a Service closer to its final status, whatever is claimed. */
  lemma PatchDecreases(env: Env, s: Service, used: Claims)
    requires Patches(s, ServicePlan(env, s, used))
    ensures var nodes, fams := EligibleNodes(env.rows), Requested(s);
            Distance(nodes, ServicePlan(env, s, used).want, fams) < Distance(nodes, s.ips, fams)
  {
    var nodes, fams, plan := EligibleNodes(env.rows), Requested(s), ServicePlan(env, s, used);
    UsableWellFormed(if Workers(env.rows) == [] then env.rows else Workers(env.rows));
    PlanMeets(env, nodes, s, fams, used);
    hide Requested, EligibleNodes, ServicePlan, Kept, Unmet, Eligible;
    forall f | f in fams && Kept(nodes, s.ips, f).Some? ensures Kept(nodes, plan.want, f).Some? {
      KeptBelongs(nodes, s.ips, f);
      KeptIfPresent(nodes, plan.want, Kept(nodes, s.ips, f).value);
    }
    UnmetShrinks(nodes, s.ips, plan.want, fams);
    if plan.changed {
      var f, a :| f in fams && Kept(nodes, s.ips, f).None? && a in plan.want && FamilyOf(a) == f && Eligible(nodes, a);
      KeptIfPresent(nodes, plan.want, a);
    } else {
      KeptAgain(nodes, s.ips, plan.want, fams);
      var cur :| cur in s.ips && cur !in plan.want;
      assert !IsKept(nodes, s.ips, fams, cur);
    }
  }

  function TotalDistance(env: Env, services: seq<Service>): nat {
    if services == [] then 0
    else
      var s := services[|services| - 1];
      TotalDistance(env, services[..|services| - 1]) + Distance(EligibleNodes(env.rows), s.ips, Requested(s))
  }

  lemma {:induction false} TotalShrinks(env: Env, services: seq<Service>, after: seq<Service>)
    requires |after| == |services|
    requires forall k :: 0 <= k < |services| ==> after[k] == services[k] || Closer(env, after[k], services[k])
    ensures TotalDistance(env, after) <= TotalDistance(env, services)
    ensures after != services ==> TotalDistance(env, after) < TotalDistance(env, services)
  {
    hide Distance, EligibleNodes, Requested;
    if services != [] {
      var n := |services| - 1;
      TotalShrinks(env, services[..n], after[..n]);
      assert after == after[..n] + [after[n]] && services == services[..n] + [services[n]];
    }
  }

  predicate Closer(env: Env, after: Service, s: Service) {
    var nodes := EligibleNodes(env.rows);
    Distance(nodes, after.ips, Requested(after)) < Distance(nodes, s.ips, Requested(s))
  }

  lemma PassCloser(env: Env, services: seq<Service>, k: nat)
    requires k < |services|
    ensures var after := Passed(env, services);
            |after| == |services| && (after[k] == services[k] || Closer(env, after[k], services[k]))
  {
    var s, used := services[k], UsedBefore(env, services, k);
    if Patches(s, ServicePlan(env, s, used)) {
      PatchDecreases(env, s, used);
    }
    hide Distance, EligibleNodes, ServicePlan, Patches, UsedBefore;
  }

  function Passes(env: Env, services: seq<Service>, n: nat): seq<Service> {
    if n == 0 then services else Passed(env, Passes(env, services, n - 1))
  }

  /**
   On a fixed cluster, passes reach statuses that no further pass changes, after at most as many passes as there is
   distance.
   */
  lemma {:induction false} PassesSettle(env: Env, services: seq<Service>, n: nat)
    requires n >= TotalDistance(env, services)
    ensures Passed(env, Passes(env, services, n)) == Passes(env, services, n)
    decreases n
  {
    hide TotalDistance, Passed;
    var after := Passed(env, services);
    PassShrinks(env, services);
    if after == services {
      StaysSettled(env, services, n);
    } else {
      PassesSettle(env, after, n - 1);
      PassesShift(env, services, n - 1);
    }
  }

  lemma PassShrinks(env: Env, services: seq<Service>)
    ensures var after := Passed(env, services);
            after != services ==> TotalDistance(env, after) < TotalDistance(env, services)
  {
    hide TotalDistance, Passed, Closer;
    PassLength(env, services);
    forall k | 0 <= k < |services|
      ensures Passed(env, services)[k] == services[k] || Closer(env, Passed(env, services)[k], services[k])
    {
      PassCloser(env, services, k);
    }
    TotalShrinks(env, services, Passed(env, services));
  }

  lemma PassLength(env: Env, services: seq<Service>)
    ensures |Passed(env, services)| == |services|
  {
  }

  lemma {:induction false} StaysSettled(env: Env, services: seq<Service>, n: nat)
    requires Passed(env, services) == services
    ensures Passes(env, services, n) == services
  {
    hide Passed;
    if n > 0 {
      StaysSettled(env, services, n - 1);
    }
  }

  lemma {:induction false} PassesShift(env: Env, services: seq<Service>, n: nat)
    ensures Passes(env, Passed(env, services), n) == Passes(env, services, n + 1)
  {
    hide Passed;
    if n > 0 {
      PassesShift(env, services, n - 1);
    }
  }

  /** The distance is at most one more than twice the number of requested families, for each Service. */
  lemma {:induction false} DistanceBounded(env: Env, services: seq<Service>)
    ensures TotalDistance(env, services) <= Bound(services)
  {
    if services != [] {
      var s := services[|services| - 1];
      DistanceBounded(env, services[..|services| - 1]);
      UnmetShrinks(EligibleNodes(env.rows), s.ips, s.ips, Requested(s));
    }
  }

  function Bound(services: seq<Service>): nat {
    if services == [] then 0 else Bound(services[..|services| - 1]) + 2 * |Requested(services[|services| - 1])| + 1
  }

  // ---- why the settling guard is needed ----

  const TWO_NODES := Env([Row("n1", false, ["1"], true), Row("n2", false, ["2"], true)], [], map[], {"a", "b"})

  const CROWDED := [Service("a", ["1", "2"], [80], []), Service("b", [], [80], [])]

  lemma CrowdedNodes()
    ensures EligibleNodes(TWO_NODES.rows) == [Node("n1", Some("1"), None), Node("n2", Some("2"), None)]
  {
    var rows := TWO_NODES.rows;
    assert rows[1..] == [rows[1]] && rows[1..][1..] == [];
    assert Workers(rows) == rows;
    assert LastOf(["1"], V4) == Some("1") && LastOf(["2"], V4) == Some("2");
    assert LastOf(["1"], V6) == None && LastOf(["2"], V6) == None;
  }

  lemma CrowdedPlan(s: Service, used: Claims)
    requires s.ports == [80] && s.families == []
    ensures var plan := ServicePlan(TWO_NODES, s, used);
            s.ips == ["1", "2"] || s.ips == ["1"] ==> plan == Plan(["1"], used + {("1", 80)}, false, false)
    ensures var plan := ServicePlan(TWO_NODES, s, used);
            s.ips == [] && s.id == "b" && ("1", 80) in used ==>
              plan == if ("2", 80) in used then Plan([], used, false, true)
                      else Plan(["2"], used + {("2", 80)}, true, false)
  {
    CrowdedNodes();
    var nodes, start := EligibleNodes(TWO_NODES.rows), Plan([], used, false, false);
    assert Requested(s) == [V4] && [V4][..0] == [];
    assert PlanAll(TWO_NODES, nodes, s, [], used) == start;
    assert ServicePlan(TWO_NODES, s, used) == PlanFamily(TWO_NODES, nodes, s, V4, start);
    if s.ips != [] {
      assert nodes[0] in nodes;
    } else if s.id == "b" && ("1", 80) in used {
      var cands := Candidates(TWO_NODES, nodes, "b");
      assert cands == ["n1", "n2"] && cands[1..] == ["n2"] && cands[1..][1..] == [] && nodes[1..] == [nodes[1]];
      assert NodeAddr(nodes, "n1", V4) == Some("1") && NodeAddr(nodes, "n2", V4) == Some("2");
      assert 80 in s.ports;
      assert !Acceptable(nodes, "n1", V4, s.ports, used);
      assert Acceptable(nodes, "n2", V4, s.ports, used) <==> ("2", 80) !in used;
      assert Choose(nodes, cands[1..][1..], V4, s.ports, used) == None;
      assert Choose(nodes, cands[1..], V4, s.ports, used) == if ("2", 80) in used then None else Some("2");
      assert Choose(nodes, cands, V4, s.ports, used) == Choose(nodes, cands[1..], V4, s.ports, used);
    }
  }

  lemma CrowdedStanding(ips: seq<Addr>)
    requires ips == ["1", "2"] || ips == ["1"]
    ensures var services := [Service("a", ips, [80], []), CROWDED[1]];
            Standing(EligibleNodes(TWO_NODES.rows), services)
            == if ips == ["1"] then {("1", 80)} else {("1", 80), ("2", 80)}
  {
    CrowdedNodes();
    var nodes := EligibleNodes(TWO_NODES.rows);
    assert nodes[0] in nodes && nodes[1] in nodes;
    var services := [Service("a", ips, [80], []), CROWDED[1]];
    assert services[0] in services && "1" in ips && 80 in services[0].ports;
    assert |ips| == 2 ==> ips[1] == "2" && "2" in ips;
  }

  /** A pass that leaves a family unmet need not be final: dropping a surplus address frees it for the next pass. */
  lemma UnmetFamilyCanReopen()
    ensures PlanOf(TWO_NODES, CROWDED, 1).unmet
    ensures Patches(Passed(TWO_NODES, CROWDED)[1], PlanOf(TWO_NODES, Passed(TWO_NODES, CROWDED), 1))
  {
    CrowdedNodes();
    hide EligibleNodes, ServicePlan, Standing;
    var after := Passed(TWO_NODES, CROWDED);
    CrowdedStanding(["1", "2"]);
    CrowdedPlan(CROWDED[0], UsedBefore(TWO_NODES, CROWDED, 0));
    CrowdedPlan(CROWDED[1], UsedBefore(TWO_NODES, CROWDED, 1));
    assert CROWDED[0].ips[1] == "2" && "2" in CROWDED[0].ips && "2" !in PlanOf(TWO_NODES, CROWDED, 0).want;
    assert Patches(CROWDED[0], PlanOf(TWO_NODES, CROWDED, 0));
    assert after[0] == Service("a", ["1"], [80], []) && after[1] == CROWDED[1];
    assert after == [after[0], after[1]];
    CrowdedStanding(["1"]);
    CrowdedPlan(after[0], UsedBefore(TWO_NODES, after, 0));
    CrowdedPlan(after[1], UsedBefore(TWO_NODES, after, 1));
  }
}
