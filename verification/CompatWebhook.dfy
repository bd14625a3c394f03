/**
 The admission webhook that renames NVIDIA GPU resources. One function both rewrites the decoded
 Pod in place and emits a JSON patch for the document the Pod was decoded from; the theorems say
 that the patch means what the rewrite did. Quantities are integers.
 */
module CompatWebhook {
  import opened Options
  import opened Text
  import opened JsonPatch

  const GPU := "kiac.dev/gpu"
  const ANNOTATION := "kiac.dev/rewrote-gpu-resource"

  type ResourceList = map<string, int>

  datatype Container = Container(name: string, limits: ResourceList, requests: ResourceList)

  datatype Toleration = Toleration(key: string, operator: string, value: string, effect: string)

  datatype Pod = Pod(
    annotations: Option<map<string, string>>,
    tolerations: Option<seq<Toleration>>,
    initContainers: seq<Container>,
    containers: seq<Container>)

  // ---- what the rewrite decides ----

  predicate IsAlias(name: string) {
    name == "nvidia.com/gpu" || (|name| >= 15 && name[..15] == "nvidia.com/mig-")
  }

  function AliasesIn(keys: set<string>): set<string> { set k | k in keys && IsAlias(k) }

  function Aliases(list: ResourceList): set<string> { AliasesIn(list.Keys) }

  lemma AliasesPlus(keys: set<string>, k: string)
    requires k !in keys
    ensures |AliasesIn(keys + {k})| == |AliasesIn(keys)| + if IsAlias(k) then 1 else 0
  {
    assert AliasesIn(keys + {k}) == if IsAlias(k) then AliasesIn(keys) + {k} else AliasesIn(keys);
  }

  datatype Verdict = Refused | Untouched | Renamed(alias: string, quantity: int)

  /** One limits or requests list: at most one alias, agreeing with an existing kiac quantity. */
  ghost function Judge(list: ResourceList): Verdict {
    if |Aliases(list)| > 1 then Refused
    else if Aliases(list) == {} then Untouched
    else
      var a :| a in Aliases(list);
      if GPU in list && list[GPU] != list[a] then Refused else Renamed(a, list[a])
  }

  lemma JudgeOnly(list: ResourceList, a: string)
    requires Aliases(list) == {a}
    ensures Judge(list) == if GPU in list && list[GPU] != list[a] then Refused else Renamed(a, list[a])
  {
    assert |Aliases(list)| == 1;
  }

  lemma JudgeSpec(list: ResourceList)
    ensures Judge(list).Renamed? ==>
              Aliases(list) == {Judge(list).alias} && list[Judge(list).alias] == Judge(list).quantity
    ensures Judge(list).Untouched? <==> Aliases(list) == {}
  {
    if Judge(list).Renamed? {
      var a := Judge(list).alias;
      SingletonMember(Aliases(list), a);
    }
  }

  ghost function ListAfter(list: ResourceList): ResourceList {
    JudgeSpec(list);
    match Judge(list)
    case Renamed(a, q) => list[GPU := q] - {a}
    case _ => list
  }

  ghost function ListOps(path: string, list: ResourceList): seq<Operation> {
    match Judge(list)
    case Renamed(a, q) => [AddOp(path + "/" + Escape(GPU), Num(q)), RemoveOp(path + "/" + Escape(a))]
    case _ => []
  }

  ghost function ListAlias(list: ResourceList): set<string> {
    match Judge(list)
    case Renamed(a, _) => {a}
    case _ => {}
  }

  ghost predicate Accepts(c: Container) { !Judge(c.limits).Refused? && !Judge(c.requests).Refused? }

  ghost function ContainerAfter(c: Container): Container {
    Container(c.name, ListAfter(c.limits), ListAfter(c.requests))
  }

  ghost function ContainerOps(base: string, c: Container): seq<Operation> {
    ListOps(base + "/limits", c.limits) + ListOps(base + "/requests", c.requests)
  }

  ghost function ContainerAlias(c: Container): set<string> { ListAlias(c.limits) + ListAlias(c.requests) }

  ghost function GroupAfter(cs: seq<Container>): seq<Container> {
    seq(|cs|, i requires 0 <= i < |cs| => ContainerAfter(cs[i]))
  }

  function Base(group: string, i: nat): string { "/spec/" + group + "/" + Itoa(i) + "/resources" }

  ghost function GroupOps(group: string, cs: seq<Container>, n: nat): seq<Operation>
    requires n <= |cs|
  {
    if n == 0 then [] else GroupOps(group, cs, n - 1) + ContainerOps(Base(group, n - 1), cs[n - 1])
  }

  ghost function GroupAlias(cs: seq<Container>, n: nat): set<string>
    requires n <= |cs|
  {
    if n == 0 then {} else GroupAlias(cs, n - 1) + ContainerAlias(cs[n - 1])
  }

  ghost predicate GroupAccepts(cs: seq<Container>, n: nat)
    requires n <= |cs|
  {
    forall i :: 0 <= i < n ==> Accepts(cs[i])
  }

  predicate Suits(t: Toleration) {
    && t.key == GPU && (t.effect == "" || t.effect == "NoSchedule")
    && (t.operator == "Exists" || (t.operator == "Equal" && t.value == "true"))
  }

  predicate Tolerates(ts: seq<Toleration>) { exists t :: t in ts && Suits(t) }

  const NEEDED := Toleration(GPU, "Equal", "true", "NoSchedule")

  function TolerationJson(t: Toleration): Json {
    Obj(map["key" := Str(t.key), "operator" := Str(t.operator), "value" := Str(t.value), "effect" := Str(t.effect)])
  }

  function AnnotationOp(pod: Pod, alias: string): Operation {
    if pod.annotations.None?
    then AddOp("/metadata/annotations", Obj(map[ANNOTATION := Str(alias)]))
    else AddOp("/metadata/annotations/" + Escape(ANNOTATION), Str(alias))
  }

  function TolerationOps(pod: Pod): seq<Operation> {
    if Tolerates(TolerationsOf(pod)) then []
    else if pod.tolerations.None? then [AddOp("/spec/tolerations", Arr([TolerationJson(NEEDED)]))]
    else [AddOp("/spec/tolerations/-", TolerationJson(NEEDED))]
  }

  function TolerationsOf(pod: Pod): seq<Toleration> {
    if pod.tolerations.Some? then pod.tolerations.value else []
  }

  datatype Outcome = Denied | NothingToDo | Patched(ops: seq<Operation>, alias: string)

  ghost function AliasUsed(pod: Pod): set<string> {
    GroupAlias(pod.initContainers, |pod.initContainers|) + GroupAlias(pod.containers, |pod.containers|)
  }

  ghost predicate PodAccepts(pod: Pod) {
    GroupAccepts(pod.initContainers, |pod.initContainers|) && GroupAccepts(pod.containers, |pod.containers|)
  }

  ghost function ResourceOps(pod: Pod): seq<Operation> {
    GroupOps("initContainers", pod.initContainers, |pod.initContainers|)
    + GroupOps("containers", pod.containers, |pod.containers|)
  }

  /** The whole decision: refused lists, mixed aliases, nothing to do, or a patch. */
  ghost function Compat(pod: Pod): Outcome {
    if !PodAccepts(pod) || |AliasUsed(pod)| > 1 then Denied
    else if AliasUsed(pod) == {} then NothingToDo
    else
      var alias :| alias in AliasUsed(pod);
      Patched(ResourceOps(pod) + [AnnotationOp(pod, alias)] + TolerationOps(pod), alias)
  }

  lemma CompatPatched(pod: Pod, alias: string)
    requires PodAccepts(pod) && |AliasUsed(pod)| == 1 && alias in AliasUsed(pod)
    ensures Compat(pod) == Patched(ResourceOps(pod) + [AnnotationOp(pod, alias)] + TolerationOps(pod), alias)
  {
    SingletonMember(AliasUsed(pod), alias);
  }

  /** The resource lists after the in-place rewrite. */
  ghost function RewrittenPod(pod: Pod): Pod {
    pod.(initContainers := GroupAfter(pod.initContainers), containers := GroupAfter(pod.containers))
  }

  // ---- the function as the webhook runs it ----

  class Rewriter {
    var initContainers: seq<Container>
    var containers: seq<Container>
    var patches: seq<Operation>
    var rewritten: set<string>

    constructor (pod: Pod)
      ensures initContainers == pod.initContainers && containers == pod.containers
      ensures patches == [] && rewritten == {}
    {
      initContainers, containers := pod.initContainers, pod.containers;
      patches, rewritten := [], {};
    }

    /** Count the aliases in one list, in whatever order the map yields its keys. */
    method FindAlias(list: ResourceList) returns (count: nat, alias: string)
      ensures count == |Aliases(list)| && (count > 0 ==> alias in Aliases(list))
    {
      hide IsAlias;
      count, alias := 0, "";
      var rest := list.Keys;
      ghost var seen: set<string> := {};
      while rest != {}
        invariant seen !! rest && seen + rest == list.Keys
        invariant count == |AliasesIn(seen)|
        invariant count > 0 ==> alias in list.Keys && IsAlias(alias)
        decreases rest
      {
        var k :| k in rest;
        AliasesPlus(seen, k);
        seen, rest := seen + {k}, rest - {k};
        if IsAlias(k) {
          count, alias := count + 1, k;
        }
      }
      assert seen == list.Keys;
    }

    method RewriteList(list: ResourceList, path: string) returns (ok: bool, out: ResourceList)
      modifies `patches, `rewritten
      ensures ok <==> !Judge(list).Refused?
      ensures ok ==> out == ListAfter(list)
      ensures ok ==> patches == old(patches) + ListOps(path, list) && rewritten == old(rewritten) + ListAlias(list)
    {
      hide IsAlias, Escape;
      var count, alias := FindAlias(list);
      JudgeSpec(list);
      if count > 1 {
        return false, list;
      }
      if count == 0 {
        return true, list;
      }
      SingletonMember(Aliases(list), alias);
      assert Aliases(list) == {alias};
      JudgeOnly(list, alias);
      var quantity := list[alias];
      if GPU in list && list[GPU] != quantity {
        return false, list;
      }
      out := list[GPU := quantity] - {alias};
      patches := patches + [AddOp(path + "/" + Escape(GPU), Num(quantity)), RemoveOp(path + "/" + Escape(alias))];
      rewritten := rewritten + {alias};
      return true, out;
    }

    method RewriteRequirements(c: Container, base: string) returns (ok: bool, out: Container)
      modifies `patches, `rewritten
      ensures ok <==> Accepts(c)
      ensures ok ==> out == ContainerAfter(c)
      ensures ok ==> patches == old(patches) + ContainerOps(base, c) && rewritten == old(rewritten) + ContainerAlias(c)
    {
      hide Judge, ListOps, ListAfter, ListAlias;
      var limits;
      out := c;
      ok, limits := RewriteList(c.limits, base + "/limits");
      if ok {
        var requests;
        ok, requests := RewriteList(c.requests, base + "/requests");
        out := Container(c.name, limits, requests);
      }
    }

    method RewriteGroup(group: string, cs: seq<Container>) returns (ok: bool, out: seq<Container>)
      modifies `patches, `rewritten
      ensures ok <==> GroupAccepts(cs, |cs|)
      ensures ok ==> out == GroupAfter(cs)
      ensures ok ==>
                patches == old(patches) + GroupOps(group, cs, |cs|)
                  && rewritten == old(rewritten) + GroupAlias(cs, |cs|)
    {
      hide Accepts, ContainerOps, ContainerAfter, ContainerAlias, Base;
      out := cs;
      for i := 0 to |cs|
        invariant GroupAccepts(cs, i)
        invariant |out| == |cs| && out[..i] == GroupAfter(cs)[..i] && out[i..] == cs[i..]
        invariant patches == old(patches) + GroupOps(group, cs, i) && rewritten == old(rewritten) + GroupAlias(cs, i)
      {
        var fine, c := RewriteRequirements(cs[i], Base(group, i));
        if !fine {
          return false, cs;
        }
        out := out[i := c];
        assert out[..i + 1] == GroupAfter(cs)[..i] + [c];
      }
      return true, out;
    }

    /** nvidiaCompatibilityPatches. */
    method Patches(pod: Pod) returns (r: Outcome)
      requires initContainers == pod.initContainers && containers == pod.containers && patches == [] && rewritten == {}
      modifies this
      ensures r == Compat(pod)
      ensures !r.Denied? ==>
                initContainers == RewrittenPod(pod).initContainers && containers == RewrittenPod(pod).containers
    {
      hide GroupAccepts, GroupOps, GroupAlias, GroupAfter, AnnotationOp, TolerationOps;
      var ok, inits := RewriteGroup("initContainers", initContainers);
      if !ok {
        return Denied;
      }
      initContainers := inits;
      var mains;
      ok, mains := RewriteGroup("containers", containers);
      if !ok {
        return Denied;
      }
      containers := mains;
      if |rewritten| > 1 {
        return Denied;
      }
      if |rewritten| == 0 {
        return NothingToDo;
      }
      assert rewritten == AliasUsed(pod) && patches == ResourceOps(pod);
      var alias :| alias in rewritten;
      CompatPatched(pod, alias);
      patches := patches + [AnnotationOp(pod, alias)] + TolerationOps(pod);
      return Patched(patches, alias);
    }
  }

  lemma SingletonMember(s: set<string>, only: string)
    requires |s| == 1 && only in s
    ensures forall x :: x in s ==> x == only
  {
    assert |s - {only}| == 0;
    forall x | x in s ensures x == only {
      assert x in s - {only} || x == only;
    }
  }
}
