/**
 What the webhook's JSON patch means: applied to the document a Pod was decoded from, it gives the
 document of the Pod that the in-place rewrite produced, with one annotation and a toleration added.
 */
module CompatMeaning {
  import opened Options
  import opened Text
  import opened JsonPatch
  import opened CompatWebhook

  // ---- decoding ----

  function Field(j: Json, name: string): Json {
    if j.Obj? && name in j.fields then j.fields[name] else Null
  }

  function DecodeList(j: Json): Option<ResourceList> {
    match j
    case Null => Some(map[])
    case Obj(f) => if forall k :: k in f ==> f[k].Num? then Some(map k | k in f :: f[k].n) else None
    case _ => None
  }

  function DecodeText(j: Json): Option<string> {
    match j
    case Null => Some("")
    case Str(s) => Some(s)
    case _ => None
  }

  function DecodeContainer(j: Json): Option<Container> {
    var res := Field(j, "resources");
    var name, limits, requests := DecodeText(Field(j, "name")), DecodeList(Field(res, "limits")),
        DecodeList(Field(res, "requests"));
    if j.Obj? && (res.Null? || res.Obj?) && name.Some? && limits.Some? && requests.Some?
    then Some(Container(name.value, limits.value, requests.value)) else None
  }

  function DecodeContainers(j: Json): Option<seq<Container>> {
    match j
    case Null => Some([])
    case Arr(items) =>
      if forall i :: 0 <= i < |items| ==> DecodeContainer(items[i]).Some?
      then Some(seq(|items|, i requires 0 <= i < |items| => DecodeContainer(items[i]).value)) else None
    case _ => None
  }

  function DecodeAnnotations(j: Json): Option<Option<map<string, string>>> {
    match j
    case Null => Some(None)
    case Obj(f) => if forall k :: k in f ==> f[k].Str? then Some(Some(map k | k in f :: f[k].s)) else None
    case _ => None
  }

  function DecodeToleration(j: Json): Option<Toleration> {
    var key, op, value, effect := DecodeText(Field(j, "key")), DecodeText(Field(j, "operator")),
        DecodeText(Field(j, "value")), DecodeText(Field(j, "effect"));
    if j.Obj? && key.Some? && op.Some? && value.Some? && effect.Some?
    then Some(Toleration(key.value, op.value, value.value, effect.value)) else None
  }

  function DecodeTolerations(j: Json): Option<Option<seq<Toleration>>> {
    match j
    case Null => Some(None)
    case Arr(items) =>
      if forall i :: 0 <= i < |items| ==> DecodeToleration(items[i]).Some?
      then Some(Some(seq(|items|, i requires 0 <= i < |items| => DecodeToleration(items[i]).value))) else None
    case _ => None
  }

  /** The parts of a Pod document the webhook reads; absent and null fields decode alike. */
  function Decode(doc: Json): Option<Pod> {
    var meta, spec := Field(doc, "metadata"), Field(doc, "spec");
    var annotations, tolerations := DecodeAnnotations(Field(meta, "annotations")),
        DecodeTolerations(Field(spec, "tolerations"));
    var inits, mains := DecodeContainers(Field(spec, "initContainers")), DecodeContainers(Field(spec, "containers"));
    if doc.Obj? && (meta.Null? || meta.Obj?) && (spec.Null? || spec.Obj?)
       && annotations.Some? && tolerations.Some? && inits.Some? && mains.Some?
    then Some(Pod(annotations.value, tolerations.value, inits.value, mains.value)) else None
  }

  // ---- the document the patch should produce ----

  function With(j: Json, name: string, value: Json): Json
    requires j.Obj?
  {
    Obj(j.fields[name := value])
  }

  lemma WithField(j: Json, name: string, value: Json)
    requires j.Obj?
    ensures Field(With(j, name, value), name) == value
    ensures forall other :: other != name ==> Field(With(j, name, value), other) == Field(j, other)
  {
  }

  lemma WithTwice(j: Json, name: string, first: Json, second: Json)
    requires j.Obj?
    ensures With(With(j, name, first), name, second) == With(j, name, second)
  {
  }

  ghost predicate Renames(list: ResourceList) { Judge(list).Renamed? }

  ghost function NewList(j: Json, list: ResourceList): Json
    requires DecodeList(j) == Some(list)
  {
    if Renames(list) && j.Obj? then Obj(j.fields[GPU := Num(Judge(list).quantity)] - {Judge(list).alias}) else j
  }

  /** A container with one of its resource lists renamed, if it needs it. */
  ghost function Stage(j: Json, which: string, list: ResourceList): Json
    requires DecodeList(Field(Field(j, "resources"), which)) == Some(list)
  {
    var res := Field(j, "resources");
    if Renames(list) && j.Obj? && res.Obj?
    then With(j, "resources", With(res, which, NewList(Field(res, which), list))) else j
  }

  lemma StageOther(j: Json, which: string, list: ResourceList, other: string)
    requires DecodeList(Field(Field(j, "resources"), which)) == Some(list) && other != which
    ensures Field(Field(Stage(j, which, list), "resources"), other) == Field(Field(j, "resources"), other)
  {
  }

  ghost function NewContainer(j: Json): Json
    requires DecodeContainer(j).Some?
  {
    var c := DecodeContainer(j).value;
    StageOther(j, "limits", c.limits, "requests");
    Stage(Stage(j, "limits", c.limits), "requests", c.requests)
  }

  ghost function NewItems(items: seq<Json>, n: nat): seq<Json>
    requires n <= |items| && DecodeContainers(Arr(items)).Some?
  {
    seq(|items|, i requires 0 <= i < |items| => if i < n then NewContainer(items[i]) else items[i])
  }

  ghost function NewGroup(spec: Json, group: string): Json
    requires spec.Obj? && DecodeContainers(Field(spec, group)).Some?
  {
    var j := Field(spec, group);
    if j.Arr? then With(spec, group, Arr(NewItems(j.items, |j.items|))) else spec
  }

  /** Both container groups rewritten. */
  ghost function NewSpec(spec: Json): (r: Json)
    requires spec.Obj? && DecodeContainers(Field(spec, "initContainers")).Some?
            && DecodeContainers(Field(spec, "containers")).Some?
    ensures r.Obj? && Field(r, "tolerations") == Field(spec, "tolerations")
  {
    NewGroup(NewGroup(spec, "initContainers"), "containers")
  }

  function NewTolerations(spec: Json, pod: Pod): Json
    requires spec.Obj?
  {
    var j := Field(spec, "tolerations");
    if Tolerates(TolerationsOf(pod)) then spec
    else With(spec, "tolerations", Arr((if j.Arr? then j.items else []) + [TolerationJson(NEEDED)]))
  }

  function NewMetadata(meta: Json, alias: string): Json
    requires meta.Obj?
  {
    var j := Field(meta, "annotations");
    With(meta, "annotations", Obj((if j.Obj? then j.fields else map[])[ANNOTATION := Str(alias)]))
  }

  // ---- pointers the webhook writes ----

  lemma Below(pointer: string, token: string)
    requires Parse(pointer).Some? && Plain(token)
    ensures Parse(pointer + "/" + token) == Some(Parse(pointer).value + [token])
  {
    ParseSnoc(pointer, token);
    EscapePlain(token);
  }

  lemma TwoTokens(a: string, b: string)
    requires Plain(a) && Plain(b)
    ensures Parse("/" + a) == Some([a]) && Parse("/" + a + "/" + b) == Some([a, b])
  {
    assert Parse("") == Some([]);
    Below("", a);
    assert "" + "/" + a == "/" + a && [] + [a] == [a];
    Below("/" + a, b);
    assert [a] + [b] == [a, b];
  }

  lemma AnnotationPointers()
    ensures Parse("/metadata/annotations") == Some(["metadata", "annotations"])
    ensures Parse("/metadata/annotations/" + Escape(ANNOTATION)) == Some(["metadata", "annotations", ANNOTATION])
  {
    hide Parse, Escape;
    TwoTokens("metadata", "annotations");
    assert "/" + "metadata" + "/" + "annotations" == "/metadata/annotations";
    ParseSnoc("/metadata/annotations", ANNOTATION);
    assert "/metadata/annotations" + "/" + Escape(ANNOTATION) == "/metadata/annotations/" + Escape(ANNOTATION);
    assert ["metadata", "annotations"] + [ANNOTATION] == ["metadata", "annotations", ANNOTATION];
  }

  lemma TolerationPointers()
    ensures Parse("/spec/tolerations") == Some(["spec", "tolerations"])
    ensures Parse("/spec/tolerations/-") == Some(["spec", "tolerations", "-"])
  {
    hide Parse;
    TwoTokens("spec", "tolerations");
    assert "/" + "spec" + "/" + "tolerations" == "/spec/tolerations";
    Below("/spec/tolerations", "-");
    assert "/spec/tolerations" + "/" + "-" == "/spec/tolerations/-";
    assert ["spec", "tolerations"] + ["-"] == ["spec", "tolerations", "-"];
  }

  lemma BasePointer(group: string, i: nat)
    requires Plain(group)
    ensures Parse(Base(group, i)) == Some(["spec", group, Itoa(i)] + ["resources"])
  {
    hide Parse, Itoa;
    TwoTokens("spec", group);
    ItoaReads(i);
    assert Plain(Itoa(i));
    var p := "/" + "spec" + "/" + group;
    Below(p, Itoa(i));
    Below(p + "/" + Itoa(i), "resources");
    assert Base(group, i) == p + "/" + Itoa(i) + "/" + "resources";
    assert ["spec", group] + [Itoa(i)] == ["spec", group, Itoa(i)];
  }

  // ---- one list ----

  lemma AliasIsNotGpu(a: string)
    requires IsAlias(a)
    ensures a != GPU
  {
    assert a[0] == 'n';
  }

  /** The add and remove for one list turn it into the renamed list. */
  lemma ListApplied(doc: Json, pointer: string, path: seq<string>, list: ResourceList)
    requires Parse(pointer) == Some(path) && Renames(list)
    requires Get(doc, path).Some? && DecodeList(Get(doc, path).value) == Some(list)
    ensures ApplyAll(doc, ListOps(pointer, list)) == Some(Set(doc, path, NewList(Get(doc, path).value, list)))
  {
    hide Escape;
    var a, q, j := Judge(list).alias, Judge(list).quantity, Get(doc, path).value;
    JudgeSpec(list);
    AliasIsNotGpu(a);
    assert a in Aliases(list) && a in list && j.Obj?;
    ParseSnoc(pointer, GPU);
    ParseSnoc(pointer, a);
    var ops := ListOps(pointer, list);
    AddBelow(doc, path, [GPU], Num(q));
    var added := Obj(j.fields[GPU := Num(q)]);
    var mid := Set(doc, path, added);
    assert Apply(doc, ops[0]) == Some(mid);
    GetSet(doc, path, added);
    RemoveBelow(mid, path, [a]);
    SetSet(doc, path, added, NewList(j, list));
    assert Apply(mid, ops[1]) == Some(Set(doc, path, NewList(j, list)));
    assert ops[1..] == [ops[1]] && ops[1..][1..] == [];
    var final := Set(doc, path, NewList(j, list));
    assert ApplyAll(final, ops[1..][1..]) == Some(final);
    assert ApplyAll(mid, ops[1..]) == Some(final);
  }

  lemma RenamedPresent(j: Json, list: ResourceList)
    requires DecodeList(j) == Some(list) && Renames(list)
    ensures j.Obj?
  {
    JudgeSpec(list);
    assert Judge(list).alias in Aliases(list) && Judge(list).alias in list;
  }

  lemma {:induction false} SetSame(doc: Json, path: seq<string>)
    requires Get(doc, path).Some?
    ensures Set(doc, path, Get(doc, path).value) == doc
  {
    if path != [] {
      SetSame(Child(doc, path[0]).value, path[1..]);
    }
  }

  // ---- one container ----

  /** Apply one list's operations below a container. */
  lemma ContainerList(doc: Json, at: seq<string>, base: string, which: string, list: ResourceList)
    requires Plain(which) && Parse(base) == Some(at + ["resources"])
    requires Get(doc, at).Some? && Get(doc, at).value.Obj?
    requires DecodeList(Field(Field(Get(doc, at).value, "resources"), which)) == Some(list)
    ensures ApplyAll(doc, ListOps(base + "/" + which, list))
            == Some(Set(doc, at, Stage(Get(doc, at).value, which, list)))
  {
    var j := Get(doc, at).value;
    SetSame(doc, at);
    if Renames(list) {
      var res := Field(j, "resources");
      RenamedPresent(Field(res, which), list);
      Below(base, which);
      var below := ["resources", which];
      assert at + ["resources"] + [which] == at + below;
      assert below[1..] == [which] && below[1..][1..] == [];
      assert Get(j, below) == Get(res, [which]) == Some(Field(res, which));
      GetConcat(doc, at, below);
      ListApplied(doc, base + "/" + which, at + below, list);
      var v := NewList(Field(res, which), list);
      SetConcat(doc, at, below, v);
      assert Set(j, below, v) == With(j, "resources", Set(res, below[1..], v));
      assert Set(res, [which], v) == With(res, which, v);
    }
  }

  /** Both lists of a container, one after the other. */
  lemma BothLists(doc: Json, at: seq<string>, base: string, x: string, l: ResourceList, y: string, r: ResourceList)
    requires Plain(x) && Plain(y) && x != y && Parse(base) == Some(at + ["resources"])
    requires Get(doc, at).Some? && Get(doc, at).value.Obj?
    requires DecodeList(Field(Field(Get(doc, at).value, "resources"), x)) == Some(l)
    requires DecodeList(Field(Field(Get(doc, at).value, "resources"), y)) == Some(r)
    ensures var j1 := Stage(Get(doc, at).value, x, l);
            && DecodeList(Field(Field(j1, "resources"), y)) == Some(r)
            && ApplyAll(doc, ListOps(base + "/" + x, l) + ListOps(base + "/" + y, r))
              == Some(Set(doc, at, Stage(j1, y, r)))
  {
    var j := Get(doc, at).value;
    StageOther(j, x, l, y);
    var j1 := Stage(j, x, l);
    assert j1.Obj?;
    hide Stage, ListOps, Plain, Parse, DecodeList, ApplyAll;
    ContainerList(doc, at, base, x, l);
    GetSet(doc, at, j1);
    ContainerList(Set(doc, at, j1), at, base, y, r);
    SetSet(doc, at, j1, Stage(j1, y, r));
    ApplyAllConcat(doc, ListOps(base + "/" + x, l), ListOps(base + "/" + y, r));
  }

  lemma ContainerApplied(doc: Json, at: seq<string>, base: string, c: Container)
    requires Parse(base) == Some(at + ["resources"])
    requires Get(doc, at).Some? && DecodeContainer(Get(doc, at).value) == Some(c)
    ensures ApplyAll(doc, ContainerOps(base, c)) == Some(Set(doc, at, NewContainer(Get(doc, at).value)))
  {
    hide Stage, ListOps, Plain, Parse, DecodeList, ApplyAll, Get, Set;
    PlainLists();
    BothLists(doc, at, base, "limits", c.limits, "requests", c.requests);
    assert base + "/" + "limits" == base + "/limits" && base + "/" + "requests" == base + "/requests";
  }

  lemma PlainLists()
    ensures Plain("limits") && Plain("requests") && Plain("initContainers") && Plain("containers")
  {
  }

  // ---- a group of containers ----

  lemma ItemAt(items: seq<Json>, i: nat, value: Json)
    requires i < |items|
    ensures Get(Arr(items), [Itoa(i)]) == Some(items[i])
    ensures Set(Arr(items), [Itoa(i)], value) == Arr(items[i := value])
  {
    ItoaReads(i);
    assert [Itoa(i)][1..] == [];
    assert Child(Arr(items), Itoa(i)) == Some(items[i]);
  }

  lemma {:induction false} GroupApplied(doc: Json, group: string, items: seq<Json>, cs: seq<Container>, n: nat)
    requires Plain(group) && Get(doc, ["spec", group]) == Some(Arr(items))
    requires DecodeContainers(Arr(items)) == Some(cs) && n <= |cs|
    ensures ApplyAll(doc, GroupOps(group, cs, n)) == Some(Set(doc, ["spec", group], Arr(NewItems(items, n))))
  {
    hide Base, ContainerOps, NewContainer, DecodeContainer, Itoa, Parse, Plain;
    var at := ["spec", group];
    if n == 0 {
      assert NewItems(items, 0) == items;
      SetSame(doc, at);
    } else {
      var i := n - 1;
      GroupApplied(doc, group, items, cs, i);
      var before := Arr(NewItems(items, i));
      var mid := Set(doc, at, before);
      GetSet(doc, at, before);
      ItemAt(before.items, i, NewContainer(items[i]));
      GetConcat(mid, at, [Itoa(i)]);
      assert at + [Itoa(i)] == ["spec", group, Itoa(i)];
      BasePointer(group, i);
      ContainerApplied(mid, at + [Itoa(i)], Base(group, i), cs[i]);
      ApplyAllConcat(doc, GroupOps(group, cs, i), ContainerOps(Base(group, i), cs[i]));
      SetConcat(mid, at, [Itoa(i)], NewContainer(items[i]));
      assert NewItems(items, n) == before.items[i := NewContainer(items[i])];
      SetSet(doc, at, before, Arr(NewItems(items, n)));
    }
  }

  lemma SpecGroup(doc: Json, group: string, value: Json)
    requires Field(doc, "spec").Obj? && group in Field(doc, "spec").fields
    ensures Get(doc, ["spec", group]) == Some(Field(Field(doc, "spec"), group))
    ensures Set(doc, ["spec", group], value) == With(doc, "spec", With(Field(doc, "spec"), group, value))
  {
    var path := ["spec", group];
    assert path[1..] == [group] && path[1..][1..] == [];
    assert Get(Field(doc, "spec"), [group]) == Some(Field(Field(doc, "spec"), group));
    assert Set(Field(doc, "spec"), [group], value) == With(Field(doc, "spec"), group, value);
  }

  lemma GroupStage(doc: Json, group: string, cs: seq<Container>)
    requires Plain(group) && Field(doc, "spec").Obj?
    requires DecodeContainers(Field(Field(doc, "spec"), group)) == Some(cs)
    ensures ApplyAll(doc, GroupOps(group, cs, |cs|)) == Some(With(doc, "spec", NewGroup(Field(doc, "spec"), group)))
  {
    hide DecodeContainer, NewContainer, ContainerOps, Plain;
    var spec := Field(doc, "spec");
    var j := Field(spec, group);
    if j.Arr? {
      var value := Arr(NewItems(j.items, |cs|));
      SpecGroup(doc, group, value);
      GroupApplied(doc, group, j.items, cs, |cs|);
    } else {
      assert With(doc, "spec", spec) == doc;
    }
  }

  // ---- the whole patch ----

  /** The document with both container groups, the annotation and the toleration in place. */
  ghost function Expected(doc: Json, pod: Pod, alias: string): Json
    requires Decode(doc) == Some(pod) && Field(doc, "spec").Obj? && Field(doc, "metadata").Obj?
  {
    With(With(doc, "spec", NewTolerations(NewSpec(Field(doc, "spec")), pod)),
         "metadata", NewMetadata(Field(doc, "metadata"), alias))
  }

  lemma AliasNeedsSpec(doc: Json, pod: Pod)
    requires Decode(doc) == Some(pod) && AliasUsed(pod) != {}
    ensures Field(doc, "spec").Obj?
  {
  }

  /** Rewriting one group leaves every other field of the spec alone. */
  lemma GroupLeaves(spec: Json, group: string, other: string)
    requires spec.Obj? && DecodeContainers(Field(spec, group)).Some? && other != group
    ensures NewGroup(spec, group).Obj? && Field(NewGroup(spec, group), other) == Field(spec, other)
  {
  }

  lemma TwoGroups(doc: Json, a: string, b: string, first: seq<Container>, second: seq<Container>)
    requires doc.Obj? && Field(doc, "spec").Obj? && a != b && Plain(a) && Plain(b)
    requires DecodeContainers(Field(Field(doc, "spec"), a)) == Some(first)
    requires DecodeContainers(Field(Field(doc, "spec"), b)) == Some(second)
    ensures NewGroup(Field(doc, "spec"), a).Obj?
            && Field(NewGroup(Field(doc, "spec"), a), b) == Field(Field(doc, "spec"), b)
    ensures ApplyAll(doc, GroupOps(a, first, |first|) + GroupOps(b, second, |second|)) ==
            Some(With(doc, "spec", NewGroup(NewGroup(Field(doc, "spec"), a), b)))
  {
    hide NewGroup, GroupOps, DecodeContainers, Plain, With, Field, ApplyAll;
    var spec := Field(doc, "spec");
    GroupLeaves(spec, a, b);
    var half := NewGroup(spec, a);
    GroupStage(doc, a, first);
    WithField(doc, "spec", half);
    GroupStage(With(doc, "spec", half), b, second);
    ApplyAllConcat(doc, GroupOps(a, first, |first|), GroupOps(b, second, |second|));
    WithTwice(doc, "spec", half, NewGroup(half, b));
  }

  lemma ResourcesApplied(doc: Json, pod: Pod)
    requires Decode(doc) == Some(pod) && Field(doc, "spec").Obj?
    ensures ApplyAll(doc, ResourceOps(pod)) == Some(With(doc, "spec", NewSpec(Field(doc, "spec"))))
  {
    PlainLists();
    hide Plain, ApplyAll, GroupOps, NewGroup, DecodeContainers, DecodeAnnotations, DecodeTolerations;
    TwoGroups(doc, "initContainers", "containers", pod.initContainers, pod.containers);
  }

  /** `add` two levels down needs the first level to be there. */
  lemma AddTwo(doc: Json, a: string, b: string, value: Json)
    requires doc.Obj? && (Field(doc, a).Obj? || Field(doc, a).Null?)
    ensures Add(doc, [a, b], value) ==
            if Field(doc, a).Obj? then Some(With(doc, a, With(Field(doc, a), b, value))) else None
  {
    assert [a, b][1..] == [b];
    if a in doc.fields {
      assert Add(doc.fields[a], [b], value) == if doc.fields[a].Obj? then Some(With(doc.fields[a], b, value)) else None;
    }
  }

  lemma AddThree(doc: Json, a: string, b: string, c: string, value: Json)
    requires Field(doc, a).Obj? && (Field(Field(doc, a), b).Obj? || Field(Field(doc, a), b).Null?)
    ensures Add(doc, [a, b, c], value) ==
            if Field(Field(doc, a), b).Obj?
            then Some(With(doc, a, With(Field(doc, a), b, With(Field(Field(doc, a), b), c, value)))) else None
  {
    assert [a, b, c][1..] == [b, c];
    AddTwo(Field(doc, a), b, c, value);
  }

  lemma AppendTwo(doc: Json, a: string, b: string, items: seq<Json>, value: Json)
    requires Field(doc, a).Obj? && Field(Field(doc, a), b) == Arr(items)
    ensures Add(doc, [a, b, "-"], value) == Some(With(doc, a, With(Field(doc, a), b, Arr(items + [value]))))
  {
    var path := [a, b, "-"];
    assert path[1..] == [b, "-"] && path[1..][1..] == ["-"];
    assert Add(Arr(items), path[1..][1..], value) == Some(Arr(items + [value]));
    assert Add(Field(doc, a), path[1..], value) == Some(With(Field(doc, a), b, Arr(items + [value])));
  }

  /** The annotation lands exactly when the document has a metadata object. */
  lemma AnnotationApplied(doc: Json, pod: Pod, alias: string)
    requires doc.Obj? && (Field(doc, "metadata").Null? || Field(doc, "metadata").Obj?)
    requires DecodeAnnotations(Field(Field(doc, "metadata"), "annotations")) == Some(pod.annotations)
    ensures Apply(doc, AnnotationOp(pod, alias)) ==
            if Field(doc, "metadata").Obj?
            then Some(With(doc, "metadata", NewMetadata(Field(doc, "metadata"), alias)))
            else None
  {
    AnnotationPointers();
    hide Parse, Escape, Add;
    if pod.annotations.None? {
      AddTwo(doc, "metadata", "annotations", Obj(map[ANNOTATION := Str(alias)]));
      assert map[][ANNOTATION := Str(alias)] == map[ANNOTATION := Str(alias)];
    } else {
      AddThree(doc, "metadata", "annotations", ANNOTATION, Str(alias));
    }
  }

  lemma TolerationApplied(doc: Json, pod: Pod)
    requires Field(doc, "spec").Obj?
            && DecodeTolerations(Field(Field(doc, "spec"), "tolerations")) == Some(pod.tolerations)
    ensures ApplyAll(doc, TolerationOps(pod)) == Some(With(doc, "spec", NewTolerations(Field(doc, "spec"), pod)))
  {
    TolerationPointers();
    hide Parse, Add, TolerationJson, DecodeToleration;
    var v, ops := TolerationJson(NEEDED), TolerationOps(pod);
    if Tolerates(TolerationsOf(pod)) {
      assert With(doc, "spec", Field(doc, "spec")) == doc;
    } else {
      assert ops[1..] == [] && ApplyAll(doc, ops) == Apply(doc, ops[0]);
      if pod.tolerations.None? {
        assert [] + [v] == [v];
        AddTwo(doc, "spec", "tolerations", Arr([v]));
      } else {
        AppendTwo(doc, "spec", "tolerations", Field(Field(doc, "spec"), "tolerations").items, v);
      }
    }
  }

  lemma ApplyOne(doc: Json, op: Operation)
    ensures ApplyAll(doc, [op]) == Apply(doc, op)
  {
    assert [op][1..] == [];
  }

  /** The annotation and the toleration after the resource operations. */
  lemma RestApplied(doc: Json, spec: Json, pod: Pod, alias: string)
    requires doc.Obj? && (Field(doc, "metadata").Null? || Field(doc, "metadata").Obj?) && spec.Obj?
    requires DecodeAnnotations(Field(Field(doc, "metadata"), "annotations")) == Some(pod.annotations)
    requires DecodeTolerations(Field(spec, "tolerations")) == Some(pod.tolerations)
    ensures ApplyAll(With(doc, "spec", spec), [AnnotationOp(pod, alias)] + TolerationOps(pod)) ==
            if Field(doc, "metadata").Obj?
            then Some(With(With(doc, "spec", NewTolerations(spec, pod)), "metadata",
                NewMetadata(Field(doc, "metadata"), alias)))
            else None
  {
    hide NewTolerations, NewMetadata, AnnotationOp, TolerationOps, Apply, ApplyAll, DecodeAnnotations,
        DecodeTolerations;
    var one, mid := AnnotationOp(pod, alias), With(doc, "spec", spec);
    ApplyOne(mid, one);
    WithField(doc, "spec", spec);
    AnnotationApplied(mid, pod, alias);
    ApplyAllConcat(mid, [one], TolerationOps(pod));
    if Field(doc, "metadata").Obj? {
      var meta := NewMetadata(Field(doc, "metadata"), alias);
      WithField(mid, "metadata", meta);
      TolerationApplied(With(mid, "metadata", meta), pod);
      WithSwap(doc, spec, NewTolerations(spec, pod), meta);
    }
  }

  lemma WithSwap(doc: Json, spec: Json, newer: Json, meta: Json)
    requires doc.Obj?
    ensures With(With(With(doc, "spec", spec), "metadata", meta), "spec", newer)
            == With(With(doc, "spec", newer), "metadata", meta)
  {
  }

  lemma PatchParts(pod: Pod)
    requires Compat(pod).Patched?
    ensures AliasUsed(pod) != {}
            && Compat(pod).ops == ResourceOps(pod) + ([AnnotationOp(pod, Compat(pod).alias)] + TolerationOps(pod))
  {
    hide AliasUsed, ResourceOps, AnnotationOp, TolerationOps;
    var alias := Compat(pod).alias;
    assert ResourceOps(pod) + [AnnotationOp(pod, alias)] + TolerationOps(pod)
      == ResourceOps(pod) + ([AnnotationOp(pod, alias)] + TolerationOps(pod));
  }

  /**
   The patch applies to the original document exactly when that document has a metadata object,
   and then gives exactly the rewritten lists, the annotation and the toleration, nothing else.
   */
  lemma PatchApplies(doc: Json, pod: Pod)
    requires Decode(doc) == Some(pod) && Compat(pod).Patched?
    ensures Field(doc, "spec").Obj?
    ensures ApplyAll(doc, Compat(pod).ops) ==
            if Field(doc, "metadata").Obj? then Some(Expected(doc, pod, Compat(pod).alias)) else None
  {
    var alias := Compat(pod).alias;
    PatchParts(pod);
    hide Compat, ApplyAll, NewSpec, With, Field, DecodeAnnotations, DecodeTolerations, DecodeContainers,
        NewTolerations, NewMetadata,
         AliasUsed, ResourceOps, AnnotationOp, TolerationOps;
    AliasNeedsSpec(doc, pod);
    ResourcesApplied(doc, pod);
    var rest := [AnnotationOp(pod, alias)] + TolerationOps(pod);
    RestApplied(doc, NewSpec(Field(doc, "spec")), pod, alias);
    ApplyAllConcat(doc, ResourceOps(pod), rest);
  }

  // ---- what the patched document decodes to ----

  lemma NewListDecodes(j: Json, list: ResourceList)
    requires DecodeList(j) == Some(list)
    ensures DecodeList(NewList(j, list)) == Some(ListAfter(list))
  {
    if Renames(list) {
      RenamedPresent(j, list);
      JudgeSpec(list);
      var f := NewList(j, list).fields;
      assert (map k | k in f :: f[k].n) == ListAfter(list);
    }
  }

  /** Staging one list gives the renamed list and leaves name and the other list alone. */
  lemma StageDecodes(j: Json, which: string, list: ResourceList)
    requires j.Obj? && (Field(j, "resources").Obj? || Field(j, "resources").Null?)
    requires DecodeList(Field(Field(j, "resources"), which)) == Some(list)
    ensures var k := Stage(j, which, list);
            && k.Obj? && (Field(k, "resources").Obj? || Field(k, "resources").Null?)
            && Field(k, "name") == Field(j, "name")
            && DecodeList(Field(Field(k, "resources"), which)) == Some(ListAfter(list))
  {
    NewListDecodes(j := Field(Field(j, "resources"), which), list := list);
    hide NewList, DecodeList, ListAfter;
    if Renames(list) {
      RenamedPresent(Field(Field(j, "resources"), which), list);
    } else {
      StageSkipped(j, which, list);
    }
  }

  lemma StageSkipped(j: Json, which: string, list: ResourceList)
    requires DecodeList(Field(Field(j, "resources"), which)) == Some(list) && !Renames(list)
    ensures Stage(j, which, list) == j && ListAfter(list) == list
  {
  }

  lemma NewContainerDecodes(j: Json)
    requires DecodeContainer(j).Some?
    ensures DecodeContainer(NewContainer(j)) == Some(ContainerAfter(DecodeContainer(j).value))
  {
    var c := DecodeContainer(j).value;
    hide DecodeList, ListAfter, Stage;
    StageDecodes(j, "limits", c.limits);
    StageOther(j, "limits", c.limits, "requests");
    var half := Stage(j, "limits", c.limits);
    StageDecodes(half, "requests", c.requests);
    StageOther(half, "requests", c.requests, "limits");
  }

  lemma GroupDecodes(spec: Json, group: string)
    requires spec.Obj? && DecodeContainers(Field(spec, group)).Some?
    ensures DecodeContainers(Field(NewGroup(spec, group), group))
            == Some(GroupAfter(DecodeContainers(Field(spec, group)).value))
  {
    var j := Field(spec, group);
    hide DecodeContainer, NewContainer, ContainerAfter;
    if j.Arr? {
      forall i | 0 <= i < |j.items|
        ensures DecodeContainer(NewContainer(j.items[i])) == Some(ContainerAfter(DecodeContainer(j.items[i]).value))
      {
        NewContainerDecodes(j.items[i]);
      }
      var items := NewItems(j.items, |j.items|);
      WithField(spec, group, Arr(items));
      assert forall i :: 0 <= i < |items| ==> DecodeContainer(items[i]).Some?;
      assert DecodeContainers(Arr(items)).value == GroupAfter(DecodeContainers(j).value);
    } else {
      assert GroupAfter([]) == [];
    }
  }

  /** The Pod the patch is meant to produce. */
  ghost function FinalPod(pod: Pod, alias: string): Pod {
    RewrittenPod(pod).(
      annotations := Some((if pod.annotations.Some? then pod.annotations.value else map[])[ANNOTATION := alias]),
      tolerations := if Tolerates(TolerationsOf(pod)) then pod.tolerations else Some(TolerationsOf(pod) + [NEEDED]))
  }

  lemma MetadataDecodes(meta: Json, pod: Pod, alias: string)
    requires meta.Obj? && DecodeAnnotations(Field(meta, "annotations")) == Some(pod.annotations)
    ensures DecodeAnnotations(Field(NewMetadata(meta, alias), "annotations")) == Some(FinalPod(pod, alias).annotations)
  {
    hide RewrittenPod, Tolerates;
    var j := Field(meta, "annotations");
    var fields := (if j.Obj? then j.fields else map[])[ANNOTATION := Str(alias)];
    WithField(meta, "annotations", Obj(fields));
    assert (map k | k in fields :: fields[k].s)
      == (if pod.annotations.Some? then pod.annotations.value else map[])[ANNOTATION := alias];
  }

  lemma TolerationsDecode(spec: Json, pod: Pod, alias: string)
    requires spec.Obj? && DecodeTolerations(Field(spec, "tolerations")) == Some(pod.tolerations)
    ensures DecodeTolerations(Field(NewTolerations(spec, pod), "tolerations")) == Some(FinalPod(pod, alias).tolerations)
  {
    NeededDecodes();
    hide RewrittenPod, Tolerates, DecodeToleration, TolerationJson;
    if !Tolerates(TolerationsOf(pod)) {
      var j := Field(spec, "tolerations");
      var items := (if j.Arr? then j.items else []) + [TolerationJson(NEEDED)];
      WithField(spec, "tolerations", Arr(items));
      assert forall i :: 0 <= i < |items| ==> DecodeToleration(items[i]).Some?;
      assert seq(|items|, i requires 0 <= i < |items| => DecodeToleration(items[i]).value)
        == TolerationsOf(pod) + [NEEDED];
    }
  }

  lemma NeededDecodes()
    ensures DecodeToleration(TolerationJson(NEEDED)) == Some(NEEDED)
  {
  }

  lemma SpecDecodes(spec: Json)
    requires spec.Obj? && DecodeContainers(Field(spec, "initContainers")).Some?
            && DecodeContainers(Field(spec, "containers")).Some?
    ensures var s := NewSpec(spec);
            && DecodeContainers(Field(s, "initContainers"))
              == Some(GroupAfter(DecodeContainers(Field(spec, "initContainers")).value))
            && DecodeContainers(Field(s, "containers"))
              == Some(GroupAfter(DecodeContainers(Field(spec, "containers")).value))
  {
    hide NewGroup, DecodeContainers, Field;
    GroupLeaves(spec, "initContainers", "containers");
    GroupDecodes(spec, "initContainers");
    var half := NewGroup(spec, "initContainers");
    GroupLeaves(half, "containers", "initContainers");
    GroupDecodes(half, "containers");
  }

  lemma TolerationsLeave(spec: Json, pod: Pod, other: string)
    requires spec.Obj? && other != "tolerations"
    ensures NewTolerations(spec, pod).Obj? && Field(NewTolerations(spec, pod), other) == Field(spec, other)
  {
  }

  /** The patched document decodes to the rewritten Pod with the annotation and the toleration. */
  lemma PatchMeansRewrite(doc: Json, pod: Pod)
    requires Decode(doc) == Some(pod) && Compat(pod).Patched? && Field(doc, "metadata").Obj?
    ensures var patched := ApplyAll(doc, Compat(pod).ops);
            patched.Some? && Decode(patched.value) == Some(FinalPod(pod, Compat(pod).alias))
  {
    var alias := Compat(pod).alias;
    PatchApplies(doc, pod);
    var spec, meta := Field(doc, "spec"), Field(doc, "metadata");
    SpecDecodes(spec);
    var s := NewSpec(spec);
    TolerationsDecode(s, pod, alias);
    TolerationsLeave(s, pod, "initContainers");
    TolerationsLeave(s, pod, "containers");
    MetadataDecodes(meta, pod, alias);
    hide NewSpec, NewTolerations, NewMetadata, DecodeContainers, DecodeTolerations, DecodeAnnotations, With, Field,
        ApplyAll, Compat;
    var final := Expected(doc, pod, alias);
    WithField(doc, "spec", NewTolerations(s, pod));
    WithField(With(doc, "spec", NewTolerations(s, pod)), "metadata", NewMetadata(meta, alias));
    assert Field(final, "spec") == NewTolerations(s, pod) && Field(final, "metadata") == NewMetadata(meta, alias);
  }

  // ---- the result needs no further rewrite ----

  lemma ListSettles(list: ResourceList)
    requires !Judge(list).Refused?
    ensures Judge(ListAfter(list)) == Untouched && ListAlias(ListAfter(list)) == {}
  {
    JudgeSpec(list);
    JudgeSpec(ListAfter(list));
    if Judge(list).Renamed? {
      assert GPU[0] == 'k' && !IsAlias(GPU);
      assert Aliases(ListAfter(list)) == {};
    }
  }

  lemma ContainerSettles(c: Container)
    requires Accepts(c)
    ensures Accepts(ContainerAfter(c)) && ContainerAlias(ContainerAfter(c)) == {}
  {
    hide Judge, ListAfter, ListAlias;
    ListSettles(c.limits);
    ListSettles(c.requests);
  }

  lemma {:induction false} GroupSettles(cs: seq<Container>, n: nat)
    requires n <= |cs| && GroupAccepts(cs, |cs|)
    ensures GroupAccepts(GroupAfter(cs), n) && GroupAlias(GroupAfter(cs), n) == {}
  {
    hide Accepts, ContainerAfter, ContainerAlias;
    if n > 0 {
      GroupSettles(cs, n - 1);
      ContainerSettles(cs[n - 1]);
    }
  }

  lemma FinalTolerates(pod: Pod, alias: string)
    ensures Tolerates(TolerationsOf(FinalPod(pod, alias)))
  {
    hide RewrittenPod;
    if !Tolerates(TolerationsOf(pod)) {
      var ts := TolerationsOf(FinalPod(pod, alias));
      assert ts[|ts| - 1] == NEEDED && NEEDED in ts && Suits(NEEDED);
    }
  }

  /** A patched Pod is tolerated on GPU nodes, carries the annotation, and is left alone by a second pass. */
  lemma RewriteSettles(pod: Pod)
    requires Compat(pod).Patched?
    ensures var final := FinalPod(pod, Compat(pod).alias);
            && Tolerates(TolerationsOf(final))
            && final.annotations.value[ANNOTATION] == Compat(pod).alias && IsAlias(Compat(pod).alias)
            && Compat(final) == NothingToDo
  {
    hide GroupAccepts, GroupAlias, GroupAfter, Tolerates, ResourceOps, AnnotationOp, TolerationOps, IsAlias;
    FinalTolerates(pod, Compat(pod).alias);
    GroupSettles(pod.initContainers, |pod.initContainers|);
    GroupSettles(pod.containers, |pod.containers|);
    GroupAfterLength(pod.initContainers);
    GroupAfterLength(pod.containers);
    GroupAliasAreAliases(pod.initContainers, |pod.initContainers|);
    GroupAliasAreAliases(pod.containers, |pod.containers|);
  }

  lemma GroupAfterLength(cs: seq<Container>)
    ensures |GroupAfter(cs)| == |cs|
  {
  }

  lemma {:induction false} GroupAliasAreAliases(cs: seq<Container>, n: nat)
    requires n <= |cs|
    ensures forall a :: a in GroupAlias(cs, n) ==> IsAlias(a)
  {
    if n > 0 {
      GroupAliasAreAliases(cs, n - 1);
      JudgeSpec(cs[n - 1].limits);
      JudgeSpec(cs[n - 1].requests);
    }
  }
}
