/** Node names: how cluster, role and index are written into one, read back, and put in order. */
module NodeNames {
  import opened Options
  import opened Text
  import Sums

  predicate ValidName(s: string) {
    s != "" && forall k :: 0 <= k < |s| ==> s[k] == '-' || 'a' <= s[k] <= 'z' || '0' <= s[k] <= '9'
  }

  datatype Role = ControlPlane | Worker | GpuWorker

  const CONTROL_PLANE := "-control-plane"
  const WORKER := "-worker-"
  const GPU := "-gpu-"

  predicate IsIndex(i: nat) { 1 <= i <= MAX_INT }

  function NodeName(name: string, role: Role, i: nat): string {
    "kiac-" + name + Suffix(role, i)
  }

  function Suffix(role: Role, i: nat): string {
    match role
    case ControlPlane => CONTROL_PLANE
    case Worker => WORKER + Itoa(i)
    case GpuWorker => GPU + Itoa(i)
  }

  predicate CanonicalPositiveIndex(value: string) {
    var index := Atoi(value);
    index.Some? && index.value > 0 && Itoa(index.value) == value
  }

  /** An index text is canonical exactly when it is printed from an index. */
  lemma CanonicalExactly(value: string)
    ensures CanonicalPositiveIndex(value) <==> exists i :: IsIndex(i) && value == Itoa(i)
    ensures CanonicalPositiveIndex(value) ==> value != "" && AllDigits(value)
  {
    if CanonicalPositiveIndex(value) {
      ItoaReads(Atoi(value).value);
    }
    if exists i :: IsIndex(i) && value == Itoa(i) {
      var i :| IsIndex(i) && value == Itoa(i);
      AtoiItoa(i);
    }
  }

  // ---- the last occurrence of a text ----

  predicate At(s: string, text: string, i: int) { 0 <= i <= |s| - |text| && s[i..i + |text|] == text }

  function LastBelow(s: string, text: string, n: nat): (i: int)
    ensures -1 <= i < n && (i >= 0 ==> At(s, text, i)) && forall k :: i < k < n ==> !At(s, text, k)
  {
    if n == 0 then -1 else if At(s, text, n - 1) then n - 1 else LastBelow(s, text, n - 1)
  }

  /** strings.LastIndex. */
  function LastText(s: string, text: string): int { LastBelow(s, text, |s| + 1) }

  lemma AtChars(s: string, text: string, k: int)
    ensures At(s, text, k) ==> forall j :: 0 <= j < |text| ==> s[k + j] == text[j]
  {
    if At(s, text, k) {
      forall j | 0 <= j < |text| ensures s[k + j] == text[j] { assert s[k..k + |text|][j] == s[k + j]; }
    }
  }

  lemma LastAtEnd(name: string, marker: string)
    ensures LastText(name + marker, marker) == |name|
  {
    var s := name + marker;
    assert s[|name|..|name| + |marker|] == marker;
    assert At(s, marker, |name|);
  }

  /** A dash, letters and a dash. */
  predicate IsMarker(m: string) {
    |m| > 2 && m[0] == '-' == m[|m| - 1] && forall k :: 0 < k < |m| - 1 ==> 'a' <= m[k] <= 'z'
  }

  /** The marker before an index is the last one, whatever the name holds. */
  lemma LastBeforeIndex(name: string, marker: string, digits: string)
    requires IsMarker(marker) && digits != "" && AllDigits(digits)
    ensures LastText(name + marker + digits, marker) == |name|
  {
    var s := name + marker + digits;
    assert s[|name|..|name| + |marker|] == marker;
    assert At(s, marker, |name|);
    forall k | |name| < k <= |s| ensures !At(s, marker, k) {
      AtChars(s, marker, k);
      if |name| < k < |name| + |marker| {
        assert s[k] == marker[k - |name|];
        if k == |name| + |marker| - 1 {
          assert s[k + 1] == digits[0];
        }
      } else if k < |s| {
        assert s[k] == digits[k - |name| - |marker|];
      }
    }
  }

  // ---- reading a name back ----

  function TrimPrefix(s: string, p: string): string { if p <= s then s[|p|..] else s }

  function Before(rest: string, marker: string): Option<string> {
    var idx := LastText(rest, marker);
    if idx > 0 && CanonicalPositiveIndex(rest[idx + |marker|..]) then Some(rest[..idx]) else None
  }

  /** What stands before the role in the rest of a node name. */
  function NameOf(rest: string): Option<string> {
    var idx := LastText(rest, CONTROL_PLANE);
    if idx > 0 && idx + |CONTROL_PLANE| == |rest| then Some(rest[..idx])
    else
      var name := Before(rest, WORKER);
      if name.Some? then name else Before(rest, GPU)
  }

  function ClusterNameFromNode(node: string): Option<string> {
    var rest := TrimPrefix(node, "kiac-");
    if rest == node then None else NameOf(rest)
  }

  lemma AfterPrefix(rest: string)
    ensures ClusterNameFromNode("kiac-" + rest) == NameOf(rest)
  {
    var node := "kiac-" + rest;
    assert node[5..] == rest && |rest| != |node|;
  }

  lemma BeforeIndex(name: string, marker: string, i: nat)
    requires IsMarker(marker) && IsIndex(i) && name != ""
    ensures Before(name + marker + Itoa(i), marker) == Some(name)
  {
    var s := name + marker + Itoa(i);
    ItoaReads(i);
    LastBeforeIndex(name, marker, Itoa(i));
    assert s[|name| + |marker|..] == Itoa(i) && s[..|name|] == name;
    CanonicalExactly(Itoa(i));
  }

  /** Another marker inside the name is not mistaken for the one before the index. */
  lemma OtherMarker(name: string, marker: string, other: string, i: nat)
    requires IsMarker(marker) && IsMarker(other) && marker != other && IsIndex(i)
    ensures Before(name + marker + Itoa(i), other) == None
  {
    hide CanonicalPositiveIndex, IsMarker, AllDigits, Itoa;
    ItoaReads(i);
    var s := name + marker + Itoa(i);
    var idx := LastText(s, other);
    if idx > 0 {
      CanonicalExactly(s[idx + |other|..]);
      DashAfter(name, marker, Itoa(i), other, idx);
    }
  }

  /** What follows another marker still holds the dashes of the real one. */
  lemma DashAfter(name: string, marker: string, digits: string, other: string, idx: nat)
    requires IsMarker(marker) && IsMarker(other) && marker != other && AllDigits(digits) && digits != ""
    requires At(name + marker + digits, other, idx)
    ensures !AllDigits((name + marker + digits)[idx + |other|..])
  {
    var s := name + marker + digits;
    var last := |name| + |marker| - 1;
    AtChars(s, other, idx);
    assert s[last] == '-' && forall k :: last < k < |s| ==> s[k] == digits[k - last - 1];
    assert forall k :: |name| < k < last ==> s[k] == marker[k - |name|];
    assert s[|name|] == '-';
    var end := idx + |other|;
    assert s[end - 1] == '-' && s[idx] == '-';
    assert end - 1 <= last;
    if end - 1 == last {
      Overlap(s, name, marker, other, idx);
    } else {
      assert s[end..][last - end] == '-';
    }
  }

  lemma Overlap(s: string, name: string, marker: string, other: string, idx: nat)
    requires IsMarker(marker) && IsMarker(other) && At(s, other, idx) && At(s, marker, |name|)
            && idx + |other| == |name| + |marker|
    ensures marker == other
  {
    AtChars(s, other, idx);
    AtChars(s, marker, |name|);
    assert s[idx] == '-' && s[|name|] == '-';
  }

  lemma NotControlPlane(rest: string)
    requires rest != "" && IsDigit(rest[|rest| - 1])
    ensures var idx := LastText(rest, CONTROL_PLANE); idx > 0 ==> idx + |CONTROL_PLANE| != |rest|
  {
    var idx := LastText(rest, CONTROL_PLANE);
    AtChars(rest, CONTROL_PLANE, idx);
    assert CONTROL_PLANE[13] == 'e';
  }

  lemma IndexedName(name: string, marker: string, i: nat)
    requires name != "" && IsIndex(i) && (marker == WORKER || marker == GPU)
    ensures NameOf(name + marker + Itoa(i)) == Some(name)
  {
    hide LastText, Itoa, Before;
    var rest := name + marker + Itoa(i);
    ItoaReads(i);
    assert rest[|rest| - 1] == Itoa(i)[|Itoa(i)| - 1];
    NotControlPlane(rest);
    BeforeIndex(name, marker, i);
    if marker == GPU {
      OtherMarker(name, GPU, WORKER, i);
    }
  }

  /** The cluster name is read back from every node name, even when it contains the markers itself. */
  lemma NameReadsBack(name: string, role: Role, i: nat)
    requires ValidName(name) && IsIndex(i)
    ensures ClusterNameFromNode(NodeName(name, role, i)) == Some(name)
  {
    hide ClusterNameFromNode, LastText, Itoa;
    assert NodeName(name, role, i) == "kiac-" + (name + Suffix(role, i));
    AfterPrefix(name + Suffix(role, i));
    match role
    case ControlPlane =>
      LastAtEnd(name, CONTROL_PLANE);
      assert (name + CONTROL_PLANE)[..|name|] == name;
    case Worker =>
      assert name + Suffix(role, i) == name + WORKER + Itoa(i);
      IndexedName(name, WORKER, i);
    case GpuWorker =>
      assert name + Suffix(role, i) == name + GPU + Itoa(i);
      IndexedName(name, GPU, i);
  }

  /** Different nodes have different names: cluster, role and index are all in it. */
  lemma NamesDistinct(a: string, r: Role, i: nat, b: string, q: Role, j: nat)
    requires ValidName(a) && ValidName(b) && IsIndex(i) && IsIndex(j) && NodeName(a, r, i) == NodeName(b, q, j)
    ensures a == b && r == q && (r == ControlPlane || i == j)
  {
    hide ClusterNameFromNode, Itoa;
    NameReadsBack(a, r, i);
    NameReadsBack(b, q, j);
    SuffixesDistinct(a, r, i, q, j);
  }

  lemma SuffixesDistinct(name: string, r: Role, i: nat, q: Role, j: nat)
    requires NodeName(name, r, i) == NodeName(name, q, j)
    ensures r == q && (r == ControlPlane || i == j)
  {
    var s, t := Suffix(r, i), Suffix(q, j);
    var head := "kiac-" + name;
    assert s == (head + s)[|head|..] && t == (head + t)[|head|..];
    assert s[1] == t[1];
    if r == q == Worker {
      assert s[8..] == Itoa(i) && t[8..] == Itoa(j);
      ItoaInjective(i, j);
    } else if r == q == GpuWorker {
      assert s[5..] == Itoa(i) && t[5..] == Itoa(j);
      ItoaInjective(i, j);
    }
  }

  // ---- ordering a cluster's nodes ----

  datatype Entry = Entry(index: nat, node: string)

  function Nodes(es: seq<Entry>): seq<string> { seq(|es|, k requires 0 <= k < |es| => es[k].node) }

  predicate Ascending(es: seq<Entry>) { forall i, j :: 0 <= i < j < |es| ==> es[i].index < es[j].index }

  predicate Unique<T(==)>(xs: seq<T>) { forall i, j :: 0 <= i < j < |xs| ==> xs[i] != xs[j] }

  /** Every entry is the node of this role and its index. */
  predicate AllOf(name: string, role: Role, es: seq<Entry>) {
    forall k :: 0 <= k < |es| ==> IsIndex(es[k].index) && es[k].node == NodeName(name, role, es[k].index)
  }

  function Insert(e: Entry, es: seq<Entry>): seq<Entry> {
    if es == [] || e.index < es[0].index then [e] + es else [es[0]] + Insert(e, es[1..])
  }

  lemma {:induction false} InsertSorts(e: Entry, es: seq<Entry>)
    requires Ascending(es) && forall k :: 0 <= k < |es| ==> es[k].index != e.index
    ensures Ascending(Insert(e, es)) && multiset(Insert(e, es)) == multiset(es) + multiset{e}
    ensures forall x :: x in Insert(e, es) <==> x == e || x in es
  {
    if es == [] || e.index < es[0].index {
      assert Insert(e, es) == [e] + es;
    } else {
      var rest := Insert(e, es[1..]);
      InsertSorts(e, es[1..]);
      assert es == [es[0]] + es[1..];
      forall k | 0 <= k < |rest| ensures es[0].index < rest[k].index {
        assert rest[k] in rest;
      }
    }
  }

  lemma InsertKeeps(name: string, role: Role, e: Entry, es: seq<Entry>)
    requires AllOf(name, role, es) && IsIndex(e.index) && e.node == NodeName(name, role, e.index)
    requires forall x :: x in Insert(e, es) <==> x == e || x in es
    ensures AllOf(name, role, Insert(e, es))
  {
    hide Insert, NodeName;
    var more := Insert(e, es);
    forall k | 0 <= k < |more| ensures IsIndex(more[k].index) && more[k].node == NodeName(name, role, more[k].index) {
      assert more[k] in more;
    }
  }

  /** sort.Slice by index. */
  method ToNames(name: string, role: Role, es: seq<Entry>) returns (sorted: seq<Entry>)
    requires AllOf(name, role, es) && forall i, j :: 0 <= i < j < |es| ==> es[i].index != es[j].index
    ensures Ascending(sorted) && multiset(sorted) == multiset(es) && AllOf(name, role, sorted)
  {
    hide Insert, NodeName;
    sorted := [];
    for i := 0 to |es|
      invariant Ascending(sorted) && multiset(sorted) == multiset(es[..i]) && AllOf(name, role, sorted)
    {
      NoSuchIndex(es, i, sorted);
      InsertSorts(es[i], sorted);
      InsertKeeps(name, role, es[i], sorted);
      sorted := Insert(es[i], sorted);
      assert es[..i + 1] == es[..i] + [es[i]];
    }
    assert es[..|es|] == es;
  }

  lemma NoSuchIndex(es: seq<Entry>, i: nat, sorted: seq<Entry>)
    requires i < |es| && multiset(sorted) == multiset(es[..i])
    requires forall a, b :: 0 <= a < b < |es| ==> es[a].index != es[b].index
    ensures forall k :: 0 <= k < |sorted| ==> sorted[k].index != es[i].index
  {
    Sums.SameMembers(sorted, es[..i]);
    forall k | 0 <= k < |sorted| ensures sorted[k].index != es[i].index {
      assert sorted[k] in es[..i];
    }
  }

  ghost predicate IsNode(name: string, role: Role, node: string) {
    exists i :: IsIndex(i) && node == NodeName(name, role, i)
  }

  ghost predicate Named(name: string, node: string) {
    node == NodeName(name, ControlPlane, 1) || IsNode(name, Worker, node) || IsNode(name, GpuWorker, node)
  }

  /** One control plane, and workers of both kinds with distinct canonical indexes; nothing else. */
  ghost predicate Complete(name: string, infos: seq<string>) {
    && NodeName(name, ControlPlane, 1) in infos && Unique(infos)
    && forall k :: 0 <= k < |infos| ==> Named(name, infos[k])
  }

  function GroupPrefix(name: string, gpu: bool): string { "kiac-" + name + if gpu then GPU else WORKER }

  function GroupRole(gpu: bool): Role { if gpu then GpuWorker else Worker }

  /** A name in a group: the text after the prefix is an index, the one the name was made from. */
  lemma GroupMember(name: string, gpu: bool, node: string)
    ensures var p := GroupPrefix(name, gpu);
            && (IsNode(name, GroupRole(gpu), node) <==> p <= node && CanonicalPositiveIndex(node[|p|..]))
            && (p <= node && CanonicalPositiveIndex(node[|p|..]) ==>
                var i := Atoi(node[|p|..]).value; IsIndex(i) && node == NodeName(name, GroupRole(gpu), i))
  {
    hide Atoi, Itoa, NodeName;
    var p := GroupPrefix(name, gpu);
    if IsNode(name, GroupRole(gpu), node) {
      var i :| IsIndex(i) && node == NodeName(name, GroupRole(gpu), i);
      MemberText(name, gpu, i);
      assert node[|p|..] == Itoa(i);
      CanonicalExactly(Itoa(i));
    }
    if p <= node && CanonicalPositiveIndex(node[|p|..]) {
      var rest := node[|p|..];
      var i := Atoi(rest).value;
      AtoiBounded(rest);
      MemberText(name, gpu, i);
      assert node == p + rest;
    }
  }

  lemma MemberText(name: string, gpu: bool, i: nat)
    ensures NodeName(name, GroupRole(gpu), i) == GroupPrefix(name, gpu) + Itoa(i)
  {
  }

  lemma AtoiBounded(s: string)
    ensures Atoi(s).Some? ==> Atoi(s).value <= MAX_INT
  {
  }

  lemma PrefixesApart(name: string, node: string)
    ensures GroupPrefix(name, false) <= node ==> !(GroupPrefix(name, true) <= node)
    ensures NodeName(name, ControlPlane, 1) == node ==>
              !(GroupPrefix(name, true) <= node) && !(GroupPrefix(name, false) <= node)
  {
    var at := |"kiac-" + name| + 1;
    assert GroupPrefix(name, false)[at] == 'w' && GroupPrefix(name, true)[at] == 'g';
    assert NodeName(name, ControlPlane, 1)[at] == 'c';
  }

  /** A group so far: its entries, and which indexes it has. */
  ghost predicate Group(name: string, gpu: bool, es: seq<Entry>, seen: set<nat>) {
    && AllOf(name, GroupRole(gpu), es) && (forall i, j :: 0 <= i < j < |es| ==> es[i].index != es[j].index)
    && (forall i :: i in seen <==> exists k :: 0 <= k < |es| && es[k].index == i)
  }

  method AddTo(name: string, gpu: bool, node: string, es: seq<Entry>, seen: set<nat>)
    returns (ok: bool, more: seq<Entry>, known: set<nat>)
    requires Group(name, gpu, es, seen) && GroupPrefix(name, gpu) <= node
    ensures ok <==> IsNode(name, GroupRole(gpu), node) && node !in Nodes(es)
    ensures ok ==> Group(name, gpu, more, known) && Nodes(more) == Nodes(es) + [node]
  {
    hide Atoi, Itoa, NodeName, IsNode;
    more, known, ok := es, seen, false;
    GroupMember(name, gpu, node);
    var rest := node[|GroupPrefix(name, gpu)|..];
    if !CanonicalPositiveIndex(rest) {
      return;
    }
    var index: nat := Atoi(rest).value;
    forall k | 0 <= k < |es| ensures es[k].node == node <==> es[k].index == index {
      if es[k].node == node {
        SuffixesDistinct(name, GroupRole(gpu), es[k].index, GroupRole(gpu), index);
      }
    }
    assert index in seen <==> node in Nodes(es) by {
      if index in seen {
        var k :| 0 <= k < |es| && es[k].index == index;
        assert Nodes(es)[k] == node;
      }
    }
    if index in seen {
      return;
    }
    known := seen + {index};
    more := es + [Entry(index, node)];
    assert more[|es|].index == index;
    assert forall k :: 0 <= k < |es| ==> more[k] == es[k];
    ok := true;
  }

  datatype Ordered = Ordered(controlPlane: string, workers: seq<Entry>, gpus: seq<Entry>)

  /** The entries read so far are accounted for. */
  ghost predicate Sorted(name: string, infos: seq<string>, found: bool, workers: seq<Entry>, gpus: seq<Entry>) {
    && (forall k :: 0 <= k < |infos| ==> Named(name, infos[k])) && Unique(infos)
    && multiset(infos) == (if found then multiset{NodeName(name, ControlPlane, 1)} else multiset{})
                          + multiset(Nodes(workers)) + multiset(Nodes(gpus))
    && (found <==> NodeName(name, ControlPlane, 1) in infos)
  }

  lemma SortedSnoc(name: string, infos: seq<string>, node: string, found: bool, workers: seq<Entry>, gpus: seq<Entry>,
                   nowFound: bool, moreWorkers: seq<Entry>, moreGpus: seq<Entry>)
    requires Sorted(name, infos, found, workers, gpus) && Named(name, node) && node !in infos
    requires nowFound == (found || node == NodeName(name, ControlPlane, 1))
    requires || (node == NodeName(name, ControlPlane, 1) && moreWorkers == workers && moreGpus == gpus)
             || (node != NodeName(name, ControlPlane, 1) && Nodes(moreWorkers) == Nodes(workers) + [node]
               && moreGpus == gpus)
             || (node != NodeName(name, ControlPlane, 1) && moreWorkers == workers
               && Nodes(moreGpus) == Nodes(gpus) + [node])
    ensures Sorted(name, infos + [node], nowFound, moreWorkers, moreGpus)
  {
    hide NodeName, Named;
  }

  lemma NothingSorted(name: string)
    ensures Sorted(name, [], false, [], []) && Group(name, false, [], {}) && Group(name, true, [], {})
  {
    assert Nodes([]) == [];
  }

  lemma {:induction false} NodesCount(es: seq<Entry>, node: string)
    ensures multiset(Nodes(es))[node] == Sums.Sum(es, Hits(node))
  {
    if es != [] {
      var init, last := es[..|es| - 1], es[|es| - 1];
      NodesCount(init, node);
      assert Nodes(es) == Nodes(init) + [last.node];
    } else {
      assert Nodes(es) == [];
    }
  }

  function Hits(node: string): Entry -> int { (e: Entry) => if e.node == node then 1 else 0 }

  lemma NodesPermuted(a: seq<Entry>, b: seq<Entry>)
    requires multiset(a) == multiset(b)
    ensures multiset(Nodes(a)) == multiset(Nodes(b))
  {
    forall node ensures multiset(Nodes(a))[node] == multiset(Nodes(b))[node] {
      NodesCount(a, node);
      NodesCount(b, node);
      Sums.SumPermuted(a, b, Hits(node));
    }
  }

  lemma GroupsUnique(name: string, gpu: bool, es: seq<Entry>, seen: set<nat>)
    requires Group(name, gpu, es, seen)
    ensures AllOf(name, GroupRole(gpu), es) && forall i, j :: 0 <= i < j < |es| ==> es[i].index != es[j].index
  {
  }

  lemma AllSorted(name: string, infos: seq<string>, found: bool, workers: seq<Entry>, gpus: seq<Entry>)
    requires Sorted(name, infos, found, workers, gpus)
    ensures Complete(name, infos) <==> found
    ensures found ==>
              multiset(infos)
              == multiset{NodeName(name, ControlPlane, 1)} + multiset(Nodes(workers)) + multiset(Nodes(gpus))
  {
  }

  lemma GroupPrefixed(name: string, gpu: bool, es: seq<Entry>, seen: set<nat>, node: string)
    requires Group(name, gpu, es, seen) && node in Nodes(es)
    ensures GroupPrefix(name, gpu) <= node
  {
    hide Itoa;
    var k :| 0 <= k < |es| && node == es[k].node;
    MemberText(name, gpu, es[k].index);
  }

  lemma SortedMembers(name: string, infos: seq<string>, found: bool, workers: seq<Entry>, gpus: seq<Entry>,
        node: string)
    requires Sorted(name, infos, found, workers, gpus)
    ensures node in infos <==>
              (found && node == NodeName(name, ControlPlane, 1)) || node in Nodes(workers) || node in Nodes(gpus)
  {
    hide NodeName, Named;
    assert node in infos <==> node in multiset(infos);
    assert node in Nodes(workers) <==> node in multiset(Nodes(workers));
    assert node in Nodes(gpus) <==> node in multiset(Nodes(gpus));
  }

  /** Where the next name belongs, and when it spoils the list. */
  lemma Classified(name: string, infos: seq<string>, i: nat, found: bool, workers: seq<Entry>, gpus: seq<Entry>,
        ws: set<nat>, gs: set<nat>)
    requires i < |infos| && Sorted(name, infos[..i], found, workers, gpus) && Group(name, false, workers, ws)
            && Group(name, true, gpus, gs)
    ensures var node := infos[i];
            && (node in infos[..i] || !Named(name, node) ==> !Complete(name, infos))
            && (if node == NodeName(name, ControlPlane, 1) then Named(name, node) && (node in infos[..i] <==> found)
                else if GroupPrefix(name, false) <= node
                then (Named(name, node) <==> IsNode(name, Worker, node))
                     && (node in infos[..i] <==> node in Nodes(workers))
                else if GroupPrefix(name, true) <= node
                then (Named(name, node) <==> IsNode(name, GpuWorker, node))
                     && (node in infos[..i] <==> node in Nodes(gpus))
                else !Named(name, node))
  {
    hide NodeName, IsNode, GroupPrefix, Group, Sorted, CanonicalPositiveIndex;
    var node := infos[i];
    SortedMembers(name, infos[..i], found, workers, gpus, node);
    PrefixesApart(name, node);
    GroupMember(name, false, node);
    GroupMember(name, true, node);
    if node in Nodes(workers) {
      GroupPrefixed(name, false, workers, ws, node);
    }
    if node in Nodes(gpus) {
      GroupPrefixed(name, true, gpus, gs, node);
    }
    if node in infos[..i] {
      var k :| 0 <= k < i && infos[..i][k] == node;
      assert infos[k] == infos[i];
    }
  }

  /** Both groups in order of their indexes: succeeds exactly on a complete cluster, and loses and adds no node. */
  method OrderNodeGroups(name: string, infos: seq<string>) returns (r: Option<Ordered>)
    ensures r.Some? <==> Complete(name, infos)
    ensures r.Some? ==> r.value.controlPlane == NodeName(name, ControlPlane, 1)
    ensures r.Some? ==> Ascending(r.value.workers) && Ascending(r.value.gpus)
    ensures r.Some? ==> AllOf(name, Worker, r.value.workers) && AllOf(name, GpuWorker, r.value.gpus)
    ensures r.Some? ==>
              multiset(infos) == multiset{r.value.controlPlane} + multiset(Nodes(r.value.workers))
                                 + multiset(Nodes(r.value.gpus))
  {
    hide NodeName, Named, GroupPrefix, Group, Sorted, CanonicalPositiveIndex, Complete, IsNode, AllOf;
    var cp := NodeName(name, ControlPlane, 1);
    var found, regular, gpu: seq<Entry>, seenRegular: set<nat>, seenGPU: set<nat> := false, [], [], {}, {};
    NothingSorted(name);
    for i := 0 to |infos|
      invariant Sorted(name, infos[..i], found, regular, gpu)
      invariant Group(name, false, regular, seenRegular) && Group(name, true, gpu, seenGPU)
    {
      var node := infos[i];
      ghost var f, ws, gs := found, regular, gpu;
      assert infos[..i + 1] == infos[..i] + [node];
      PrefixesApart(name, node);
      Classified(name, infos, i, found, regular, gpu, seenRegular, seenGPU);
      if node == cp {
        if found {
          return None;
        }
        found := true;
      } else {
        var isGpu := !(GroupPrefix(name, false) <= node);
        if isGpu && !(GroupPrefix(name, true) <= node) {
          return None;
        }
        var ok: bool;
        if isGpu {
          ok, gpu, seenGPU := AddTo(name, true, node, gpu, seenGPU);
        } else {
          ok, regular, seenRegular := AddTo(name, false, node, regular, seenRegular);
        }
        if !ok {
          return None;
        }
      }
      SortedSnoc(name, infos[..i], node, f, ws, gs, found, regular, gpu);
    }
    assert infos[..|infos|] == infos;
    AllSorted(name, infos, found, regular, gpu);
    if !found {
      return None;
    }
    GroupsUnique(name, false, regular, seenRegular);
    GroupsUnique(name, true, gpu, seenGPU);
    var workers := ToNames(name, Worker, regular);
    var gpus := ToNames(name, GpuWorker, gpu);
    NodesPermuted(workers, regular);
    NodesPermuted(gpus, gpu);
    return Some(Ordered(cp, workers, gpus));
  }
}
