/**
 The object-lifetime rules a Vulkan program has to obey, written as a monitor over the
 sequence of native calls (section 3.3.1 "Object Lifetime" of the Vulkan specification).
 Nothing here mentions the probe: `Replay` accepts a trace or reports a violation, and the
 lemmas say what acceptance means in terms of positions in the trace.
 */
module VulkanLifetime {
  import opened Options

  /** Native object names; 0 is the null handle. */
  type Handle = nat

  datatype Kind = Instance | Device | Buffer | Memory | Pool | Fence

  datatype Why = FenceSignalled | DeviceIdle | DeviceLost

  datatype Event =
    | Create(kind: Kind, parent: Handle, handle: Handle)
    | Destroy(kind: Kind, handle: Handle)
    | Touch(handles: set<Handle>)
    | Bind(buffer: Handle, memory: Handle)
    | Map(memory: Handle)
    | Unmap(memory: Handle)
    | Submit(uses: set<Handle>)
    | Complete(why: Why)

  datatype Object = Object(kind: Kind, parent: Handle)

  datatype World = World(
    live: map<Handle, Object>,
    named: set<Handle>,
    bound: map<Handle, Handle>,
    mapped: set<Handle>,
    pending: set<Handle>)

  const EMPTY := World(map[], {}, map[], {}, {})

  predicate ParentOk(w: World, kind: Kind, parent: Handle) {
    match kind
    case Instance => parent == 0
    case Device => parent in w.live && w.live[parent].kind == Instance
    case _ => parent in w.live && w.live[parent].kind == Device
  }

  /** No live object was created from `h`, and no live buffer is backed by it. */
  predicate Childless(w: World, h: Handle) {
    && (forall c | c in w.live :: w.live[c].parent != h)
    && (forall b | b in w.bound && b in w.live :: w.bound[b] != h)
  }

  predicate Allowed(w: World, e: Event) {
    match e
    case Create(kind, parent, handle) =>
      handle != 0 && handle !in w.named && ParentOk(w, kind, parent)
    case Destroy(kind, handle) =>
      && handle in w.live && w.live[handle].kind == kind
      && Childless(w, handle) && handle !in w.mapped && handle !in w.pending
    case Touch(handles) => handles <= w.live.Keys
    case Bind(buffer, memory) => {buffer, memory} <= w.live.Keys && buffer !in w.bound
    case Map(memory) => memory in w.live && memory !in w.mapped
    case Unmap(memory) => memory in w.live && memory in w.mapped
    case Submit(uses) => uses <= w.live.Keys && w.pending == {}
    case Complete(_) => true
  }

  function After(w: World, e: Event): World {
    match e
    case Create(kind, parent, handle) =>
      w.(live := w.live[handle := Object(kind, parent)], named := w.named + {handle})
    case Destroy(_, handle) => w.(live := w.live - {handle})
    case Touch(_) => w
    case Bind(buffer, memory) => w.(bound := w.bound[buffer := memory])
    case Map(memory) => w.(mapped := w.mapped + {memory})
    case Unmap(memory) => w.(mapped := w.mapped - {memory})
    case Submit(uses) => w.(pending := uses)
    case Complete(_) => w.(pending := {})
  }

  /** The world after a trace, or None when some call breaks a lifetime rule. */
  function Replay(trace: seq<Event>): Option<World> {
    if trace == [] then Some(EMPTY)
    else
      var before := Replay(trace[..|trace| - 1]);
      if before.Some? && Allowed(before.value, trace[|trace| - 1])
      then Some(After(before.value, trace[|trace| - 1]))
      else None
  }

  lemma ReplaySnoc(trace: seq<Event>, e: Event)
    ensures Replay(trace + [e]) ==
            if Replay(trace).Some? && Allowed(Replay(trace).value, e)
            then Some(After(Replay(trace).value, e)) else None
  {
    assert (trace + [e])[..|trace|] == trace;
  }

  /** Every prefix of an accepted trace is accepted, and the call after it was allowed there. */
  lemma {:induction false} ReplayPrefix(trace: seq<Event>, n: nat)
    requires n <= |trace| && Replay(trace).Some?
    ensures Replay(trace[..n]).Some?
    ensures n < |trace| ==> Allowed(Replay(trace[..n]).value, trace[n])
    ensures n < |trace| ==> Replay(trace[..n + 1]) == Some(After(Replay(trace[..n]).value, trace[n]))
  {
    var last := |trace| - 1;
    if n == |trace| {
      assert trace[..n] == trace;
    } else if n == last {
      assert trace[..n + 1] == trace;
    } else {
      ReplayPrefix(trace[..last], n);
      assert trace[..last][..n] == trace[..n];
      assert trace[..last][..n + 1] == trace[..n + 1];
    }
  }

  predicate Creates(e: Event, h: Handle) { e.Create? && e.handle == h }

  predicate Destroys(e: Event, h: Handle) { e.Destroy? && e.handle == h }

  function CountCreates(trace: seq<Event>, h: Handle): nat {
    if trace == [] then 0
    else CountCreates(trace[..|trace| - 1], h) + if Creates(trace[|trace| - 1], h) then 1 else 0
  }

  function CountDestroys(trace: seq<Event>, h: Handle): nat {
    if trace == [] then 0
    else CountDestroys(trace[..|trace| - 1], h) + if Destroys(trace[|trace| - 1], h) then 1 else 0
  }

  /** An object is created at most once and destroyed exactly once unless it is still alive. */
  lemma {:induction false} DestroyedExactlyOnce(trace: seq<Event>, h: Handle)
    requires Replay(trace).Some?
    ensures var w := Replay(trace).value;
            && CountCreates(trace, h) == (if h in w.named then 1 else 0)
            && CountDestroys(trace, h) == CountCreates(trace, h) - (if h in w.live then 1 else 0)
            && (h in w.live ==> h in w.named)
  {
    if trace != [] {
      DestroyedExactlyOnce(trace[..|trace| - 1], h);
    }
  }

  lemma {:induction false} CreatedIsNamed(trace: seq<Event>, i: nat)
    requires Replay(trace).Some? && i < |trace| && trace[i].Create?
    ensures trace[i].handle in Replay(trace).value.named
  {
    if i == |trace| - 1 {
    } else {
      assert trace[..|trace| - 1][i] == trace[i];
      CreatedIsNamed(trace[..|trace| - 1], i);
    }
  }

  /** A live object still has the parent it was created with. */
  lemma {:induction false} CreatedParent(trace: seq<Event>, i: nat)
    requires Replay(trace).Some? && i < |trace| && trace[i].Create?
    ensures var w := Replay(trace).value;
            trace[i].handle in w.live ==> w.live[trace[i].handle].parent == trace[i].parent
  {
    if i < |trace| - 1 {
      var prior := trace[..|trace| - 1];
      assert prior[i] == trace[i];
      CreatedParent(prior, i);
      CreatedIsNamed(prior, i);
    }
  }

  /** Something created and no longer alive was destroyed in between. */
  lemma {:induction false} GoneMeansDestroyed(trace: seq<Event>, i: nat) returns (k: nat)
    requires Replay(trace).Some? && i < |trace| && trace[i].Create?
    requires trace[i].handle !in Replay(trace).value.live
    ensures i < k < |trace| && Destroys(trace[k], trace[i].handle)
  {
    var last := |trace| - 1;
    var prior := trace[..last];
    if Destroys(trace[last], trace[i].handle) {
      k := last;
    } else {
      assert prior[i] == trace[i];
      k := GoneMeansDestroyed(prior, i);
      assert prior[k] == trace[k];
    }
  }

  /** Children go before their parent: instance after device after everything made from it. */
  lemma ChildrenDestroyedFirst(trace: seq<Event>, i: nat, j: nat) returns (k: nat)
    requires Replay(trace).Some? && i < j < |trace|
    requires trace[i].Create? && trace[i].parent != 0
    requires Destroys(trace[j], trace[i].parent)
    ensures i < k < j && Destroys(trace[k], trace[i].handle)
  {
    ReplayPrefix(trace, j);
    assert trace[..j][i] == trace[i];
    CreatedParent(trace[..j], i);
    k := GoneMeansDestroyed(trace[..j], i);
    assert trace[..j][k] == trace[k];
  }

  /** While no completion is observed, submitted work stays pending. */
  lemma {:induction false} PendingUntilComplete(trace: seq<Event>, i: nat)
    requires Replay(trace).Some? && i < |trace| && trace[i].Submit? && trace[i].uses != {}
    requires forall k :: i < k < |trace| ==> !trace[k].Complete?
    ensures Replay(trace).value.pending == trace[i].uses
  {
    var last := |trace| - 1;
    if i < last {
      var prior := trace[..last];
      assert prior[i] == trace[i];
      forall k | i < k < |prior| ensures !prior[k].Complete? {
        assert prior[k] == trace[k];
      }
      PendingUntilComplete(prior, i);
    }
  }

  /** Nothing submitted work may use is destroyed before a completion is observed. */
  lemma NeverReleasedInFlight(trace: seq<Event>, i: nat, j: nat)
    requires Replay(trace).Some? && i < j < |trace|
    requires trace[i].Submit? && trace[j].Destroy? && trace[j].handle in trace[i].uses
    ensures exists k :: i < k < j && trace[k].Complete?
  {
    if forall k :: i < k < j ==> !trace[k].Complete? {
      ReplayPrefix(trace, j);
      forall k | i < k < |trace[..j]| ensures !trace[..j][k].Complete? {
        assert trace[..j][k] == trace[k];
      }
      PendingUntilComplete(trace[..j], i);
      assert false;
    }
  }
}
