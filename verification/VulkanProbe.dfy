/**
 The native Vulkan transfer probe. Every native call may return any result code, may leave its
 output handle unwritten, and may write garbage to it when it fails; the context may be cancelled
 between any two calls. The variables the deferred cleanup reads are fields here.
 */
module VulkanProbe {
  import opened Options
  import opened VulkanLifetime

  const SUCCESS := 0
  const TIMEOUT := 2
  const DEVICE_LOST := -4
  const WORDS: nat := 16
  const SENTINEL: bv32 := 0x6b696163

  datatype Gpu = Gpu(handle: Handle, deviceType: nat, name: string)

  datatype QueueFamily = QueueFamily(flags: bv32, count: nat)

  datatype MemoryType = MemoryType(flags: bv32, heap: nat)

  datatype Requirements = Requirements(size: nat, types: bv32)

  /** What the driver reports about the machine, and the time left until the deadline. */
  datatype Machine = Machine(gpus: seq<Gpu>, families: seq<QueueFamily>, req: Requirements,
                             types: seq<MemoryType>, heaps: seq<nat>, timeout: int)

  datatype Search = Cancelled | NotFound | Found(index: nat)

  predicate Prefixed(s: string, p: string) { |p| <= |s| && s[..|p|] == p }

  predicate Suffixed(s: string, p: string) { |p| <= |s| && s[|s| - |p|..] == p }

  predicate IsVenus(gpu: Gpu) {
    && gpu.handle != 0 && gpu.deviceType != 4
    && Prefixed(gpu.name, "Virtio-GPU Venus (Apple ") && Suffixed(gpu.name, ")")
  }

  predicate UsableFamily(f: QueueFamily) { f.count > 0 && f.flags & 3 != 0 }

  predicate UsableMemory(types: seq<MemoryType>, heaps: seq<nat>, req: Requirements, i: nat)
    requires i < |types| && i < 32
  {
    && req.types & ((1 as bv32) << i) != 0
    && types[i].flags & 6 == 6
    && types[i].heap < |heaps| && heaps[types[i].heap] >= req.size
  }

  method ContextDone() returns (done: bool) {
    done := *;
  }

  /** Scan for the first real Venus device, giving up when the context is cancelled. */
  method FindPhysical(gpus: seq<Gpu>) returns (r: Search)
    ensures r.Found? ==> r.index < |gpus| && IsVenus(gpus[r.index])
    ensures r.Found? ==> forall k :: 0 <= k < r.index ==> !IsVenus(gpus[k])
    ensures r.NotFound? ==> forall k :: 0 <= k < |gpus| ==> !IsVenus(gpus[k])
  {
    for i := 0 to |gpus|
      invariant forall k :: 0 <= k < i ==> !IsVenus(gpus[k])
    {
      var done := ContextDone();
      if done {
        return Cancelled;
      }
      if IsVenus(gpus[i]) {
        return Found(i);
      }
    }
    return NotFound;
  }

  /** The first queue family that can run a buffer fill. */
  method FindFamily(families: seq<QueueFamily>) returns (r: Search)
    ensures !r.Cancelled?
    ensures r.Found? ==> r.index < |families| && UsableFamily(families[r.index])
    ensures r.Found? ==> forall k :: 0 <= k < r.index ==> !UsableFamily(families[k])
    ensures r.NotFound? ==> forall k :: 0 <= k < |families| ==> !UsableFamily(families[k])
  {
    var family := 0;
    while family < |families|
      invariant 0 <= family <= |families|
      invariant forall k :: 0 <= k < family ==> !UsableFamily(families[k])
    {
      if UsableFamily(families[family]) {
        return Found(family);
      }
      family := family + 1;
    }
    return NotFound;
  }

  /** The first memory type that the buffer allows, that is host visible and coherent, and that fits. */
  method FindMemoryType(types: seq<MemoryType>, heaps: seq<nat>, req: Requirements) returns (r: Search)
    requires |types| <= 32
    ensures !r.Cancelled?
    ensures r.Found? ==> r.index < |types| && UsableMemory(types, heaps, req, r.index)
    ensures r.Found? ==> forall k :: 0 <= k < r.index ==> !UsableMemory(types, heaps, req, k)
    ensures r.NotFound? ==> forall k :: 0 <= k < |types| ==> !UsableMemory(types, heaps, req, k)
  {
    var i := 0;
    while i < |types|
      invariant 0 <= i <= |types|
      invariant forall k :: 0 <= k < i ==> !UsableMemory(types, heaps, req, k)
    {
      if UsableMemory(types, heaps, req, i) {
        return Found(i);
      }
      i := i + 1;
    }
    return NotFound;
  }

  // ---- what the variables say about the world ----

  datatype Vars = Vars(instance: Handle, device: Handle, buffer: Handle, memory: Handle, pool: Handle,
                       fence: Handle, mapping: bool, bound: bool, inFlight: bool)

  function Uses(v: Vars): set<Handle> {
    {v.instance, v.device, v.buffer, v.memory, v.pool, v.fence}
  }

  ghost function Put(m: map<Handle, Object>, h: Handle, kind: Kind, parent: Handle): map<Handle, Object> {
    if h == 0 then m else m[h := Object(kind, parent)]
  }

  /** The objects named by the probe's variables. */
  ghost function Named(v: Vars): map<Handle, Object> {
    var roots := Put(Put(map[], v.instance, Instance, 0), v.device, Device, v.instance);
    var data := Put(Put(roots, v.buffer, Buffer, v.device), v.memory, Memory, v.device);
    Put(Put(data, v.pool, Pool, v.device), v.fence, Fence, v.device)
  }

  ghost predicate Apart(a: Handle, b: Handle) { a == 0 || a != b }

  ghost predicate Distinct(v: Vars) {
    && Apart(v.instance, v.device) && Apart(v.instance, v.buffer) && Apart(v.instance, v.memory)
    && Apart(v.instance, v.pool) && Apart(v.instance, v.fence) && Apart(v.device, v.buffer)
    && Apart(v.device, v.memory) && Apart(v.device, v.pool) && Apart(v.device, v.fence)
    && Apart(v.buffer, v.memory) && Apart(v.buffer, v.pool) && Apart(v.buffer, v.fence)
    && Apart(v.memory, v.pool) && Apart(v.memory, v.fence) && Apart(v.pool, v.fence)
  }

  /** The variables describe exactly what is alive, mapped, bound and pending. */
  ghost predicate Describes(v: Vars, w: World) {
    && Distinct(v)
    && (v.instance == 0 ==> v.device == 0)
    && (v.device == 0 ==> v.buffer == v.memory == v.pool == v.fence == 0)
    && w.live == Named(v) && w.live.Keys <= w.named && w.bound.Keys <= w.named
    && (v.mapping ==> v.memory != 0) && w.mapped == (if v.mapping then {v.memory} else {})
    && (!v.bound ==> w.bound == map[])
    && (v.bound ==> forall b | b in w.bound && b in w.live :: b == v.buffer && w.bound[b] == v.memory)
    && (v.inFlight ==> 0 !in Uses(v))
    && w.pending == (if v.inFlight then Uses(v) else {})
  }

  /** A variable set to a newly created object, in the order the probe creates them. */
  function Assign(v: Vars, kind: Kind, h: Handle): Vars {
    match kind
    case Instance => v.(instance := h)
    case Device => v.(device := h)
    case Buffer => v.(buffer := h)
    case Memory => v.(memory := h)
    case Pool => v.(pool := h)
    case Fence => v.(fence := h)
  }

  function Parent(v: Vars, kind: Kind): Handle {
    match kind
    case Instance => 0
    case Device => v.instance
    case _ => v.device
  }

  /** Everything created after `kind` is still null and the parent exists. */
  ghost predicate Next(v: Vars, kind: Kind) {
    && !v.inFlight && v.fence == 0
    && (kind != Fence ==> v.pool == 0)
    && (kind != Fence && kind != Pool ==> v.memory == 0 && !v.bound)
    && (kind != Fence && kind != Pool && kind != Memory ==> v.buffer == 0)
    && (kind == Instance || kind == Device ==> v.device == 0)
    && (if kind == Instance then v.instance == 0 else Parent(v, kind) != 0)
  }

  lemma Created(v: Vars, w: World, kind: Kind, h: Handle)
    requires Describes(v, w) && Next(v, kind) && h != 0 && h !in w.named
    ensures Allowed(w, Create(kind, Parent(v, kind), h))
    ensures Describes(Assign(v, kind, h), After(w, Create(kind, Parent(v, kind), h)))
  {
    var v' := Assign(v, kind, h);
    assert h !in w.live;
    assert Named(v') == Named(v)[h := Object(kind, Parent(v, kind))];
  }

  /** Deferred release order: fence, pool, buffer, memory, device, instance. */
  ghost predicate Releasable(v: Vars, kind: Kind) {
    && !v.inFlight
    && (kind != Fence ==> v.fence == 0)
    && (kind != Fence && kind != Pool ==> v.pool == 0)
    && (kind != Fence && kind != Pool && kind != Buffer ==> v.buffer == 0 && !v.mapping)
    && (kind == Device || kind == Instance ==> v.memory == 0)
    && (kind == Instance ==> v.device == 0)
  }

  function Holder(v: Vars, kind: Kind): Handle {
    match kind
    case Instance => v.instance
    case Device => v.device
    case Buffer => v.buffer
    case Memory => v.memory
    case Pool => v.pool
    case Fence => v.fence
  }

  lemma NamedWithout(v: Vars, kind: Kind)
    requires Distinct(v) && Releasable(v, kind) && Holder(v, kind) != 0
    ensures Named(Assign(v, kind, 0)) == Named(v) - {Holder(v, kind)}
  {
    match kind {
      case Buffer =>
      case Memory =>
      case _ =>
    }
  }

  lemma ReleaseAllowed(v: Vars, w: World, kind: Kind)
    requires Describes(v, w) && Releasable(v, kind) && Holder(v, kind) != 0
    ensures Allowed(w, Destroy(kind, Holder(v, kind)))
  {
  }

  lemma Released(v: Vars, w: World, kind: Kind)
    requires Describes(v, w) && Releasable(v, kind) && Holder(v, kind) != 0
    ensures Describes(Assign(v, kind, 0), After(w, Destroy(kind, Holder(v, kind))))
  {
    NamedWithout(v, kind);
    hide Named;
  }

  lemma WorkSubmitted(v: Vars, w: World)
    requires Describes(v, w) && !v.inFlight && 0 !in Uses(v)
    ensures Allowed(w, Submit(Uses(v))) && Allowed(w, Touch(Uses(v))) && After(w, Touch(Uses(v))) == w
    ensures Describes(v.(inFlight := true), After(w, Submit(Uses(v))))
  {
  }

  /** Calls that change no object, and the three ways pending work ends. */
  lemma Observed(v: Vars, w: World, e: Event)
    requires Describes(v, w)
    requires (e.Touch? && e.handles <= Uses(v) - {0}) || e.Complete?
    ensures Allowed(w, e) && Describes(v.(inFlight := v.inFlight && !e.Complete?), After(w, e))
  {
  }

  lemma MemoryMapped(v: Vars, w: World)
    requires Describes(v, w) && !v.inFlight && !v.mapping && v.memory != 0
    ensures Allowed(w, Map(v.memory)) && Allowed(w, Touch({v.memory})) && After(w, Touch({v.memory})) == w
    ensures Describes(v.(mapping := true), After(w, Map(v.memory)))
  {
  }

  /** Null variables mean an empty world; work in flight holds on to every live object. */
  lemma Outcome(v: Vars, w: World)
    requires Describes(v, w)
    ensures v.instance == 0 ==> w.live == map[] && w.mapped == {} && w.pending == {}
    ensures v.inFlight ==> w.pending == w.live.Keys != {}
  {
  }

  // ---- traces ----

  ghost predicate NothingDestroyed(trace: seq<Event>) {
    forall k :: 0 <= k < |trace| ==> !trace[k].Destroy?
  }

  ghost predicate Submitted(trace: seq<Event>) {
    exists i :: 0 <= i < |trace| && trace[i].Submit?
  }

  /** Work was submitted and its fence was later seen signalled. */
  ghost predicate FenceSeen(trace: seq<Event>) {
    exists k :: 0 <= k < |trace| && trace[k] == Complete(FenceSignalled) && Submitted(trace[..k])
  }

  /** What one more call does to the three summaries above. */
  lemma TraceGrows(trace: seq<Event>, e: Event)
    ensures NothingDestroyed(trace) && !e.Destroy? ==> NothingDestroyed(trace + [e])
    ensures Submitted(trace) || e.Submit? ==> Submitted(trace + [e])
    ensures FenceSeen(trace) ==> FenceSeen(trace + [e])
    ensures Submitted(trace) && e == Complete(FenceSignalled) ==> FenceSeen(trace + [e])
  {
    var now := trace + [e];
    assert now[|trace|] == e && now[..|trace|] == trace;
    if Submitted(trace) {
      var i :| 0 <= i < |trace| && trace[i].Submit?;
      assert now[i].Submit?;
    }
    if FenceSeen(trace) {
      var k :| 0 <= k < |trace| && trace[k] == Complete(FenceSignalled) && Submitted(trace[..k]);
      assert now[..k] == trace[..k] && now[k] == trace[k];
    }
  }

  ghost predicate HostCleared(host: seq<bv32>) {
    |host| == WORDS && forall i :: 0 <= i < WORDS ==> host[i] == 0
  }

  /** Every word was zeroed by the host and holds the sentinel now, so the device wrote all of them. */
  ghost predicate DeviceWroteAll(host: seq<bv32>, words: seq<bv32>) {
    && |words| == |host| == WORDS
    && forall i :: 0 <= i < WORDS ==> host[i] != SENTINEL == words[i]
  }

  class Probe {
    ghost var trace: seq<Event>
    ghost var world: World
    var supply: Handle
    var library: bool
    var instance: Handle
    var device: Handle
    var buffer: Handle
    var memory: Handle
    var pool: Handle
    var fence: Handle
    var mapping: bool
    var submitted: bool
    var completed: bool
    var unsafeInFlight: bool
    ghost var bound: bool
    ghost var released: bool
    ghost var signalled: bool
    ghost var sent: bool
    var words: seq<bv32>
    ghost var hostWords: seq<bv32>

    constructor ()
      ensures Inv() && Next(V(), Instance) && !mapping && !submitted && !completed
      ensures !unsafeInFlight && !library && !released
    {
      trace, world, supply, library := [], EMPTY, 1, false;
      instance, device, buffer, memory, pool, fence := 0, 0, 0, 0, 0, 0;
      mapping, submitted, completed, unsafeInFlight := false, false, false, false;
      bound, released, signalled, sent := false, false, false, false;
      words, hostWords := [], [];
    }

    ghost function V(): Vars
      reads this
    {
      Vars(instance, device, buffer, memory, pool, fence, mapping, bound, submitted && !completed)
    }

    /** The trace is accepted, ends in `world`, and the ghost flags summarise it. */
    ghost predicate Recorded()
      reads `trace, `world, `supply, `released, `sent, `signalled
    {
      && Replay(trace) == Some(world)
      && supply > 0 && (forall h | h in world.named :: h < supply)
      && (!released ==> NothingDestroyed(trace))
      && (sent ==> Submitted(trace))
      && (signalled ==> FenceSeen(trace))
    }

    ghost predicate Inv()
      reads this
    {
      Recorded() && Describes(V(), world) && (submitted ==> sent)
    }

    // ---- native calls: any result, any output ----

    /** A native call that obeys the lifetime rules is recorded. */
    ghost method Happened(e: Event)
      requires Recorded() && Allowed(world, e)
      requires e.Create? ==> e.handle < supply
      modifies `trace, `world, `signalled, `sent, `released
      ensures Recorded() && trace == old(trace) + [e] && world == After(old(world), e)
      ensures released == (old(released) || e.Destroy?)
      ensures signalled == (old(signalled) || (old(sent) && e == Complete(FenceSignalled)))
      ensures sent == (old(sent) || e.Submit?)
    {
      ReplaySnoc(trace, e);
      TraceGrows(trace, e);
      released := released || e.Destroy?;
      signalled := signalled || (sent && e == Complete(FenceSignalled));
      sent := sent || e.Submit?;
      trace, world := trace + [e], After(world, e);
    }

    /** A creating call. Success hands out a fresh handle or leaves `out` as it was; failure may scribble on it. */
    method NativeCreate(kind: Kind, prior: Handle) returns (result: int, out: Handle)
      requires Inv() && Next(V(), kind) && prior == 0
      modifies `trace, `world, `supply, `signalled, `sent, `released
      ensures Recorded() && released == old(released) && sent == old(sent)
      ensures if result == SUCCESS && out != 0 then Describes(Assign(V(), kind, out), world) else Describes(V(), world)
    {
      hide Describes, Allowed, After, Replay, FenceSeen, Submitted, NothingDestroyed;
      result, out := *, *;
      ghost var parent := Parent(V(), kind);
      ghost var e := Touch({parent} - {0});
      Observed(V(), world, e);
      if result == SUCCESS {
        var wrote: bool := *;
        out := if wrote then supply else prior;
        if wrote {
          e := Create(kind, parent, out);
          Created(V(), world, kind, out);
          supply := supply + 1;
        }
      }
      Happened(e);
    }

    /** Any call on live objects that only reports a result code. */
    method Use(handles: set<Handle>) returns (result: int)
      requires Inv() && handles <= Uses(V()) - {0}
      modifies `trace, `world, `signalled, `sent, `released
      ensures Inv() && released == old(released) && signalled == old(signalled)
    {
      hide Recorded, Describes, Allowed, After, Replay;
      result := *;
      Observed(V(), world, Touch(handles));
      Happened(Touch(handles));
    }

    /** A wait: success or a lost device ends the pending work, anything else proves nothing. */
    method NativeWait(why: Why) returns (result: int)
      requires Inv() && V().inFlight && device != 0
      modifies `trace, `world, `words, `signalled, `sent, `released
      ensures Recorded() && |words| == |old(words)| && released == old(released) && sent
      ensures result == SUCCESS && why == FenceSignalled ==> signalled
      ensures Describes(V().(inFlight := result != SUCCESS && result != DEVICE_LOST), world)
    {
      hide Recorded, Describes, Allowed, After, Replay;
      result := *;
      var transferred: seq<bv32> := *;
      if |transferred| == |words| {
        words := transferred;
      }
      ghost var e := if result == SUCCESS then Complete(why)
                     else if result == DEVICE_LOST then Complete(DeviceLost) else Touch({device});
      Observed(V(), world, e);
      Happened(e);
    }

    // ---- the body between device creation and its deferred cleanup ----

    method MakeInstance() returns (ok: bool)
      requires Inv() && Next(V(), Instance)
      modifies `trace, `world, `supply, `signalled, `sent, `released, `instance
      ensures Inv() && released == old(released) && ok == (instance != 0)
    {
      hide Recorded, Describes;
      var result, made := NativeCreate(Instance, 0);
      if result != SUCCESS || made == 0 {
        return false;
      }
      instance := made;
      return true;
    }

    method MakeDevice() returns (ok: bool)
      requires Inv() && Next(V(), Device)
      modifies `trace, `world, `supply, `signalled, `sent, `released, `device
      ensures Inv() && released == old(released) && ok == (device != 0)
    {
      hide Recorded, Describes;
      var result, made := NativeCreate(Device, 0);
      if result != SUCCESS || made == 0 {
        return false;
      }
      device := made;
      return true;
    }

    method MakeBuffer() returns (ok: bool)
      requires Inv() && Next(V(), Buffer)
      modifies `trace, `world, `supply, `signalled, `sent, `released, `buffer
      ensures Inv() && released == old(released) && (ok ==> buffer != 0)
    {
      hide Recorded, Describes;
      var created := 0;
      var result;
      result, created := NativeCreate(Buffer, created);
      if result != SUCCESS {
        return false;
      }
      buffer := created;
      return buffer != 0;
    }

    method AllocateMemory() returns (ok: bool)
      requires Inv() && Next(V(), Memory)
      modifies `trace, `world, `supply, `signalled, `sent, `released, `memory
      ensures Inv() && released == old(released) && (ok ==> memory != 0)
    {
      hide Recorded, Describes;
      var created := 0;
      var result;
      result, created := NativeCreate(Memory, created);
      if result != SUCCESS {
        return false;
      }
      memory := created;
      return memory != 0;
    }

    method MakePool() returns (ok: bool)
      requires Inv() && Next(V(), Pool)
      modifies `trace, `world, `supply, `signalled, `sent, `released, `pool
      ensures Inv() && released == old(released) && (ok ==> pool != 0)
    {
      hide Recorded, Describes;
      var created := 0;
      var result;
      result, created := NativeCreate(Pool, created);
      if result != SUCCESS {
        return false;
      }
      pool := created;
      return pool != 0;
    }

    method MakeFence() returns (ok: bool)
      requires Inv() && Next(V(), Fence)
      modifies `trace, `world, `supply, `signalled, `sent, `released, `fence
      ensures Inv() && released == old(released) && (ok ==> fence != 0)
    {
      hide Recorded, Describes;
      var created := 0;
      var result;
      result, created := NativeCreate(Fence, created);
      if result != SUCCESS {
        return false;
      }
      fence := created;
      return fence != 0;
    }

    method BindMemory() returns (ok: bool)
      requires Inv() && buffer != 0 && memory != 0 && !bound && !submitted
      modifies `trace, `world, `signalled, `sent, `released, `bound
      ensures Inv() && released == old(released)
    {
      var result: int := *;
      Happened(if result == SUCCESS then Bind(buffer, memory) else Touch({buffer, memory}));
      if result != SUCCESS {
        return false;
      }
      bound := true;
      return true;
    }

    /** A successful map sets `mapping` even when the returned pointer is null, so cleanup unmaps it. */
    method MapAndClear() returns (ok: bool)
      requires Inv() && memory != 0 && !mapping && !submitted
      modifies `trace, `world, `signalled, `sent, `released, `mapping, `words, `hostWords
      ensures Inv() && released == old(released)
      ensures ok ==> HostCleared(hostWords) && words == hostWords
    {
      hide Recorded, Describes, Allowed, After, Replay;
      var result: int := *;
      var pointer: nat := *;
      MemoryMapped(V(), world);
      Happened(if result == SUCCESS then Map(memory) else Touch({memory}));
      if result != SUCCESS {
        return false;
      }
      mapping := true;
      if pointer == 0 {
        return false;
      }
      words := seq(WORDS, _ => 0 as bv32);
      hostWords := words;
      return true;
    }

    method SubmitWork() returns (ok: bool)
      requires Inv() && 0 !in Uses(V()) && !submitted && !completed
      modifies `trace, `world, `signalled, `sent, `released, `submitted
      ensures Inv() && released == old(released) && ok == submitted
    {
      hide Recorded, Describes, Allowed, After, Replay;
      var result: int := *;
      WorkSubmitted(V(), world);
      Happened(if result == SUCCESS then Submit(Uses(V())) else Touch(Uses(V())));
      if result != SUCCESS {
        return false;
      }
      submitted := true;
      return true;
    }

    method AwaitFence() returns (ok: bool)
      requires Inv() && submitted && !completed && device != 0
      modifies `trace, `world, `signalled, `sent, `released, `words, `completed
      ensures Inv() && released == old(released) && |words| == |old(words)|
      ensures ok ==> completed && signalled
    {
      hide Recorded, Describes;
      var result := NativeWait(FenceSignalled);
      completed := result == SUCCESS || result == DEVICE_LOST;
      if result == TIMEOUT {
        return false;
      }
      return result == SUCCESS;
    }

    /** Compare every word of the mapping with the sentinel. */
    method ReadBack() returns (ok: bool)
      ensures ok <==> forall i :: 0 <= i < |words| ==> words[i] == SENTINEL
    {
      for i := 0 to |words|
        invariant forall k :: 0 <= k < i ==> words[k] == SENTINEL
      {
        if words[i] != SENTINEL {
          return false;
        }
      }
      return true;
    }

    /** The queue, the buffer and a memory type that suits it. */
    method PrepareBuffer(machine: Machine) returns (ok: bool)
      requires Inv() && Next(V(), Buffer)
      modifies `trace, `world, `supply, `signalled, `sent, `released, `buffer
      ensures Inv() && released == old(released) && (ok ==> buffer != 0)
    {
      hide Inv;
      var queue: Handle := *;
      var _ := Use({device});
      var done := ContextDone();
      if queue == 0 || done {
        return false;
      }
      ok := MakeBuffer();
      done := ContextDone();
      if !ok || done {
        return false;
      }
      var _ := Use({device, buffer});
      if machine.req.size < 64 || machine.req.size > 0x100000 || machine.req.types == 0 {
        return false;
      }
      done := ContextDone();
      if done || |machine.types| > 32 || |machine.heaps| > 16 {
        return false;
      }
      var memoryType := FindMemoryType(machine.types, machine.heaps, machine.req);
      return memoryType.Found?;
    }

    /** Memory for the buffer, bound, mapped and cleared. */
    method PrepareMemory() returns (ok: bool)
      requires Inv() && Next(V(), Memory) && buffer != 0 && !mapping && !submitted
      modifies `trace, `world, `supply, `signalled, `sent, `released, `memory, `bound, `mapping, `words, `hostWords
      ensures Inv() && released == old(released)
      ensures ok ==> memory != 0 && HostCleared(hostWords) && words == hostWords
    {
      hide Inv;
      var done := ContextDone();
      if done {
        return false;
      }
      ok := AllocateMemory();
      done := ContextDone();
      if !ok || done {
        return false;
      }
      ok := BindMemory();
      done := ContextDone();
      if !ok || done {
        return false;
      }
      ok := MapAndClear();
    }

    /** Allocate a command buffer and record the fill and its barrier in it. */
    method RecordCommands() returns (ok: bool)
      requires Inv() && 0 !in {device, buffer, pool}
      modifies `trace, `world, `signalled, `sent, `released
      ensures Inv() && released == old(released)
    {
      hide Inv;
      var command: Handle := *;
      var result := Use({device, pool});
      var done := ContextDone();
      if result != SUCCESS || command == 0 || done {
        return false;
      }
      result := Use({pool});
      if result != SUCCESS {
        return false;
      }
      var _ := Use({pool, buffer});
      var _ := Use({pool});
      result := Use({pool});
      return result == SUCCESS;
    }

    /** Command pool, command recording and fence. */
    method Record() returns (ok: bool)
      requires Inv() && Next(V(), Pool) && 0 !in {instance, device, buffer, memory} && !submitted
      modifies `trace, `world, `supply, `signalled, `sent, `released, `pool, `fence
      ensures Inv() && released == old(released) && (ok ==> 0 !in Uses(V()))
    {
      hide Inv;
      var done := ContextDone();
      if done {
        return false;
      }
      ok := MakePool();
      done := ContextDone();
      if !ok || done {
        return false;
      }
      ok := RecordCommands();
      done := ContextDone();
      if !ok || done {
        return false;
      }
      ok := MakeFence();
    }

    /** Everything between device creation and its deferred cleanup. */
    method Transfer(machine: Machine) returns (ok: bool)
      requires Inv() && Next(V(), Buffer) && instance != 0 && !mapping && !submitted && !completed
      modifies `trace, `world, `supply, `signalled, `sent, `released, `buffer, `memory, `pool, `fence, `bound, `mapping,
               `submitted, `completed, `words, `hostWords
      ensures Inv() && released == old(released)
      ensures ok ==> completed && signalled && DeviceWroteAll(hostWords, words)
    {
      hide Inv;
      var done := ContextDone();
      if done {
        return false;
      }
      ok := PrepareBuffer(machine);
      if !ok {
        return false;
      }
      ok := PrepareMemory();
      if !ok {
        return false;
      }
      ok := Record();
      done := ContextDone();
      if !ok || done {
        return false;
      }
      ok := SubmitWork();
      done := ContextDone();
      if !ok || done || machine.timeout <= 0 {
        return false;
      }
      ok := AwaitFence();
      done := ContextDone();
      if !ok || done {
        return false;
      }
      ok := ReadBack();
    }

    // ---- deferred releases, skipped for a null handle; the variable is dead afterwards, so it is cleared ----

    method DestroyFence()
      requires Inv() && Releasable(V(), Fence)
      modifies `trace, `world, `signalled, `sent, `released, `fence
      ensures Inv() && fence == 0 && signalled == old(signalled)
    {
      hide Recorded, Describes, Allowed, After, Replay;
      if fence != 0 {
        ReleaseAllowed(V(), world, Fence);
        Released(V(), world, Fence);
        Happened(Destroy(Fence, fence));
        fence := 0;
      }
    }

    method DestroyPool()
      requires Inv() && Releasable(V(), Pool)
      modifies `trace, `world, `signalled, `sent, `released, `pool
      ensures Inv() && pool == 0 && signalled == old(signalled)
    {
      hide Recorded, Describes, Allowed, After, Replay;
      if pool != 0 {
        ReleaseAllowed(V(), world, Pool);
        Released(V(), world, Pool);
        Happened(Destroy(Pool, pool));
        pool := 0;
      }
    }

    method DestroyBuffer()
      requires Inv() && Releasable(V(), Buffer)
      modifies `trace, `world, `signalled, `sent, `released, `buffer
      ensures Inv() && buffer == 0 && signalled == old(signalled)
    {
      hide Recorded, Describes, Allowed, After, Replay;
      if buffer != 0 {
        ReleaseAllowed(V(), world, Buffer);
        Released(V(), world, Buffer);
        Happened(Destroy(Buffer, buffer));
        buffer := 0;
      }
    }

    method DestroyMemory()
      requires Inv() && Releasable(V(), Memory)
      modifies `trace, `world, `signalled, `sent, `released, `memory
      ensures Inv() && memory == 0 && signalled == old(signalled)
    {
      hide Recorded, Describes, Allowed, After, Replay;
      if memory != 0 {
        ReleaseAllowed(V(), world, Memory);
        Released(V(), world, Memory);
        Happened(Destroy(Memory, memory));
        memory := 0;
      }
    }

    method DestroyDevice()
      requires Inv() && Releasable(V(), Device)
      modifies `trace, `world, `signalled, `sent, `released, `device
      ensures Inv() && device == 0 && signalled == old(signalled)
    {
      hide Recorded, Describes, Allowed, After, Replay;
      if device != 0 {
        ReleaseAllowed(V(), world, Device);
        Released(V(), world, Device);
        Happened(Destroy(Device, device));
        device := 0;
      }
    }

    method DestroyInstance()
      requires Inv() && Releasable(V(), Instance)
      modifies `trace, `world, `signalled, `sent, `released, `instance
      ensures Inv() && instance == 0 && signalled == old(signalled)
    {
      hide Recorded, Describes, Allowed, After, Replay;
      if instance != 0 {
        ReleaseAllowed(V(), world, Instance);
        Released(V(), world, Instance);
        Happened(Destroy(Instance, instance));
        instance := 0;
      }
    }

    method UnmapIfMapped()
      requires Inv() && !V().inFlight
      modifies `trace, `world, `signalled, `sent, `released, `mapping
      ensures Inv() && !mapping && signalled == old(signalled)
    {
      if mapping {
        Happened(Unmap(memory));
        mapping := false;
      }
    }

    /** VK_TIMEOUT does not end pending work: wait for it, or remember that it may still run. */
    method WaitIdle()
      requires Inv() && !unsafeInFlight && device != 0
      modifies `trace, `world, `signalled, `sent, `released, `words, `completed, `unsafeInFlight
      ensures Inv() && released == old(released) && unsafeInFlight == V().inFlight
      ensures !old(V()).inFlight ==> words == old(words) && signalled == old(signalled) && !unsafeInFlight
    {
      hide Describes;
      if submitted && !completed {
        var result := NativeWait(DeviceIdle);
        if result != SUCCESS && result != DEVICE_LOST {
          unsafeInFlight := true;
          return;
        }
        completed := true;
      }
    }

    /** Release the device's objects, youngest first, and then the device. */
    method ReleaseAll()
      requires Inv() && Releasable(V(), Fence)
      modifies `trace, `world, `signalled, `sent, `released, `fence, `pool, `buffer, `memory, `mapping, `device
      ensures Inv() && Releasable(V(), Instance) && !mapping && signalled == old(signalled)
    {
      hide Inv;
      DestroyFence();
      DestroyPool();
      DestroyBuffer();
      UnmapIfMapped();
      DestroyMemory();
      DestroyDevice();
    }

    /** The device's deferred cleanup: wait for pending work, or give up releasing anything. */
    method Cleanup()
      requires Inv() && device != 0 && !unsafeInFlight
      modifies `trace, `world, `signalled, `sent, `released, `words, `completed, `unsafeInFlight, `fence, `pool,
               `buffer, `memory, `mapping, `device
      ensures Inv()
      ensures !old(V()).inFlight ==> words == old(words) && !unsafeInFlight && signalled == old(signalled)
      ensures !unsafeInFlight ==> Releasable(V(), Instance) && !mapping
      ensures unsafeInFlight ==> released == old(released) && V().inFlight
    {
      hide Inv;
      WaitIdle();
      if !unsafeInFlight {
        ReleaseAll();
      }
    }

    /** Enumerate devices and queue families, pick the first usable pair and create the logical device. */
    method SelectDevice(machine: Machine) returns (ok: bool)
      requires Inv() && Next(V(), Device)
      modifies `trace, `world, `supply, `signalled, `sent, `released, `device
      ensures Inv() && released == old(released) && ok == (device != 0)
    {
      hide Inv;
      var result := Use({instance});
      if result != SUCCESS || |machine.gpus| == 0 || |machine.gpus| > 32 {
        return false;
      }
      result := Use({instance});
      if result != SUCCESS {
        return false;
      }
      var physical := FindPhysical(machine.gpus);
      if !physical.Found? {
        return false;
      }
      var _ := Use({instance});
      if |machine.families| == 0 || |machine.families| > 128 {
        return false;
      }
      var family := FindFamily(machine.families);
      var done := ContextDone();
      if !family.Found? || done {
        return false;
      }
      ok := MakeDevice();
    }

    /** The device, the transfer, and the device's cleanup. */
    method WithInstance(machine: Machine) returns (ok: bool)
      requires Inv() && Next(V(), Device) && !released && !mapping && !submitted && !completed && !unsafeInFlight
      modifies `trace, `world, `supply, `signalled, `sent, `released, `device, `buffer, `memory, `pool, `fence, `bound,
               `mapping, `submitted, `completed, `words, `hostWords, `unsafeInFlight
      ensures Inv()
      ensures !unsafeInFlight ==> Releasable(V(), Instance) && !mapping
      ensures unsafeInFlight ==> !released && V().inFlight
      ensures ok ==> signalled && !unsafeInFlight && DeviceWroteAll(hostWords, words)
    {
      hide Inv, DeviceWroteAll;
      ok := SelectDevice(machine);
      if !ok {
        return false;
      }
      ok := Transfer(machine);
      Cleanup();
    }

    /** What the flags left behind by the deferred cleanups mean for the trace. */
    lemma Concluded()
      requires Inv()
      ensures Replay(trace) == Some(world)
      ensures instance == 0 ==> world.live == map[] && world.mapped == {} && world.pending == {}
      ensures !released && V().inFlight ==> NothingDestroyed(trace) && world.pending == world.live.Keys != {}
      ensures signalled ==> FenceSeen(trace)
    {
      Outcome(V(), world);
    }

    /** Instance creation around everything else, with the instance's deferred cleanup. */
    method ProbeVulkan(machine: Machine) returns (ok: bool)
      requires Inv() && Next(V(), Instance) && !released && !mapping && !submitted && !completed && !unsafeInFlight
      modifies this
      ensures Replay(trace) == Some(world) && library == old(library)
      ensures !unsafeInFlight ==> world.live == map[] && world.mapped == {} && world.pending == {}
      ensures unsafeInFlight ==> NothingDestroyed(trace) && world.pending == world.live.Keys != {}
      ensures ok ==> FenceSeen(trace) && !unsafeInFlight && DeviceWroteAll(hostWords, words)
    {
      hide Inv, DeviceWroteAll, NothingDestroyed, FenceSeen;
      ok := false;
      var done := ContextDone();
      if !done {
        var made := MakeInstance();
        if made {
          ok := WithInstance(machine);
          if !unsafeInFlight {
            DestroyInstance();
          }
        }
      }
      Concluded();
    }

    /** The loader library is closed on every exit except with work still in flight. */
    method Run(loads: bool, symbols: bool, machine: Machine) returns (ok: bool)
      requires Inv() && Next(V(), Instance) && !released && !mapping && !submitted && !completed && !unsafeInFlight
      requires !library
      modifies this
      ensures Replay(trace) == Some(world) && library == unsafeInFlight
      ensures !unsafeInFlight ==> world.live == map[] && world.mapped == {} && world.pending == {}
      ensures unsafeInFlight ==> NothingDestroyed(trace) && world.pending == world.live.Keys != {}
      ensures ok ==> FenceSeen(trace) && !unsafeInFlight && DeviceWroteAll(hostWords, words)
    {
      Concluded();
      hide Inv, DeviceWroteAll, NothingDestroyed, FenceSeen;
      var done := ContextDone();
      if done || !loads {
        return false;
      }
      library := true;
      ok := false;
      if symbols {
        ok := ProbeVulkan(machine);
      }
      if !unsafeInFlight {
        library := false;
      }
    }
  }
}
