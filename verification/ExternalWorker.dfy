/**
 External workers: the inventory record, the VM with its processes, and its agent, changed one step at a
 time by join, start, stop and delete. A crash stops an operation between two steps, so a trace of steps
 is a run with crashes anywhere. What the VM runtime's file and process lookups and the guest answer are
 outcomes given as inputs; the runtime's own steps, and what it reports, follow from them.
 */
module ExternalWorker {
  import GuestAddress
  import opened Options

  datatype Phase = Creating | Joining | Ready

  function Rank(p: Phase): nat { match p case Creating => 0 case Joining => 1 case Ready => 2 }

  datatype Record = Record(owner: string, vm: string, phase: Phase, uid: string)

  /**
   A VM as the runtime knows it: whether its directory and record are there and which process that record
   names, and the processes that really run.
   */
  datatype VM = VM(stored: bool, procs: set<nat>, pid: Option<nat>, agentStarted: bool)

  /** A VM is gone once nothing of it is kept and nothing of it runs. */
  predicate There(vm: VM) { vm.stored || vm.procs != {} }

  const NEW_VM := VM(true, {}, None, false)

  /** Records by worker name, VMs by VM name, every owner identity handed out, and how many processes there were. */
  datatype World = World(records: map<string, Record>, vms: map<string, VM>, issued: set<string>, born: nat)

  const EMPTY := World(map[], map[], {}, 0)

  datatype Event =
    | NewRecord(name: string, owner: string)
    | CreateVM(name: string)
    | Spawn(name: string)
    | Track(name: string, proc: nat)
    | Ended(name: string, proc: nat, automatic: bool)
    | WriteOff(name: string)
    | Clear(name: string, automatic: bool)
    | MarkJoining(name: string)
    | StartAgent(name: string)
    | MarkReady(name: string, uid: string)
    | Unlink(name: string)

  function VMName(name: string, owner: string): string
    requires |owner| == 32
  {
    "kiacx-worker-" + name + "-" + owner[..12]
  }

  /** A VM name tells which worker it belongs to. */
  lemma VMNameTellsWorker(a: string, x: string, b: string, y: string)
    requires |x| == 32 && |y| == 32 && VMName(a, x) == VMName(b, y)
    ensures a == b && x[..12] == y[..12]
  {
    var v, w := VMName(a, x), VMName(b, y);
    assert v[13..|v| - 13] == a && w[13..|w| - 13] == b;
    assert v[|v| - 12..] == x[..12] && w[|w| - 12..] == y[..12];
  }

  function Update(w: World, name: string, r: Record): World { w.(records := w.records[name := r]) }

  function SetVM(w: World, name: string, vm: VM): World
    requires name in w.records
  {
    w.(vms := if There(vm) then w.vms[w.records[name].vm := vm] else w.vms - {w.records[name].vm})
  }

  predicate HasVM(w: World, name: string) { name in w.records && w.records[name].vm in w.vms }

  function VMFor(w: World, name: string): VM
    requires HasVM(w, name)
  {
    w.vms[w.records[name].vm]
  }

  predicate Stored(w: World, name: string) { HasVM(w, name) && VMFor(w, name).stored }

  /** Which steps the operations may take in which worlds. */
  predicate Allowed(w: World, e: Event) {
    match e
    case NewRecord(name, owner) => name !in w.records && owner !in w.issued && |owner| == 32
    case CreateVM(name) => name in w.records && w.records[name].phase == Creating && !HasVM(w, name)
    case Spawn(name) => Stored(w, name)
    case Track(name, p) => Stored(w, name) && p in VMFor(w, name).procs
    case Ended(name, p, automatic) =>
      HasVM(w, name) && p in VMFor(w, name).procs && (automatic ==> w.records[name].phase == Creating)
    case WriteOff(name) => Stored(w, name)
    case Clear(name, automatic) => Stored(w, name) && (automatic ==> w.records[name].phase == Creating)
    case MarkJoining(name) => name in w.records && w.records[name].phase == Creating
    case StartAgent(name) => HasVM(w, name) && w.records[name].phase == Joining
    case MarkReady(name, uid) =>
      && name in w.records && w.records[name].phase != Creating && uid != ""
      && (w.records[name].uid == "" || w.records[name].uid == uid)
    case Unlink(name) => name in w.records && !HasVM(w, name)
  }

  function Spawned(vm: VM, p: nat): VM { vm.(procs := vm.procs + {p}) }

  function Without(vm: VM, p: nat): VM { vm.(procs := vm.procs - {p}) }

  function Cleared(vm: VM): VM { vm.(stored := false, pid := None) }

  function After(w: World, e: Event): World {
    match e
    case NewRecord(name, owner) =>
      if |owner| != 32 then w
      else Update(w, name, Record(owner, VMName(name, owner), Creating, "")).(issued := w.issued + {owner})
    case CreateVM(name) => if name in w.records then SetVM(w, name, NEW_VM) else w
    case Spawn(name) =>
      if HasVM(w, name) then SetVM(w, name, Spawned(VMFor(w, name), w.born)).(born := w.born + 1) else w
    case Track(name, p) => if HasVM(w, name) then SetVM(w, name, VMFor(w, name).(pid := Some(p))) else w
    case Ended(name, p, _) => if HasVM(w, name) then SetVM(w, name, Without(VMFor(w, name), p)) else w
    case WriteOff(name) => if HasVM(w, name) then SetVM(w, name, VMFor(w, name).(pid := None)) else w
    case Clear(name, _) => if HasVM(w, name) then SetVM(w, name, Cleared(VMFor(w, name))) else w
    case MarkJoining(name) => if name in w.records then Update(w, name, w.records[name].(phase := Joining)) else w
    case StartAgent(name) =>
      if HasVM(w, name) then SetVM(w, name, VMFor(w, name).(agentStarted := true)) else w
    case MarkReady(name, uid) =>
      if name in w.records then Update(w, name, w.records[name].(phase := Ready, uid := uid)) else w
    case Unlink(name) => w.(records := w.records - {name})
  }

  function Run(trace: seq<Event>): World {
    if trace == [] then EMPTY else After(Run(trace[..|trace| - 1]), trace[|trace| - 1])
  }

  predicate Lawful(trace: seq<Event>) {
    trace == [] || (Lawful(trace[..|trace| - 1]) && Allowed(Run(trace[..|trace| - 1]), trace[|trace| - 1]))
  }

  // ---- invariants ----

  ghost predicate Recorded(w: World, vm: string) { exists name :: name in w.records && w.records[name].vm == vm }

  predicate WellFormed(w: World, name: string)
    requires name in w.records
  {
    var r := w.records[name];
    && |r.owner| == 32 && r.vm == VMName(name, r.owner) && r.owner in w.issued && (r.phase == Ready <==> r.uid != "")
    && (r.vm in w.vms && w.vms[r.vm].agentStarted ==> r.phase != Creating)
  }

  /** Processes are numbered as they are spawned. */
  predicate Older(vm: VM, p: nat) { (forall q :: q in vm.procs ==> q < p) && (vm.pid.Some? ==> vm.pid.value < p) }

  /** Every VM has its inventory record, and an agent runs only where the record says so. */
  ghost predicate Inv(w: World) {
    && (forall vm :: vm in w.vms ==> Recorded(w, vm) && There(w.vms[vm]) && Older(w.vms[vm], w.born))
    && (forall name :: name in w.records ==> WellFormed(w, name))
  }

  lemma StepKeepsInv(w: World, e: Event)
    requires Inv(w) && Allowed(w, e)
    ensures Inv(After(w, e))
  {
    hide VMName, Inv, WellFormed;
    forall name | name in After(w, e).records ensures WellFormed(After(w, e), name) { StepWellFormed(w, e, name); }
    forall vm | vm in After(w, e).vms
      ensures Recorded(After(w, e), vm) && There(After(w, e).vms[vm]) && Older(After(w, e).vms[vm], After(w, e).born)
    {
      StepRecorded(w, e, vm);
    }
    Together(After(w, e));
  }

  lemma Together(w: World)
    requires forall vm :: vm in w.vms ==> Recorded(w, vm) && There(w.vms[vm]) && Older(w.vms[vm], w.born)
    requires forall name :: name in w.records ==> WellFormed(w, name)
    ensures Inv(w)
  {
  }

  lemma StepWellFormed(w: World, e: Event, name: string)
    requires Inv(w) && Allowed(w, e) && name in After(w, e).records
    ensures WellFormed(After(w, e), name)
  {
    hide VMName, Recorded, Older;
    if name in w.records && e.name in w.records && name != e.name {
      assert WellFormed(w, name) && WellFormed(w, e.name);
      if w.records[name].vm == w.records[e.name].vm {
        VMNameTellsWorker(name, w.records[name].owner, e.name, w.records[e.name].owner);
      }
    }
    if e.NewRecord? && name == e.name {
      NewVMIsFree(w, name, e.owner);
    } else {
      assert WellFormed(w, name);
    }
  }

  lemma StepRecorded(w: World, e: Event, vm: string)
    requires Inv(w) && Allowed(w, e) && vm in After(w, e).vms
    ensures var next := After(w, e); Recorded(next, vm) && There(next.vms[vm]) && Older(next.vms[vm], next.born)
  {
    hide VMName, WellFormed;
    var next := After(w, e);
    if vm in w.vms {
      assert There(w.vms[vm]) && Recorded(w, vm) && Older(w.vms[vm], w.born);
      var name :| name in w.records && w.records[name].vm == vm;
      assert name in next.records && next.records[name].vm == vm;
    } else {
      assert next.records[e.name].vm == vm;
    }
  }

  /** No VM of a worker exists while the worker has no record. */
  lemma NewVMIsFree(w: World, name: string, owner: string)
    requires Inv(w) && name !in w.records && |owner| == 32
    ensures VMName(name, owner) !in w.vms
  {
    hide VMName;
    var vm := VMName(name, owner);
    if vm in w.vms {
      var other :| other in w.records && w.records[other].vm == vm;
      assert WellFormed(w, other);
      VMNameTellsWorker(name, owner, other, w.records[other].owner);
    }
  }

  /** A crash between any two steps leaves a VM only with its record. */
  lemma {:induction false} RunsKeepInv(trace: seq<Event>)
    requires Lawful(trace)
    ensures Inv(Run(trace))
  {
    if trace != [] {
      RunsKeepInv(trace[..|trace| - 1]);
      StepKeepsInv(Run(trace[..|trace| - 1]), trace[|trace| - 1]);
    }
  }

  // ---- one worker at a time ----

  /** The VM bears the worker's name. */
  ghost predicate VMOf(name: string, vm: string) { exists owner :: |owner| == 32 && vm == VMName(name, owner) }

  /** The invariant for one worker: its VMs are recorded, and its record is in order. */
  ghost predicate InvFor(w: World, name: string) {
    && (forall vm :: vm in w.vms && VMOf(name, vm) ==> name in w.records && w.records[name].vm == vm)
    && (name in w.records ==> WellFormed(w, name))
  }

  /** Every record names a VM of its own worker. */
  predicate Named(w: World) {
    forall n :: n in w.records ==> |w.records[n].owner| == 32 && w.records[n].vm == VMName(n, w.records[n].owner)
  }

  /** The steps of this worker are lawful; other workers may do anything, orphaning included. */
  predicate LawfulFor(trace: seq<Event>, name: string) {
    trace == [] || (LawfulFor(trace[..|trace| - 1], name)
                    && (trace[|trace| - 1].name == name ==> Allowed(Run(trace[..|trace| - 1]), trace[|trace| - 1])))
  }

  lemma StepNamed(w: World, e: Event)
    requires Named(w)
    ensures Named(After(w, e))
  {
    hide VMName;
  }

  lemma NotMyVM(a: string, b: string, owner: string)
    requires a != b && |owner| == 32
    ensures !VMOf(a, VMName(b, owner))
  {
    hide VMName;
    if VMOf(a, VMName(b, owner)) {
      var other :| |other| == 32 && VMName(b, owner) == VMName(a, other);
      VMNameTellsWorker(a, other, b, owner);
    }
  }

  /** Another worker's step changes nothing for this one. */
  lemma OthersUntouched(w: World, e: Event, name: string)
    requires Named(w) && InvFor(w, name) && e.name != name
    ensures InvFor(After(w, e), name)
  {
    hide VMName;
    var next := After(w, e);
    if e.name in w.records {
      NotMyVM(name, e.name, w.records[e.name].owner);
      if name in w.records && w.records[name].vm == w.records[e.name].vm {
        VMNameTellsWorker(name, w.records[name].owner, e.name, w.records[e.name].owner);
      }
    }
    assert name in w.records <==> name in next.records;
  }

  lemma OwnStep(w: World, e: Event)
    requires Named(w) && InvFor(w, e.name) && Allowed(w, e)
    ensures InvFor(After(w, e), e.name)
  {
    hide VMName;
    if e.NewRecord? {
      assert VMOf(e.name, VMName(e.name, e.owner));
    }
  }

  /**
   Whatever happens to other workers, a worker whose own steps are lawful keeps its VM recorded and its record in
   order.
   */
  lemma {:induction false} RunsKeepWorker(trace: seq<Event>, name: string)
    requires LawfulFor(trace, name)
    ensures Named(Run(trace)) && InvFor(Run(trace), name)
  {
    hide VMName, InvFor, Named, After, Allowed;
    if trace == [] {
      NothingYet(name);
    } else {
      var init, e := trace[..|trace| - 1], trace[|trace| - 1];
      RunsKeepWorker(init, name);
      StepNamed(Run(init), e);
      if e.name == name {
        OwnStep(Run(init), e);
      } else {
        OthersUntouched(Run(init), e, name);
      }
    }
  }

  lemma NothingYet(name: string)
    ensures Named(EMPTY) && InvFor(EMPTY, name)
  {
  }

  /** Records that survive only move forward, and what they say about the Node stays. */
  ghost predicate Forward(w: World, later: World) {
    && w.issued <= later.issued
    && forall name :: name in later.records && later.records[name].owner in w.issued ==>
         && name in w.records && w.records[name].owner == later.records[name].owner
         && Rank(w.records[name].phase) <= Rank(later.records[name].phase)
         && (w.records[name].uid != "" ==> w.records[name].uid == later.records[name].uid)
  }

  lemma StepForward(w: World, e: Event)
    requires Inv(w) && Allowed(w, e)
    ensures Forward(w, After(w, e))
  {
    hide VMName;
    var next := After(w, e);
    forall name | name in next.records && next.records[name].owner in w.issued
      ensures name in w.records && w.records[name].owner == next.records[name].owner
      ensures Rank(w.records[name].phase) <= Rank(next.records[name].phase)
      ensures w.records[name].uid != "" ==> w.records[name].uid == next.records[name].uid {
      if name in w.records {
        assert WellFormed(w, name);
      }
    }
  }

  lemma {:induction false} LawfulPrefix(trace: seq<Event>, n: nat)
    requires Lawful(trace) && n <= |trace|
    ensures Lawful(trace[..n]) && (n < |trace| ==> Allowed(Run(trace[..n]), trace[n]))
  {
    if n == |trace| {
      assert trace[..n] == trace;
    } else if n < |trace| - 1 {
      LawfulPrefix(trace[..|trace| - 1], n);
      assert trace[..|trace| - 1][..n] == trace[..n];
    }
  }

  lemma ForwardTwice(a: World, b: World, c: World)
    requires Forward(a, b) && Forward(b, c)
    ensures Forward(a, c)
  {
  }

  lemma ForwardSelf(w: World)
    requires Inv(w)
    ensures Forward(w, w)
  {
  }

  /** Between any two moments of a run: the phase never goes back and a recorded Node UID never changes. */
  lemma {:induction false} RunsForward(trace: seq<Event>, i: nat, j: nat)
    requires Lawful(trace) && i <= j <= |trace|
    ensures Forward(Run(trace[..i]), Run(trace[..j]))
    decreases j
  {
    hide Run, Lawful, Inv, Forward, Allowed, After;
    if i < j {
      RunsForward(trace, i, j - 1);
      LawfulPrefix(trace, j - 1);
      LawfulPrefix(trace, i);
      RunsKeepInv(trace[..j - 1]);
      StepForward(Run(trace[..j - 1]), trace[j - 1]);
      RunSnoc(trace[..j - 1], trace[j - 1]);
      assert trace[..j] == trace[..j - 1] + [trace[j - 1]];
      ForwardTwice(Run(trace[..i]), Run(trace[..j - 1]), Run(trace[..j]));
    } else {
      LawfulPrefix(trace, i);
      RunsKeepInv(trace[..i]);
      ForwardSelf(Run(trace[..i]));
    }
  }

  /** Automatic cleanup never stops or removes a VM whose agent was started. */
  lemma CleanupSparesAgents(trace: seq<Event>, k: nat)
    requires Lawful(trace) && k < |trace| && (trace[k].Ended? || trace[k].Clear?) && trace[k].automatic
    ensures var w := Run(trace[..k]); HasVM(w, trace[k].name) && !VMFor(w, trace[k].name).agentStarted
  {
    LawfulPrefix(trace, k);
    RunsKeepInv(trace[..k]);
    assert WellFormed(Run(trace[..k]), trace[k].name);
  }

  /** Removing a record is safe exactly when its VM is gone. */
  lemma UnlinkSafeExactly(w: World, name: string)
    requires Inv(w) && name in w.records
    ensures Inv(After(w, Unlink(name))) <==> !HasVM(w, name)
  {
    hide VMName;
    if HasVM(w, name) {
      var vm := w.records[name].vm;
      var next := After(w, Unlink(name));
      if Recorded(next, vm) {
        var other :| other in next.records && next.records[other].vm == vm;
        assert WellFormed(w, other) && WellFormed(w, name);
        VMNameTellsWorker(name, w.records[name].owner, other, w.records[other].owner);
      }
      assert vm in next.vms;
    } else {
      StepKeepsInv(w, Unlink(name));
    }
  }

  /** The orphaning case is reachable: a failed create that leaves its VM, then the removal of the record. */
  lemma OrphanReachable(name: string, owner: string)
    requires |owner| == 32
    ensures var trace := [NewRecord(name, owner), CreateVM(name), Unlink(name)];
            Lawful(trace[..2]) && !Inv(Run(trace)) && VMName(name, owner) in Run(trace).vms
  {
    hide VMName;
    var a, b := NewRecord(name, owner), CreateVM(name);
    var trace := [a, b, Unlink(name)];
    assert trace[..2] == [a, b] == [a] + [b] && [a] == [] + [a] && trace == [a, b] + [Unlink(name)];
    RunSnoc([], a);
    RunSnoc([a], b);
    RunSnoc([a, b], Unlink(name));
    RunsKeepInv([a, b]);
    UnlinkSafeExactly(Run([a, b]), name);
  }

  // ---- what the VM runtime does ----

  /** The record names a running process, and the lookups find it. */
  predicate Owned(vm: VM, looks: bool) { looks && vm.pid.Some? && vm.pid.value in vm.procs }

  datatype StopFaults = StopFaults(read: bool, looks: bool, outcome: GuestAddress.StopResult, written: bool)

  /** Stop: a VM that is not owned is written off; an owned one once its process looks gone. */
  function StopStep(vm: VM, f: StopFaults): (VM, bool) {
    var survives := Owned(vm, f.looks) && f.outcome == GuestAddress.Survived;
    if !f.read || survives then (vm, false)
    else
      var after := if Owned(vm, f.looks) && f.outcome == GuestAddress.Died then Without(vm, vm.pid.value) else vm;
      if f.written then (after.(pid := None), true) else (after, false)
  }

  /** How removing the VM's directory ended; a failure may still have removed the record in it. */
  datatype Clearing = Clears | ClearFails(gone: bool)

  /** `found` is the answer of the stat that decides whether there is anything to remove. */
  datatype RemoveFaults = RemoveFaults(locked: bool, found: bool, read: bool, stop: StopFaults, clearing: Clearing)

  /** Remove: the VM as it is left, and whether success is reported. */
  function RemoveStep(vm: VM, f: RemoveFaults): (VM, bool) {
    if !f.locked then (vm, false)
    else if !vm.stored || !f.found then (vm, true)
    else if !f.read then (vm, false)
    else
      var (stopped, ok) := StopStep(vm, f.stop);
      if !ok then (stopped, false)
      else (if f.clearing == ClearFails(false) then stopped else Cleared(stopped), f.clearing == Clears)
  }

  /** A start of the VM; `p` is the process it would spawn. An owned VM is left alone. */
  function BootStep(vm: VM, p: nat, looks: bool, r: GuestAddress.StartResult): VM {
    if Owned(vm, looks) then vm
    else
      match r
      case PrepareFails(_) => vm
      case SpawnFails => vm
      case RecordFails(lingers) => if lingers then Spawned(vm, p) else Without(Spawned(vm, p), p)
      case RecordedThenFails(lingers) =>
        var s := Spawned(vm, p).(pid := Some(p));
        if lingers then s else Without(s, p)
      case Started => Spawned(vm, p).(pid := Some(p))
  }

  /** A create: whether the VM's record was written, how its first start went, and whether a rollback cleared it. */
  datatype RunOutcome = RunOutcome(recorded: bool, boot: GuestAddress.StartResult, cleared: bool)

  predicate Ran(r: RunOutcome) { r.recorded && r.boot.Started? }

  /** The VM a create leaves. */
  function RunStep(p: nat, r: RunOutcome): VM {
    if !r.recorded then Cleared(NEW_VM)
    else
      var vm := BootStep(NEW_VM, p, true, r.boot);
      if !Ran(r) && r.cleared then Cleared(vm) else vm
  }

  /** A failed create leaves a VM exactly when its rollback did not clear it or its process outlived the failure. */
  lemma RunLeavesExactly(p: nat, r: RunOutcome)
    requires !Ran(r)
    ensures There(RunStep(p, r)) <==>
              && r.recorded
              && (!r.cleared || r.boot in {GuestAddress.RecordFails(true), GuestAddress.RecordedThenFails(true)})
  {
    assert {p} - {p} == {};
    assert p in {p};
  }

  // ---- when a removal reports success and is wrong ----

  /** Some process that the runtime's record does not name. */
  predicate Strays(vm: VM) { exists p :: p in vm.procs && vm.pid != Some(p) }

  /** A stop that goes through leaves a process: one outside the record, or the recorded one that a lookup missed. */
  predicate Escapes(vm: VM, f: StopFaults) {
    || Strays(vm)
    || (vm.pid.Some? && vm.pid.value in vm.procs && (!f.looks || f.outcome == GuestAddress.Misjudged))
  }

  predicate Goes(vm: VM, f: StopFaults) {
    f.read && f.written && !(Owned(vm, f.looks) && f.outcome == GuestAddress.Survived)
  }

  /** A stop that reports success leaves the VM running exactly when a process escapes it. */
  lemma StopLeavesExactly(vm: VM, f: StopFaults)
    ensures var (after, ok) := StopStep(vm, f); ok && after.procs != {} <==> Goes(vm, f) && Escapes(vm, f)
  {
    var (after, ok) := StopStep(vm, f);
    if ok {
      if p :| p in vm.procs && vm.pid != Some(p) {
        assert p in after.procs;
      } else if vm.pid.Some? && vm.pid.value in vm.procs && !(Owned(vm, f.looks) && f.outcome == GuestAddress.Died) {
        assert vm.pid.value in after.procs;
      } else {
        assert after.procs == {};
      }
    }
  }

  /** Success is reported although the VM is still there. */
  predicate Lies(vm: VM, f: RemoveFaults) { RemoveStep(vm, f).1 && There(RemoveStep(vm, f).0) }

  /**
   A removal does that exactly when nothing is removed because the VM's record is gone already or the stat
   misses it, or when the directory is cleared while a process escapes the stop.
   */
  lemma LiesExactly(vm: VM, f: RemoveFaults)
    ensures Lies(vm, f) <==>
            && There(vm) && f.locked
            && (!vm.stored || !f.found || (f.read && Goes(vm, f.stop) && f.clearing == Clears && Escapes(vm, f.stop)))
  {
    StopLeavesExactly(vm, f.stop);
  }

  /** The runtime's record names every process, and there is one as long as a process runs. */
  predicate Tidy(vm: VM) { !Strays(vm) && (vm.procs != {} ==> vm.stored) }

  /** Lookups that answer rightly. */
  predicate Sees(f: RemoveFaults) { f.found && f.stop.looks && f.stop.outcome != GuestAddress.Misjudged }

  lemma StopTidy(vm: VM, f: StopFaults)
    requires Tidy(vm) && vm.stored && f.looks && f.outcome != GuestAddress.Misjudged
    ensures Tidy(StopStep(vm, f).0) && (StopStep(vm, f).1 ==> StopStep(vm, f).0.procs == {})
  {
    StopLeavesExactly(vm, f);
  }

  /** With such lookups a removal of a tidy VM tells the truth and leaves it tidy. */
  lemma RemoveTidy(vm: VM, f: RemoveFaults)
    requires Tidy(vm) && Sees(f)
    ensures Tidy(RemoveStep(vm, f).0) && !Lies(vm, f)
  {
    LiesExactly(vm, f);
    if vm.stored {
      StopTidy(vm, f.stop);
    }
  }

  /** The process of a failed start lives on outside the record. */
  predicate Lingers(r: GuestAddress.StartResult) { r == GuestAddress.RecordFails(true) }

  /** A start keeps a tidy VM tidy exactly when its process does not linger and no running process is overlooked. */
  lemma BootTidyExactly(vm: VM, p: nat, looks: bool, r: GuestAddress.StartResult)
    requires Tidy(vm) && vm.stored && Older(vm, p)
    ensures Tidy(BootStep(vm, p, looks, r)) <==>
            Owned(vm, looks) || !(Lingers(r) || (GuestAddress.Records(r) && vm.procs != {}))
  {
    var after := BootStep(vm, p, looks, r);
    if !Owned(vm, looks) {
      if Lingers(r) {
        assert p in after.procs;
      } else if GuestAddress.Records(r) && vm.procs != {} {
        var q :| q in vm.procs;
        assert q in after.procs && after.pid != Some(q);
      }
    }
  }

  // ---- runs in which a delete orphans a VM ----

  /** Nothing fails in the removal; what the process lookups answer is open. */
  predicate Faultless(f: RemoveFaults) {
    f.locked && f.found && f.read && f.stop.read && f.stop.written && f.clearing == Clears
  }

  /** The steps of a delete that takes the VM's process for gone. */
  function WritingOff(name: string): seq<Event> { [WriteOff(name), Clear(name, false)] }

  /** After any run, a delete of a worker whose running VM is not owned removes its record and leaves it running. */
  lemma WrittenOffIsOrphaned(trace: seq<Event>, name: string, f: RemoveFaults)
    requires Lawful(trace) && Stored(Run(trace), name) && Faultless(f)
    requires VMFor(Run(trace), name).procs != {} && !Owned(VMFor(Run(trace), name), f.stop.looks)
    ensures var w, after := Run(trace), Run(trace + WritingOff(name));
            && Lawful(trace + WritingOff(name)) && HasVM(after, name)
            && RemoveStep(VMFor(w, name), f) == (VMFor(after, name), true)
            && !Inv(Run(trace + WritingOff(name) + [Unlink(name)]))
  {
    hide Run, Lawful, Inv, VMName;
    var once, twice := trace + [WriteOff(name)], trace + WritingOff(name);
    RunSnoc(trace, WriteOff(name));
    RunSnoc(once, Clear(name, false));
    assert once + [Clear(name, false)] == twice;
    RunsKeepInv(twice);
    RunSnoc(twice, Unlink(name));
    UnlinkSafeExactly(Run(twice), name);
  }

  /** So does one whose stat misses the VM, with nothing of it touched. */
  lemma UnfoundIsOrphaned(trace: seq<Event>, name: string, f: RemoveFaults)
    requires Lawful(trace) && HasVM(Run(trace), name) && f.locked && !f.found
    ensures RemoveStep(VMFor(Run(trace), name), f) == (VMFor(Run(trace), name), true)
    ensures !Inv(Run(trace + [Unlink(name)]))
  {
    hide Run, Lawful, Inv, VMName;
    RunsKeepInv(trace);
    RunSnoc(trace, Unlink(name));
    UnlinkSafeExactly(Run(trace), name);
  }

  /** A crash between spawning the VM's process and recording it: even lookups that work do not find it. */
  lemma CrashThenDelete(name: string, owner: string, f: RemoveFaults)
    requires |owner| == 32 && Faultless(f)
    ensures var crash := [NewRecord(name, owner), CreateVM(name), Spawn(name)];
            && Lawful(crash) && Stored(Run(crash), name) && VMFor(Run(crash), name).procs != {}
            && RemoveStep(VMFor(Run(crash), name), f).1
            && !Inv(Run(crash + WritingOff(name) + [Unlink(name)]))
  {
    hide VMName;
    var a, b := NewRecord(name, owner), CreateVM(name);
    CreatedRun(name, owner);
    RunSnoc([a, b], Spawn(name));
    assert [a, b] + [Spawn(name)] == [a, b, Spawn(name)];
    WrittenOffIsOrphaned([a, b, Spawn(name)], name, f);
  }

  /** A process lookup that fails on a worker whose agent runs: its VM is written off as well. */
  lemma BlindDelete(name: string, owner: string, f: RemoveFaults)
    requires |owner| == 32 && Faultless(f) && !f.stop.looks
    ensures var joined := JoinedTrace(name, owner);
            && Lawful(joined) && Stored(Run(joined), name) && Tidy(VMFor(Run(joined), name))
            && VMFor(Run(joined), name).agentStarted && RemoveStep(VMFor(Run(joined), name), f).1
            && !Inv(Run(joined + WritingOff(name) + [Unlink(name)]))
  {
    hide VMName, Inv, Run, Lawful;
    JoinedRun(name, owner);
    WrittenOffIsOrphaned(JoinedTrace(name, owner), name, f);
  }

  function JoinedTrace(name: string, owner: string): seq<Event> {
    [NewRecord(name, owner), CreateVM(name), Spawn(name), Track(name, 0), MarkJoining(name), StartAgent(name)]
  }

  lemma JoinedRun(name: string, owner: string)
    requires |owner| == 32
    ensures var trace, vm := JoinedTrace(name, owner), VMName(name, owner);
            && Lawful(trace)
            && Run(trace) == World(map[name := Record(owner, vm, Joining, "")],
                                   map[vm := VM(true, {0}, Some(0), true)], {owner}, 1)
  {
    hide VMName, Inv, Run, Lawful;
    var a, b, c, d, e := NewRecord(name, owner), CreateVM(name), Spawn(name), Track(name, 0), MarkJoining(name);
    var vm, creating := VMName(name, owner), Record(owner, VMName(name, owner), Creating, "");
    CreatedRun(name, owner);
    RunSnoc([a, b], c);
    assert [a, b] + [c] == [a, b, c] && Spawned(NEW_VM, 0) == VM(true, {0}, None, false);
    assert Run([a, b, c]) == World(map[name := creating], map[vm := VM(true, {0}, None, false)], {owner}, 1);
    RunSnoc([a, b, c], d);
    assert [a, b, c] + [d] == [a, b, c, d];
    assert Run([a, b, c, d]) == World(map[name := creating], map[vm := VM(true, {0}, Some(0), false)], {owner}, 1);
    RunSnoc([a, b, c, d], e);
    RunSnoc([a, b, c, d, e], StartAgent(name));
    assert [a, b, c, d] + [e] == [a, b, c, d, e] && [a, b, c, d, e] + [StartAgent(name)] == JoinedTrace(name, owner);
  }

  lemma CreatedRun(name: string, owner: string)
    requires |owner| == 32
    ensures var trace, vm := [NewRecord(name, owner), CreateVM(name)], VMName(name, owner);
            && Lawful(trace)
            && Run(trace) == World(map[name := Record(owner, vm, Creating, "")], map[vm := NEW_VM], {owner}, 0)
  {
    hide VMName;
    var a, b := NewRecord(name, owner), CreateVM(name);
    RunSnoc([], a);
    RunSnoc([a], b);
    assert [] + [a] == [a] && [a] + [b] == [a, b];
  }

  // ---- the operations ----

  /** How starting the agent ended; a failed command may still have started it. */
  datatype AgentOutcome = Started | FailedBefore | FailedAfter

  /** What the runtime, the guest and the file system answer during a join, in order. */
  datatype JoinOutcome = JoinOutcome(
    accepted: bool, written: bool, run: RunOutcome, ready: bool, addressed: bool, routesClear: bool, provisioned: bool,
    kernelReady: bool, transferred: bool, joiningWritten: bool, agent: AgentOutcome, observed: Option<string>,
    readyWritten: bool, owned: bool, removed: RemoveFaults, unlinked: bool)

  datatype StartOutcome = StartOutcome(
    owned: bool, looks: bool, boot: GuestAddress.StartResult, reachable: bool, agent: AgentOutcome,
    observed: Option<string>, written: bool)

  datatype LocalOutcome = LocalOutcome(
    owned: bool, removed: RemoveFaults, locked: bool, stop: StopFaults, unlinked: bool)

  /** An observation counts when it names the Node and agrees with a UID already recorded. */
  predicate Accepts(recorded: string, observed: Option<string>) {
    observed.Some? && observed.value != "" && (recorded == "" || recorded == observed.value)
  }

  /** The VM is set up and the agent's files are on it: from here on a failed join keeps the worker. */
  predicate SetUp(out: JoinOutcome) {
    out.ready && out.addressed && out.routesClear && out.provisioned && out.kernelReady && out.transferred
  }

  lemma RunSnoc(trace: seq<Event>, e: Event)
    ensures Run(trace + [e]) == After(Run(trace), e)
    ensures Lawful(trace + [e]) <==> Lawful(trace) && Allowed(Run(trace), e)
  {
    assert (trace + [e])[..|trace|] == trace;
  }

  lemma SetTwice(w: World, name: string, a: VM, b: VM)
    requires name in w.records
    ensures SetVM(SetVM(w, name, a), name, b) == SetVM(w, name, b)
  {
  }

  lemma SetSame(w: World, name: string)
    requires Inv(w) && HasVM(w, name)
    ensures SetVM(w, name, VMFor(w, name)) == w
  {
  }

  lemma StopStored(vm: VM, f: StopFaults)
    requires vm.stored
    ensures StopStep(vm, f).0.stored
  {
  }

  lemma BootStored(vm: VM, p: nat, looks: bool, r: GuestAddress.StartResult)
    requires vm.stored
    ensures BootStep(vm, p, looks, r).stored
  {
  }

  lemma RanStored(p: nat, r: RunOutcome)
    ensures Ran(r) ==> RunStep(p, r) == VM(true, {p}, Some(p), false)
  {
  }

  lemma OneTidy(p: nat, agentStarted: bool)
    ensures Tidy(VM(true, {p}, Some(p), agentStarted))
  {
  }

  lemma VMIsThere(w: World, name: string)
    requires Inv(w) && HasVM(w, name)
    ensures There(VMFor(w, name))
  {
  }

  lemma BootFacts(w: World, name: string, looks: bool, r: GuestAddress.StartResult)
    requires Inv(w) && Stored(w, name)
    ensures var vm := BootStep(VMFor(w, name), w.born, looks, r);
            && vm.stored && (r.Started? ==> Owned(vm, true))
            && (Tidy(VMFor(w, name)) && looks && !Lingers(r) ==> Tidy(vm))
  {
    var vm := VMFor(w, name);
    BootStored(vm, w.born, looks, r);
    if Tidy(vm) {
      BootTidyExactly(vm, w.born, looks, r);
      assert forall p :: p in vm.procs ==> vm.pid == Some(p);
    }
  }

  lemma StopFacts(vm: VM, f: StopFaults)
    requires vm.stored
    ensures var (after, ok) := StopStep(vm, f);
            after.stored && (ok ==> after.pid.None? && (after.procs != {} <==> Escapes(vm, f)))
  {
    StopLeavesExactly(vm, f);
  }

  lemma DeleteFacts(vm: VM, f: RemoveFaults)
    ensures Tidy(vm) && Sees(f) ==> !Lies(vm, f)
  {
    if Tidy(vm) && Sees(f) {
      RemoveTidy(vm, f);
    }
  }

  class Manager {
    var world: World
    ghost var trace: seq<Event>

    constructor ()
      ensures world == EMPTY && trace == [] && Valid()
    {
      world, trace := EMPTY, [];
    }

    ghost predicate Valid()
      reads this
    {
      world == Run(trace) && Lawful(trace) && Inv(world)
    }

    /** One step. */
    method Do(e: Event)
      requires Valid() && Allowed(world, e)
      modifies this
      ensures Valid() && world == After(old(world), e) && trace == old(trace) + [e]
    {
      hide Run, Lawful, After, Allowed, Inv;
      RunSnoc(trace, e);
      StepKeepsInv(world, e);
      world, trace := After(world, e), trace + [e];
    }

    /** Do a step that leaves the worker's VM as given. */
    method Change(name: string, e: Event, ghost vm: VM)
      requires Valid() && HasVM(world, name) && Allowed(world, e) && After(world, e) == SetVM(world, name, vm)
      modifies this
      ensures Valid() && world == SetVM(old(world), name, vm) && trace == old(trace) + [e]
      ensures There(vm) ==> HasVM(world, name) && VMFor(world, name) == vm
    {
      hide Run, Lawful, After, Allowed, Inv;
      Do(e);
    }

    /** The runtime's stop. */
    method StopVM(name: string, f: StopFaults, automatic: bool) returns (ok: bool)
      requires Valid() && Stored(world, name) && (automatic ==> world.records[name].phase == Creating)
      modifies this
      ensures Valid() && old(trace) <= trace
      ensures world == SetVM(old(world), name, StopStep(old(VMFor(world, name)), f).0)
      ensures ok == StopStep(old(VMFor(world, name)), f).1
    {
      hide Run, Lawful, Inv, VMName, Recorded;
      ghost var before := world;
      SetSame(world, name);
      var vm := VMFor(world, name);
      if !f.read {
        return false;
      }
      if Owned(vm, f.looks) {
        if f.outcome == GuestAddress.Survived {
          return false;
        }
        if f.outcome == GuestAddress.Died {
          vm := Without(vm, vm.pid.value);
          Change(name, Ended(name, VMFor(world, name).pid.value, automatic), vm);
        }
      }
      if !f.written {
        return false;
      }
      SetTwice(before, name, vm, vm.(pid := None));
      Change(name, WriteOff(name), vm.(pid := None));
      return true;
    }

    /** The runtime's remove. */
    method RemoveVM(name: string, f: RemoveFaults, automatic: bool) returns (ok: bool)
      requires Valid() && HasVM(world, name) && (automatic ==> world.records[name].phase == Creating)
      modifies this
      ensures Valid() && old(trace) <= trace
      ensures world == SetVM(old(world), name, RemoveStep(old(VMFor(world, name)), f).0)
      ensures ok == RemoveStep(old(VMFor(world, name)), f).1
      ensures ok ==> (HasVM(world, name) <==> Lies(old(VMFor(world, name)), f))
    {
      hide Run, Lawful, Inv, VMName, StopStep;
      ghost var before, vm := world, VMFor(world, name);
      SetSame(world, name);
      if !f.locked {
        return false;
      }
      if !VMFor(world, name).stored || !f.found {
        return true;
      }
      if !f.read {
        return false;
      }
      StopStored(vm, f.stop);
      var stopped := StopVM(name, f.stop, automatic);
      if !stopped {
        return false;
      }
      if f.clearing != ClearFails(false) {
        SetTwice(before, name, VMFor(world, name), Cleared(VMFor(world, name)));
        Do(Clear(name, automatic));
      }
      return f.clearing == Clears;
    }

    /** The runtime's start of a VM whose record it has. */
    method BootVM(name: string, looks: bool, r: GuestAddress.StartResult) returns (ok: bool)
      requires Valid() && Stored(world, name)
      modifies this
      ensures Valid() && old(trace) <= trace && ok == r.Started?
      ensures world == SetVM(old(world), name, BootStep(old(VMFor(world, name)), old(world).born, looks, r))
                       .(born := world.born)
      ensures ok ==> Stored(world, name) && Owned(VMFor(world, name), true)
    {
      hide Run, Lawful, Inv, VMName, Recorded;
      SetSame(world, name);
      ok := r.Started?;
      if Owned(VMFor(world, name), looks) || r.PrepareFails? || r.SpawnFails? {
        return;
      }
      var p := world.born;
      Do(Spawn(name));
      if !r.RecordFails? {
        Do(Track(name, p));
      }
      if !r.Started? && !r.lingers {
        Do(Ended(name, p, false));
      }
    }

    /** The runtime's create: write the VM's record, start it, and clear it again if that fails. */
    method RunVM(name: string, r: RunOutcome) returns (ok: bool)
      requires Valid() && name in world.records && world.records[name].phase == Creating && !HasVM(world, name)
      modifies this
      ensures Valid() && old(trace) <= trace && ok == Ran(r)
      ensures world == SetVM(old(world), name, RunStep(old(world).born, r)).(born := world.born)
      ensures ok ==> HasVM(world, name)
      ensures ok ==> VMFor(world, name) == VM(true, {old(world).born}, Some(old(world).born), false)
    {
      hide Run, Lawful, Inv, VMName, Recorded, BootStep;
      if !r.recorded {
        return false;
      }
      RanStored(world.born, r);
      BootStored(NEW_VM, world.born, true, r.boot);
      Do(CreateVM(name));
      ok := BootVM(name, true, r.boot);
      if !ok && r.cleared {
        Do(Clear(name, true));
      }
    }

    /** What a cleanup would have to leave behind for the record's removal to orphan a VM. */
    ghost predicate CleanUpOrphans(name: string, phase: Phase, created: bool, out: JoinOutcome)
      requires name in world.records && (created ==> Stored(world, name))
      reads this
    {
      && phase == Creating && out.unlinked
      && if created then out.owned && Lies(VMFor(world, name), out.removed) else HasVM(world, name)
    }

    /** Undo a failed join as far as the in-memory phase and ownership allow. */
    method CleanUp(name: string, phase: Phase, created: bool, out: JoinOutcome)
      requires Valid() && name in world.records && (created ==> Stored(world, name))
      requires phase == Creating ==> world.records[name].phase == Creating
      modifies this
      ensures old(trace) <= trace && world.issued == old(world).issued && world == Run(trace)
      ensures Valid() <==> !old(CleanUpOrphans(name, phase, created, out))
      ensures world.records == if name in world.records then old(world).records else old(world).records - {name}
      ensures phase != Creating ==> world == old(world)
      ensures world.vms - {old(world).records[name].vm} == old(world).vms - {old(world).records[name].vm}
      ensures !created ==> world.vms == old(world).vms
      ensures created && name !in world.records && Valid() ==> old(world).records[name].vm !in world.vms
      ensures name !in world.records <==>
                && phase == Creating && out.unlinked
                && (created ==> out.owned && RemoveStep(old(VMFor(world, name)), out.removed).1)
    {
      hide Run, Lawful, Inv, VMName, RemoveStep;
      if phase == Joining || phase == Ready {
        return;
      }
      if created {
        if !out.owned {
          return;
        }
        var removed := RemoveVM(name, out.removed, true);
        if !removed {
          return;
        }
      }
      if out.unlinked {
        Forget(name);
      }
    }

    /** Remove the record of a worker, whether or not its VM is gone. */
    method Forget(name: string)
      requires Valid() && name in world.records
      modifies this
      ensures world == After(old(world), Unlink(name)) && trace == old(trace) + [Unlink(name)]
      ensures world == Run(trace) && (Valid() <==> !HasVM(old(world), name))
    {
      hide Run, Lawful, Inv, VMName;
      if HasVM(world, name) {
        UnlinkSafeExactly(world, name);
        RunSnoc(trace, Unlink(name));
        world, trace := After(world, Unlink(name)), trace + [Unlink(name)];
      } else {
        Do(Unlink(name));
      }
    }

    /** The worker is ready: recorded with the observed UID, its VM there and its agent started. */
    predicate Joined(name: string, observed: Option<string>)
      reads this
    {
      && HasVM(world, name) && world.records[name].phase == Ready && Some(world.records[name].uid) == observed
      && VMFor(world, name).agentStarted
    }

    /** Start the agent of a joining worker; the outcome says whether it may now run. */
    method TryAgent(name: string, agent: AgentOutcome) returns (ok: bool)
      requires Valid() && HasVM(world, name) && world.records[name].phase == Joining
      modifies this
      ensures Valid() && old(trace) <= trace && world.issued == old(world).issued
      ensures ok <==> agent == Started
      ensures world == SetVM(old(world), name, old(VMFor(world, name)).(agentStarted :=
                agent != FailedBefore || old(VMFor(world, name)).agentStarted))
      ensures HasVM(world, name)
    {
      hide Run, Lawful, Inv, VMName, Recorded;
      SetSame(world, name);
      VMIsThere(world, name);
      ok := agent == Started;
      if agent != FailedBefore {
        Do(StartAgent(name));
      }
    }

    /** From a created VM to a ready worker; `phase` is the phase held in memory when it ends. */
    method Provision(name: string, out: JoinOutcome) returns (phase: Phase, ok: bool)
      requires Valid() && HasVM(world, name) && world.records[name].phase == Creating && world.records[name].uid == ""
      modifies this
      ensures Valid() && old(trace) <= trace && HasVM(world, name) && world.issued == old(world).issued
      ensures Rank(world.records[name].phase) <= Rank(phase) && (phase == Creating ==> world == old(world))
      ensures phase == Creating <==> !SetUp(out)
      ensures ok ==> Joined(name, out.observed) && phase == Ready
      ensures world.records[name].vm == old(world).records[name].vm
              && world.records[name].owner == old(world).records[name].owner
      ensures world.records - {name} == old(world).records - {name}
      ensures world.vms - {world.records[name].vm} == old(world).vms - {world.records[name].vm}
      ensures VMFor(world, name) == old(VMFor(world, name)).(agentStarted := VMFor(world, name).agentStarted)
    {
      hide Run, Lawful, Inv, VMName;
      phase, ok := Creating, false;
      if !SetUp(out) {
        return;
      }
      phase := Joining;
      if !out.joiningWritten {
        return;
      }
      Do(MarkJoining(name));
      var started := TryAgent(name, out.agent);
      if !started || !Accepts("", out.observed) {
        return;
      }
      phase := Ready;
      if !out.readyWritten {
        return;
      }
      Do(MarkReady(name, out.observed.value));
      ok := true;
    }

    /**
     The join's record is removed while a VM of it is there: a failed create left one, or the cleanup's
     removal of a created one reported success and was wrong.
     */
    ghost predicate Orphans(name: string, out: JoinOutcome)
      reads this
    {
      && name !in world.records && out.accepted && out.written && out.unlinked
      && var vm := RunStep(world.born, out.run);
         if Ran(out.run) then !SetUp(out) && out.owned && Lies(vm, out.removed) else There(vm)
    }

    /**
     Join. Every step is lawful except in the orphaning cases. A worker that already has a record is
     left alone; success means a ready record, a VM and a started agent; when the record is gone again,
     so is everything else the join made, with that exception.
     */
    method Join(name: string, owner: string, out: JoinOutcome) returns (ok: bool)
      requires Valid() && owner !in world.issued && |owner| == 32
      modifies this
      ensures old(trace) <= trace && world == Run(trace)
      ensures Valid() <==> !old(Orphans(name, out))
      ensures name in old(world).records ==> !ok && world == old(world)
      ensures ok ==> Joined(name, out.observed) && world.records[name].owner == owner
      ensures name !in old(world).records && name !in world.records ==>
                world.records == old(world).records && (Valid() ==> world.vms == old(world).vms)
      ensures world.records - {name} == old(world).records - {name}
      ensures name !in old(world).records && out.accepted && out.written && Ran(out.run) && SetUp(out) ==>
                HasVM(world, name) && Tidy(VMFor(world, name))
    {
      hide Run, Lawful, Inv, VMName, RunStep, RemoveStep, Lies, Tidy, Accepts, SetUp;
      ok := false;
      if name in world.records || !out.accepted {
        return;
      }
      if !out.written {
        return;
      }
      ghost var vm, born := VMName(name, owner), world.born;
      NewVMIsFree(world, name, owner);
      Do(NewRecord(name, owner));
      RanStored(born, out.run);
      var created := RunVM(name, out.run);
      var phase := Creating;
      if created {
        phase, ok := Provision(name, out);
        OneTidy(born, VMFor(world, name).agentStarted);
      }
      if !ok {
        CleanUp(name, phase, created, out);
        if name !in world.records && Valid() {
          assert vm !in world.vms && world.vms - {vm} == old(world).vms - {vm};
          assert world.vms == world.vms - {vm} == old(world).vms;
        }
      }
    }

    /** Start again: only a worker that got as far as joining, with its own VM; a recorded UID must be met. */
    method Start(name: string, out: StartOutcome) returns (ok: bool)
      requires Valid()
      modifies this
      ensures Valid() && old(trace) <= trace && world.records.Keys == old(world).records.Keys
              && world.vms.Keys == old(world).vms.Keys
      ensures !Stored(old(world), name) || old(world).records[name].phase == Creating ==> !ok && world == old(world)
      ensures ok ==> world.records[name].phase == Ready && Some(world.records[name].uid) == out.observed
      ensures ok ==> Stored(world, name) && Owned(VMFor(world, name), true)
      ensures ok && old(world).records[name].phase == Joining ==> VMFor(world, name).agentStarted
      ensures ok && old(world).records[name].uid != "" ==> world.records[name].uid == old(world).records[name].uid
      ensures Stored(old(world), name) && Tidy(old(VMFor(world, name))) && out.looks && !Lingers(out.boot) ==>
                HasVM(world, name) && Tidy(VMFor(world, name))
    {
      hide Run, Lawful, Inv, VMName;
      ok := false;
      if name !in world.records || world.records[name].phase == Creating {
        return;
      }
      if !Stored(world, name) || !out.owned {
        return;
      }
      var state := world.records[name];
      BootFacts(world, name, out.looks, out.boot);
      var booted := BootVM(name, out.looks, out.boot);
      hide BootStep, Strays;
      if !booted || !out.reachable {
        return;
      }
      if state.phase == Joining {
        var started := TryAgent(name, out.agent);
        if !started {
          return;
        }
      }
      if !Accepts(state.uid, out.observed) || !out.written {
        return;
      }
      Do(MarkReady(name, out.observed.value));
      ok := true;
    }

    /** The delete removes the record of a VM that is there: unseen by the runtime, or wrongly reported removed. */
    ghost predicate DeleteOrphans(name: string, out: LocalOutcome)
      reads this
    {
      && HasVM(world, name) && out.unlinked
      && (Stored(world, name) ==> out.owned && Lies(VMFor(world, name), out.removed))
    }

    /**
     Stop or delete: the record goes only after the runtime reports the VM gone, and a VM the runtime does
     not have does not stop a delete.
     */
    method LocalAction(name: string, remove: bool, out: LocalOutcome) returns (ok: bool)
      requires Valid()
      modifies this
      ensures old(trace) <= trace && world == Run(trace)
      ensures Valid() <==> !(remove && old(DeleteOrphans(name, out)))
      ensures !remove ==> world.records == old(world).records && world.vms.Keys == old(world).vms.Keys
      ensures ok && !remove ==> old(Stored(world, name)) && Stored(world, name) && VMFor(world, name).pid.None?
      ensures ok && !remove ==> (VMFor(world, name).procs != {} <==> Escapes(old(VMFor(world, name)), out.stop))
      ensures ok && remove ==> name !in world.records && old(world).records.Keys == world.records.Keys + {name}
      ensures ok && remove && Valid() ==> world.vms.Keys == old(world).vms.Keys - {old(world).records[name].vm}
      ensures !ok ==> world.records == old(world).records
      ensures Stored(old(world), name) && Tidy(old(VMFor(world, name))) && Sees(out.removed) ==> Valid()
    {
      hide Run, Lawful, Inv, VMName, StopStep, RemoveStep;
      ok := false;
      if name !in world.records {
        return;
      }
      if !Stored(world, name) {
        if !remove {
          return;
        }
      } else if !out.owned {
        return;
      } else if remove {
        DeleteFacts(VMFor(world, name), out.removed);
        var removed := RemoveVM(name, out.removed, false);
        if !removed {
          return;
        }
      } else {
        if !out.locked {
          return;
        }
        StopFacts(VMFor(world, name), out.stop);
        var stopped := StopVM(name, out.stop, false);
        if !stopped {
          return;
        }
      }
      if remove {
        if !out.unlinked {
          return;
        }
        Forget(name);
      }
      ok := true;
    }
  }
}
