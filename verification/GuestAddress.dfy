/**
 Guest-reported addresses of krunkit VMs. Each start writes a fresh generation to a directory shared
 with the guest; the guest's reporter reads it, later replaces the report file, and the host accepts a
 report only under the generation recorded with the last start. Boots, guest steps, failed starts and
 stops interleave freely; generations are random and modelled as fresh numbers, 0 meaning none.
 */
module GuestAddress {
  import opened Options

  datatype Ip = Ip(a: nat, b: nat, c: nat, d: nat)

  datatype Report = Report(schema: nat, name: string, mac: string, generation: nat, ip: Ip)

  /** The identity of the VM and its subnet: as recorded with the node and as its network file says. */
  datatype Identity = Identity(name: string, mac: string, recordedOctet: nat, networkOctet: Option<nat>)

  // ---- acceptance ----

  /** validateNodeIPv4: the owned subnet, and host octets of vmnet's DHCP pool above the gateway. */
  predicate ValidIp(id: Identity, ip: Ip) {
    && id.networkOctet == Some(id.recordedOctet)
    && ip.a == 192 && ip.b == 168 && ip.c == id.recordedOctet
    && 2 <= ip.d <= 200
  }

  /** readGuestAddressReport on a report that decoded as one JSON object. */
  predicate Accepts(id: Identity, generation: nat, r: Report) {
    && r.schema == 1 && r.name == id.name && r.mac == id.mac
    && generation != 0 && r.generation == generation
    && ValidIp(id, r.ip)
  }

  // ---- the world ----

  /**
   The durable record holds the generation and boot of the last recorded start and, in `pid`, the boot it
   takes to be running (0 for none); `file` and `report` are the share; the rest is who runs and when.
   */
  datatype World = World(
    recordedGen: nat, recordedBoot: nat, pid: nat,
    fileGen: nat, report: Option<Report>, reportBoot: nat, reportAt: nat,
    alive: set<nat>, pending: map<nat, nat>,
    clock: nat, lastGen: nat, lastBoot: nat, bornAt: map<nat, nat>)

  const FRESH := World(0, 0, 0, 0, None, 0, 0, {}, map[], 0, 0, 0, map[])

  datatype StartResult =
    | PrepareFails(removed: bool)
    | SpawnFails
    | RecordFails(lingers: bool)
    | RecordedThenFails(lingers: bool)
    | Started

  /** How a stop of an owned VM ends: it is gone, it is still there, or it is there but a lookup failed. */
  datatype StopResult = Died | Survived | Misjudged

  /** `looks` says whether the process lookups of `processOwned` succeed; they can fail on a live VM. */
  datatype Event =
    | Start(looks: bool, result: StartResult)
    | Stop(looks: bool, outcome: StopResult, written: bool)
    | Die(boot: nat)
    | GuestRead(boot: nat)
    | GuestWrite(boot: nat, report: Report)

  /** processOwned: a recorded process that is alive and can be looked up. */
  predicate Owned(w: World, looks: bool) { looks && w.pid != 0 && w.pid in w.alive }

  function Kill(w: World, boot: nat): World { w.(alive := w.alive - {boot}, pending := w.pending - {boot}) }

  /** prepareGuestAddressReport: remove the old report, then write a new generation. */
  function Prepared(w: World): World {
    var g := w.lastGen + 1;
    w.(report := None, fileGen := g, lastGen := g, bornAt := w.bornAt[g := w.clock])
  }

  function Spawned(w: World): World { w.(alive := w.alive + {w.lastBoot + 1}, lastBoot := w.lastBoot + 1) }

  function RecordedStart(w: World): World {
    w.(recordedGen := w.fileGen, recordedBoot := w.lastBoot, pid := w.lastBoot)
  }

  /** startState for a VM it does not own. */
  function StartStep(w: World, r: StartResult): World {
    match r
    case PrepareFails(removed) => if removed then w.(report := None) else w
    case SpawnFails => Prepared(w)
    case RecordFails(lingers) =>
      var s := Spawned(Prepared(w));
      if lingers then s else Kill(s, s.lastBoot)
    case RecordedThenFails(lingers) =>
      var s := RecordedStart(Spawned(Prepared(w)));
      if lingers then s else Kill(s, s.lastBoot)
    case Started => RecordedStart(Spawned(Prepared(w)))
  }

  /** stopLocked: an unowned VM is written off; an owned one is written off once it looks gone. */
  function StopStep(w: World, looks: bool, r: StopResult, written: bool): World {
    var after := if Owned(w, looks) && r == Died then Kill(w, w.pid) else w;
    if written && !(Owned(w, looks) && r == Survived) then after.(pid := 0) else after
  }

  /** The reporter fills in the generation it read; the rest of the report is up to the guest. */
  function Step(w: World, e: Event): World {
    var t := w.(clock := w.clock + 1);
    match e
    case Start(looks, r) => if Owned(w, looks) then t else StartStep(t, r)
    case Stop(looks, r, written) => StopStep(t, looks, r, written)
    case Die(boot) => Kill(t, boot)
    case GuestRead(boot) => if boot in w.alive && w.fileGen != 0 then t.(pending := w.pending[boot := w.fileGen]) else t
    case GuestWrite(boot, r) =>
      if boot in w.alive && boot in w.pending
      then t.(report := Some(r.(generation := w.pending[boot])), reportBoot := boot, reportAt := w.clock + 1) else t
  }

  /** nodeAddress for a VM with guest reporting. */
  function NodeAddress(w: World, id: Identity): Option<Ip> {
    if w.report.Some? && Accepts(id, w.recordedGen, w.report.value) then Some(w.report.value.ip) else None
  }

  // ---- the host side as it runs ----

  class Host {
    var world: World

    constructor ()
      ensures world == FRESH && Ordered(world)
    {
      world := FRESH;
    }

    /** Success leaves no report and a generation that no report or guest can carry yet; the record is not touched. */
    method PrepareReport(fails: Option<bool>) returns (ok: bool)
      requires Ordered(world)
      modifies this
      ensures Ordered(world) && ok == fails.None?
      ensures ok ==> world == Prepared(old(world))
      ensures !ok ==> world == StartStep(old(world), PrepareFails(fails.value))
      ensures ok ==> forall id :: NodeAddress(world, id) == None
      ensures ok ==> world.fileGen > world.recordedGen
      ensures ok ==> forall b :: b in world.pending ==> world.pending[b] < world.fileGen
    {
      if fails.Some? && !fails.value {
        return false;
      }
      world := world.(report := None);
      if fails.Some? {
        return false;
      }
      var generation := world.lastGen + 1;
      world := world.(fileGen := generation, lastGen := generation, bornAt := world.bornAt[generation := world.clock]);
      return true;
    }

    /** An owned VM is left alone; a start past preparation leaves no address for anyone until a guest reports again. */
    method StartVM(looks: bool, r: StartResult)
      requires Ordered(world)
      modifies this
      ensures Ordered(world) && world == Step(old(world), Start(looks, r))
      ensures !Owned(old(world), looks) && !r.PrepareFails? ==> forall id :: NodeAddress(world, id) == None
      ensures !Owned(old(world), looks) && r.Started? ==>
                world.pid == world.recordedBoot && world.pid in world.alive
                  && world.recordedGen == world.fileGen > old(world).lastGen
    {
      StepOrdered(world, Start(looks, r));
      hide Ordered;
      TickOrdered(world);
      world := world.(clock := world.clock + 1);
      if Owned(world, looks) {
        return;
      }
      var ok := PrepareReport(if r.PrepareFails? then Some(r.removed) else None);
      if !ok || r.SpawnFails? {
        return;
      }
      world := Spawned(world);
      if !r.RecordFails? {
        world := RecordedStart(world);
      }
      if !r.Started? && !r.lingers {
        world := Kill(world, world.lastBoot);
      }
    }

    /** A stop never adds an address; success means the record takes nothing to be running. */
    method StopVM(looks: bool, r: StopResult, written: bool) returns (ok: bool)
      requires Ordered(world)
      modifies this
      ensures Ordered(world) && world == Step(old(world), Stop(looks, r, written))
      ensures ok ==> world.pid == 0
      ensures forall id :: NodeAddress(world, id) == NodeAddress(old(world), id)
    {
      StepOrdered(world, Stop(looks, r, written));
      hide Ordered;
      world := world.(clock := world.clock + 1);
      if Owned(world, looks) {
        if r == Died {
          world := Kill(world, world.pid);
        } else if r == Survived {
          return false;
        }
      }
      if !written {
        return false;
      }
      world := world.(pid := 0);
      return true;
    }

    method ReadAddress(id: Identity) returns (r: Option<Ip>)
      ensures r == NodeAddress(world, id)
    {
      match world.report
      case None => return None;
      case Some(report) =>
        if report.schema != 1 || report.name != id.name || report.mac != id.mac
           || world.recordedGen == 0 || report.generation != world.recordedGen {
          return None;
        }
        if !ValidIp(id, report.ip) {
          return None;
        }
        return Some(report.ip);
    }
  }

  // ---- every run ----

  /** Generations are numbered in creation order; reports and half-written reports carry one that exists. */
  predicate Ordered(w: World) {
    && w.recordedGen <= w.lastGen && w.fileGen <= w.lastGen && w.recordedBoot <= w.lastBoot
    && (w.pid == 0 || w.pid == w.recordedBoot)
    && (forall g :: 1 <= g <= w.lastGen ==> g in w.bornAt && w.bornAt[g] <= w.clock)
    && (forall b :: b in w.alive ==> 1 <= b <= w.lastBoot)
    && (forall b :: b in w.pending ==> b in w.alive && 1 <= w.pending[b] <= w.lastGen)
    && (w.report.Some? ==> 1 <= w.report.value.generation <= w.lastGen
                           && w.bornAt[w.report.value.generation] <= w.reportAt <= w.clock)
  }

  /** A guest runs that is not the recorded boot. */
  predicate Foreign(w: World) { exists b :: b in w.alive && b != w.recordedBoot }

  /** Whatever carries the recorded generation comes from the recorded boot, and nothing else runs. */
  predicate Exclusive(w: World) {
    && Ordered(w) && !Foreign(w)
    && (forall b :: b in w.pending && w.pending[b] == w.recordedGen ==> b == w.recordedBoot)
    && (w.report.Some? && w.report.value.generation == w.recordedGen ==> w.reportBoot == w.recordedBoot)
  }

  ghost predicate IsRun(worlds: seq<World>, events: seq<Event>) {
    && |worlds| == |events| + 1 && worlds[0] == FRESH
    && forall k :: 0 <= k < |events| ==> worlds[k + 1] == Step(worlds[k], events[k])
  }

  /** The start gets as far as writing a new record. */
  predicate Records(r: StartResult) { r.RecordedThenFails? || r.Started? }

  /**
   A start that lets a VM out of the record: it records a new boot while one is alive, or its own boot
   outlives a failure to record it.
   */
  predicate Strays(w: World, e: Event) {
    e.Start? && !Owned(w, e.looks) && ((Records(e.result) && w.alive != {}) || e.result == RecordFails(true))
  }

  lemma PreparedKeeps(w: World)
    requires Ordered(w)
    ensures Ordered(Prepared(w))
  {
  }

  lemma SpawnedKeeps(w: World)
    requires Ordered(w)
    ensures Ordered(Spawned(w)) && Ordered(RecordedStart(Spawned(w)))
  {
  }

  lemma KillKeeps(w: World, boot: nat)
    requires Ordered(w)
    ensures Ordered(Kill(w, boot))
  {
  }

  lemma TickOrdered(w: World)
    requires Ordered(w)
    ensures Ordered(w.(clock := w.clock + 1))
  {
  }

  lemma StartOrdered(w: World, r: StartResult)
    requires Ordered(w)
    ensures Ordered(StartStep(w, r))
  {
    if r.PrepareFails? {
    } else {
      hide Ordered, Prepared, Spawned, RecordedStart, Kill;
      PreparedKeeps(w);
      SpawnedKeeps(Prepared(w));
      var s, t := Spawned(Prepared(w)), RecordedStart(Spawned(Prepared(w)));
      KillKeeps(s, s.lastBoot);
      KillKeeps(t, t.lastBoot);
    }
  }

  lemma StopOrdered(w: World, looks: bool, r: StopResult, written: bool)
    requires Ordered(w)
    ensures Ordered(StopStep(w, looks, r, written))
  {
    KillKeeps(w, w.pid);
  }

  lemma StepOrdered(w: World, e: Event)
    requires Ordered(w)
    ensures Ordered(Step(w, e))
  {
    hide Kill, StartStep, StopStep;
    var t := w.(clock := w.clock + 1);
    TickOrdered(w);
    match e
    case Start(_, r) => StartOrdered(t, r);
    case Stop(looks, r, written) => StopOrdered(t, looks, r, written);
    case Die(boot) => KillKeeps(t, boot);
    case GuestRead(_) =>
    case GuestWrite(_, _) =>
  }

  lemma {:induction false} RunsOrdered(worlds: seq<World>, events: seq<Event>, k: nat)
    requires IsRun(worlds, events) && k < |worlds|
    ensures Ordered(worlds[k])
  {
    hide Step;
    if k > 0 {
      RunsOrdered(worlds, events, k - 1);
      StepOrdered(worlds[k - 1], events[k - 1]);
    }
  }

  /** A start keeps every running guest under the record exactly when it does not let one out. */
  lemma StartForeign(w: World, looks: bool, r: StartResult)
    requires Ordered(w) && !Foreign(w) && !Owned(w, looks)
    ensures Foreign(StartStep(w, r)) <==> Strays(w, Start(looks, r))
  {
    var after := StartStep(w, r);
    if Records(r) {
      assert after.recordedBoot == w.lastBoot + 1;
      if w.alive != {} {
        var b :| b in w.alive;
        assert b in after.alive && b != after.recordedBoot;
      }
    } else if r == RecordFails(true) {
      assert w.lastBoot + 1 in after.alive && after.recordedBoot == w.recordedBoot;
    } else {
      assert after.alive == w.alive;
    }
  }

  lemma StartExclusive(w: World, looks: bool, r: StartResult)
    requires Exclusive(w) && !Owned(w, looks) && Ordered(StartStep(w, r)) && !Strays(w, Start(looks, r))
    ensures Exclusive(StartStep(w, r))
  {
    StartForeign(w, looks, r);
    var after := StartStep(w, r);
    assert !Records(r) ==> after.recordedGen == w.recordedGen && after.recordedBoot == w.recordedBoot;
    assert Records(r) ==> after.pending == map[] && after.report.None?;
    hide Ordered, Foreign;
  }

  lemma KillExclusive(w: World, boot: nat)
    requires Exclusive(w)
    ensures Exclusive(Kill(w, boot))
  {
    KillKeeps(w, boot);
    hide Ordered;
  }

  lemma StopExclusive(w: World, looks: bool, r: StopResult, written: bool)
    requires Exclusive(w)
    ensures Exclusive(StopStep(w, looks, r, written))
  {
    StopOrdered(w, looks, r, written);
    KillExclusive(w, w.pid);
    hide Ordered;
  }

  lemma GuestExclusive(w: World, e: Event)
    requires Exclusive(w) && (e.GuestRead? || e.GuestWrite?)
    ensures Exclusive(Step(w, e))
  {
    StepOrdered(w, e);
    hide Ordered, StartStep, StopStep, Kill;
    assert e.boot in w.alive ==> e.boot == w.recordedBoot;
  }

  lemma TickExclusive(w: World)
    requires Exclusive(w)
    ensures Exclusive(w.(clock := w.clock + 1))
  {
    TickOrdered(w);
    hide Ordered;
  }

  /** A guest outside the record appears in a step exactly when the step is a start that lets one out. */
  lemma StepExclusive(w: World, e: Event)
    requires Exclusive(w)
    ensures Foreign(Step(w, e)) <==> Strays(w, e)
    ensures !Strays(w, e) ==> Exclusive(Step(w, e))
  {
    hide Ordered, StartStep, StopStep, Kill;
    var t := w.(clock := w.clock + 1);
    TickExclusive(w);
    match e
    case Start(looks, r) =>
      if !Owned(w, looks) {
        TickOrdered(w);
        StartOrdered(t, r);
        StartForeign(t, looks, r);
        if !Strays(w, e) {
          StartExclusive(t, looks, r);
        }
      }
    case Stop(looks, r, written) => StopExclusive(t, looks, r, written);
    case Die(boot) => KillExclusive(t, boot);
    case GuestRead(_) => GuestExclusive(w, e);
    case GuestWrite(_, _) => GuestExclusive(w, e);
  }

  ghost predicate StraysBefore(worlds: seq<World>, events: seq<Event>, k: nat)
    requires k <= |events| && |worlds| == |events| + 1
  {
    exists i :: 0 <= i < k && Strays(worlds[i], events[i])
  }

  lemma {:induction false} RunsExclusive(worlds: seq<World>, events: seq<Event>, k: nat)
    requires IsRun(worlds, events) && k < |worlds| && !StraysBefore(worlds, events, k)
    ensures Exclusive(worlds[k])
  {
    hide Step, Strays;
    if k > 0 {
      RunsExclusive(worlds, events, k - 1);
      StepExclusive(worlds[k - 1], events[k - 1]);
    } else {
      FreshExclusive();
    }
  }

  lemma FreshExclusive()
    ensures Exclusive(FRESH)
  {
  }

  /**
   In every run, some guest outside the record has been alive by step `k` exactly when some start let one out before.
   */
  lemma ForeignExactly(worlds: seq<World>, events: seq<Event>, k: nat)
    requires IsRun(worlds, events) && k < |worlds|
    ensures (exists n :: 0 <= n <= k && Foreign(worlds[n])) <==> StraysBefore(worlds, events, k)
  {
    hide Step, Strays, Foreign;
    if StraysBefore(worlds, events, k) {
      var i := FirstStray(worlds, events, k);
      RunsExclusive(worlds, events, i);
      StepExclusive(worlds[i], events[i]);
      assert Foreign(worlds[i + 1]);
    } else {
      forall n | 0 <= n <= k ensures !Foreign(worlds[n]) {
        RunsExclusive(worlds, events, n);
        NotForeign(worlds[n]);
      }
    }
  }

  lemma NotForeign(w: World)
    requires Exclusive(w)
    ensures !Foreign(w)
  {
  }

  lemma {:induction false} FirstStray(worlds: seq<World>, events: seq<Event>, k: nat) returns (i: nat)
    requires |worlds| == |events| + 1 && k <= |events| && StraysBefore(worlds, events, k)
    ensures i < k && Strays(worlds[i], events[i]) && !StraysBefore(worlds, events, i)
  {
    hide Strays;
    if StraysBefore(worlds, events, k - 1) {
      i := FirstStray(worlds, events, k - 1);
    } else {
      i := k - 1;
    }
  }

  // ---- what a caller can avoid ----

  /** A process lookup that fails on the live recorded VM, while starting it or while stopping it. */
  predicate LookupFails(w: World, e: Event) {
    || (e.Start? && !e.looks && w.pid in w.alive)
    || (e.Stop? && w.pid in w.alive && (!e.looks || e.outcome == Misjudged))
  }

  predicate Lingers(e: Event) { e.Start? && e.result == RecordFails(true) }

  /** The recorded boot, when it runs, is known to run. */
  predicate Known(w: World) { w.recordedBoot in w.alive ==> w.pid == w.recordedBoot }

  lemma StepKnown(w: World, e: Event)
    requires Exclusive(w) && Known(w) && !LookupFails(w, e) && !Lingers(e)
    ensures !Strays(w, e) && Known(Step(w, e))
  {
    assert w.alive != {} ==> w.recordedBoot in w.alive;
  }

  /** Lookups that work and failed starts that end their VM are enough: no guest ever runs outside the record. */
  lemma {:induction false} RunsKnown(worlds: seq<World>, events: seq<Event>, k: nat)
    requires IsRun(worlds, events) && k < |worlds|
    requires forall i :: 0 <= i < k ==> !LookupFails(worlds[i], events[i]) && !Lingers(events[i])
    ensures Known(worlds[k]) && !StraysBefore(worlds, events, k)
  {
    hide Step, Strays, LookupFails, Exclusive;
    if k > 0 {
      RunsKnown(worlds, events, k - 1);
      RunsExclusive(worlds, events, k - 1);
      StepKnown(worlds[k - 1], events[k - 1]);
    }
  }

  // ---- addresses ----

  /**
   In every run an address is in the node's own pool, carries the last recorded generation, and was reported after
   that generation was made.
   */
  lemma AddressIsCurrent(worlds: seq<World>, events: seq<Event>, k: nat, id: Identity)
    requires IsRun(worlds, events) && k < |worlds| && NodeAddress(worlds[k], id).Some?
    ensures var w, ip := worlds[k], NodeAddress(worlds[k], id).value;
            && ValidIp(id, ip)
            && w.report.value.generation == w.recordedGen != 0
            && w.recordedGen in w.bornAt && w.bornAt[w.recordedGen] <= w.reportAt
  {
    hide Step;
    RunsOrdered(worlds, events, k);
  }

  /** As long as no start let a guest out of the record, the address was reported by the boot that is recorded. */
  lemma AddressFromRecordedBoot(worlds: seq<World>, events: seq<Event>, k: nat, id: Identity)
    requires IsRun(worlds, events) && k < |worlds| && NodeAddress(worlds[k], id).Some?
            && !StraysBefore(worlds, events, k)
    ensures worlds[k].reportBoot == worlds[k].recordedBoot
  {
    hide Step, Strays;
    RunsExclusive(worlds, events, k);
  }

  /** A VM left behind by a failed start reads the next generation and its address is taken for the next boot's. */
  lemma LingeringGuestMisleads(id: Identity, report: Report)
    requires Accepts(id, 2, report)
    ensures var e := [Start(true, RecordFails(true)), Start(true, Started), GuestRead(1), GuestWrite(1, report)];
            exists worlds: seq<World> :: IsRun(worlds, e) && Misled(worlds[4], id, report)
  {
    var e := [Start(true, RecordFails(true)), Start(true, Started), GuestRead(1), GuestWrite(1, report)];
    var w1 := Step(FRESH, e[0]);
    var w2 := Step(w1, e[1]);
    assert w1.recordedBoot == 0 && w1.alive == {1} && w1.lastGen == 1;
    assert w2.alive == {1, 2} && w2.fileGen == 2 == w2.recordedGen && w2.recordedBoot == 2;
    var w3, w4 := OldGuestReports(w2, id, report);
    assert IsRun([FRESH, w1, w2, w3, w4], e);
  }

  /** A start whose lookup fails on the running VM: the old boot's address is taken for the new one's. */
  lemma UnownedStartMisleads(id: Identity, report: Report)
    requires Accepts(id, 2, report)
    ensures var e := [Start(true, Started), Start(false, Started), GuestRead(1), GuestWrite(1, report)];
            exists worlds: seq<World> :: IsRun(worlds, e) && Misled(worlds[4], id, report)
  {
    var e := [Start(true, Started), Start(false, Started), GuestRead(1), GuestWrite(1, report)];
    var w1 := Step(FRESH, e[0]);
    var w2 := Step(w1, e[1]);
    assert w1.recordedBoot == 1 && w1.alive == {1} && w1.lastGen == 1;
    assert w2.alive == {1, 2} && w2.fileGen == 2 == w2.recordedGen && w2.recordedBoot == 2;
    var w3, w4 := OldGuestReports(w2, id, report);
    assert IsRun([FRESH, w1, w2, w3, w4], e);
  }

  /** The address of boot 1 is returned for recorded boot 2. */
  predicate Misled(w: World, id: Identity, report: Report) {
    NodeAddress(w, id) == Some(report.ip) && w.reportBoot == 1 && w.recordedBoot == 2
  }

  lemma OldGuestReports(w: World, id: Identity, report: Report) returns (read: World, wrote: World)
    requires Accepts(id, 2, report) && 1 in w.alive && w.fileGen == 2 == w.recordedGen && w.recordedBoot == 2
    ensures read == Step(w, GuestRead(1)) && wrote == Step(read, GuestWrite(1, report)) && Misled(wrote, id, report)
  {
    read := Step(w, GuestRead(1));
    wrote := Step(read, GuestWrite(1, report));
    assert read.pending[1] == 2 && wrote.report == Some(report);
  }

  /** Steps of one guest's reporter: any reads of the generation and any writes of the report. */
  predicate GuestSteps(events: seq<Event>, boot: nat) {
    forall k :: 0 <= k < |events| ==> (events[k].GuestRead? || events[k].GuestWrite?) && events[k].boot == boot
  }

  function After(w: World, events: seq<Event>): World {
    if events == [] then w else Step(After(w, events[..|events| - 1]), events[|events| - 1])
  }

  /** A report written since `w` is taken for the recorded boot's and is not. */
  predicate Deceived(w: World, after: World, id: Identity) {
    NodeAddress(after, id).Some? && after.reportAt > w.clock && after.reportBoot != after.recordedBoot
  }

  /** A generation the guest has read, or can read. */
  predicate Within(w: World, boot: nat, generation: nat) {
    generation == w.fileGen || (boot in w.pending && generation == w.pending[boot])
  }

  /** A report that this guest wrote under such a generation. */
  predicate Wrote(w: World, boot: nat, after: World) {
    boot in w.alive && after.report.Some? && after.reportBoot == boot && Within(w, boot, after.report.value.generation)
  }

  /** All that a guest's steps change: what it has read, and the report. */
  lemma {:induction false} GuestStepsOnly(w: World, events: seq<Event>, boot: nat)
    requires GuestSteps(events, boot)
    ensures var after := After(w, events);
            && after.recordedGen == w.recordedGen && after.recordedBoot == w.recordedBoot && after.fileGen == w.fileGen
            && after.alive == w.alive
            && (boot in after.pending ==> Within(w, boot, after.pending[boot]))
            && ((after.report == w.report && after.reportAt == w.reportAt) || Wrote(w, boot, after))
  {
    if events != [] {
      GuestStepsOnly(w, events[..|events| - 1], boot);
    }
  }

  /**
   From any world, a guest can pass off its address as the recorded boot's exactly when it is alive, is not
   that boot, and has read the recorded generation or can still read it.
   */
  lemma MisleadsExactly(w: World, boot: nat, id: Identity)
    requires Ordered(w)
    ensures (exists events :: GuestSteps(events, boot) && Deceived(w, After(w, events), id)) <==>
            && boot in w.alive && boot != w.recordedBoot && Within(w, boot, w.recordedGen)
            && w.recordedGen != 0 && id.networkOctet == Some(id.recordedOctet)
  {
    hide Step, After, Ordered;
    if events :| GuestSteps(events, boot) && Deceived(w, After(w, events), id) {
      GuestStepsOnly(w, events, boot);
      NothingFromAfter(w);
    }
    if boot in w.alive && boot != w.recordedBoot && Within(w, boot, w.recordedGen)
       && w.recordedGen != 0 && id.networkOctet == Some(id.recordedOctet) {
      var events := Deceive(w, boot, id);
    }
  }

  lemma NothingFromAfter(w: World)
    requires Ordered(w)
    ensures w.report.Some? ==> w.reportAt <= w.clock
  {
  }

  lemma AfterSnoc(w: World, events: seq<Event>, e: Event)
    ensures After(w, events + [e]) == Step(After(w, events), e)
  {
    assert (events + [e])[..|events|] == events;
  }

  lemma Deceive(w: World, boot: nat, id: Identity) returns (events: seq<Event>)
    requires boot in w.alive && boot != w.recordedBoot && Within(w, boot, w.recordedGen)
    requires w.recordedGen != 0 && id.networkOctet == Some(id.recordedOctet)
    ensures GuestSteps(events, boot) && Deceived(w, After(w, events), id)
  {
    var report := Report(1, id.name, id.mac, w.recordedGen, Ip(192, 168, id.recordedOctet, 2));
    var write := GuestWrite(boot, report);
    hide After;
    var none: seq<Event> := [];
    assert After(w, none) == w by { AfterNone(w); }
    if w.fileGen == w.recordedGen {
      AfterSnoc(w, none, GuestRead(boot));
      AfterSnoc(w, none + [GuestRead(boot)], write);
      events := none + [GuestRead(boot)] + [write];
    } else {
      AfterSnoc(w, none, write);
      events := none + [write];
    }
    assert After(w, events).report == Some(report);
  }

  lemma AfterNone(w: World)
    ensures After(w, []) == w
  {
  }

  /** A start past preparation leaves no address until a guest reports again. */
  lemma NoReportSurvivesAStart(w: World, looks: bool, r: StartResult, id: Identity)
    requires Ordered(w) && !Owned(w, looks) && !r.PrepareFails?
    ensures NodeAddress(Step(w, Start(looks, r)), id) == None
  {
  }
}
