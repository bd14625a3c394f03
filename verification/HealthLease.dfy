/**
 The GPU health lease: a watchdog probes and publishes a report file, a monitor reads it, and devices
 are handed out only on a fresh healthy report. The clock, file contents and stalls are events, in any
 interleaving. Times are integer nanoseconds on the VM's clock.
 */
module HealthLease {
  import opened Options

  const SECOND: int := 1_000_000_000
  const MAX_AGE: int := 20 * SECOND
  const ZERO_TIME: int := -62135596800 * SECOND

  const DEVICE := "venus-0"
  const DRIVER := "gpu.kiac.dev"

  datatype Identity = Identity(podUID: string, nodeName: string, bootID: string)

  datatype Report = Report(version: int, who: Identity, healthy: bool, checkedAt: int, message: string)

  /** What reading the file gives: an error, or one bounded report. */
  datatype View = Unreadable(error: string) | Holds(report: Report)

  datatype HealthState = HealthState(healthy: bool, checkedAt: int, message: string)

  const INITIAL_STATE := HealthState(false, ZERO_TIME, "waiting for a fresh Vulkan transfer probe")

  predicate Mine(me: Identity, r: Report) { r.version == 1 && me.podUID != "" && me.bootID != "" && r.who == me }

  predicate Fresh(r: Report, now: int) { r.checkedAt != ZERO_TIME && -SECOND <= now - r.checkedAt <= MAX_AGE }

  function ReadReport(me: Identity, view: View, now: int): HealthState {
    if view.Unreadable? then HealthState(false, ZERO_TIME, view.error)
    else if !Mine(me, view.report) then
      HealthState(false, ZERO_TIME, "Vulkan health report identity does not match this Pod and VM boot")
    else if !Fresh(view.report, now) then
      HealthState(false, ZERO_TIME, "Vulkan health report is stale or has an invalid timestamp")
    else if |view.report.message| > 1024 then HealthState(false, ZERO_TIME, "Vulkan health message exceeds limit")
    else HealthState(view.report.healthy, view.report.checkedAt, view.report.message)
  }

  /** What a snapshot shows: a stored good state only as long as its lease lasts. */
  function Shown(s: HealthState, now: int): HealthState {
    if s.healthy && now - s.checkedAt > MAX_AGE then s.(healthy := false, message := "Vulkan health report expired")
    else s
  }

  // ---- what is handed out ----

  datatype Result = Result(driver: string, pool: string, device: string, request: string)

  datatype Claim = Claim(allocation: Option<seq<Result>>)

  /** When a claim is looked at, whether the render device was there, and what the monitor stored just before. */
  datatype Moment = Moment(now: int, renderPresent: bool, stored: Option<HealthState>)

  /** The monitor's state once the refreshes before and between some claims have been stored. */
  function StateAfter(s: HealthState, moments: seq<Moment>): HealthState {
    if moments == [] then s
    else
      var last := moments[|moments| - 1];
      if last.stored.Some? then last.stored.value else StateAfter(s, moments[..|moments| - 1])
  }

  /** The device may be handed out at that moment, by the state stored then. */
  predicate AvailableAt(s: HealthState, moments: seq<Moment>, i: nat)
    requires i < |moments|
  {
    Shown(StateAfter(s, moments[..i + 1]), moments[i].now).healthy && moments[i].renderPresent
  }

  /** Every result of this driver names this node's one device. */
  predicate AllKnown(node: string, results: seq<Result>) {
    forall i :: 0 <= i < |results| && results[i].driver == DRIVER ==>
        results[i].pool == node && results[i].device == DEVICE
  }

  /** The requests met by this driver, in order. */
  function Requests(results: seq<Result>): seq<string> {
    if results == [] then []
    else
      var a := results[|results| - 1];
      Requests(results[..|results| - 1]) + if a.driver == DRIVER then [a.request] else []
  }

  /** A claim gets devices for all its own requests or none at all. */
  function Prepared(node: string, c: Claim, available: bool): Option<seq<string>> {
    if available && c.allocation.Some? && AllKnown(node, c.allocation.value) && Requests(c.allocation.value) != []
    then Some(Requests(c.allocation.value)) else None
  }

  // ---- taints ----

  const TAINT := "gpu.kiac.dev/unhealthy"

  datatype Taint = Taint(key: string, effect: string)

  function Others(taints: seq<Taint>): seq<Taint> {
    if taints == [] then []
    else
      var t := taints[|taints| - 1];
      Others(taints[..|taints| - 1]) + if t.key == TAINT then [] else [t]
  }

  predicate Tainted(taints: seq<Taint>) { exists i :: 0 <= i < |taints| && taints[i].key == TAINT }

  lemma {:induction false} OthersFree(taints: seq<Taint>)
    ensures !Tainted(Others(taints)) && Others(Others(taints)) == Others(taints)
  {
    if taints != [] {
      var init, t := taints[..|taints| - 1], taints[|taints| - 1];
      OthersFree(init);
      if t.key != TAINT {
        assert (Others(init) + [t])[..|Others(init)|] == Others(init);
      } else {
        assert Others(taints) == Others(init);
      }
    }
  }

  /** The health taint is there exactly when unhealthy, once and last; every other taint stays in place. */
  method ApplyResourceHealth(taints: seq<Taint>, healthy: bool) returns (r: seq<Taint>)
    ensures Tainted(r) <==> !healthy
    ensures Others(r) == Others(taints)
    ensures r == Others(taints) + if healthy then [] else [Taint(TAINT, "NoSchedule")]
  {
    r := [];
    for i := 0 to |taints|
      invariant r == Others(taints[..i])
    {
      assert taints[..i + 1][..i] == taints[..i];
      if taints[i].key != TAINT {
        r := r + [taints[i]];
      }
    }
    assert taints[..|taints|] == taints;
    OthersFree(taints);
    if !healthy {
      var more := r + [Taint(TAINT, "NoSchedule")];
      assert more[..|r|] == r && more[|r|].key == TAINT;
      r := more;
    }
  }

  // ---- the monitor object ----

  class HealthMonitor {
    const me: Identity
    var state: HealthState
    var changed: nat
    var closed: set<nat>

    constructor (who: Identity)
      ensures me == who && state == INITIAL_STATE && Open()
    {
      me, state, changed, closed := who, INITIAL_STATE, 0, {};
    }

    /** The current channel is open; every earlier one is closed. */
    ghost predicate Open()
      reads this
    {
      forall c: nat :: c in closed <==> c < changed
    }

    /** A refresh whose reading was done earlier; a change closes the channel handed out so far. */
    method Commit(read: HealthState)
      requires Open()
      modifies this
      ensures Open() && state == read
      ensures changed == old(changed) <==> read == old(state)
      ensures old(changed) in closed <==> read != old(state)
    {
      if read != state {
        state := read;
        closed := closed + {changed};
        changed := changed + 1;
      }
    }

    method Snapshot(now: int) returns (s: HealthState, channel: nat)
      ensures s == Shown(state, now) && channel == changed
    {
      s := state;
      if s.healthy && now - s.checkedAt > MAX_AGE {
        s := s.(healthy := false, message := "Vulkan health report expired");
      }
      channel := changed;
    }

    /** Every container asks for exactly the one device; the answer has one response per container. */
    method Allocate(now: int, renderPresent: bool, requests: seq<seq<string>>) returns (granted: Option<nat>)
      ensures granted.Some? <==>
                && Shown(state, now).healthy && renderPresent
                && forall i :: 0 <= i < |requests| ==> requests[i] == [DEVICE]
      ensures granted.Some? ==> granted.value == |requests|
    {
      var s, _ := Snapshot(now);
      if !s.healthy || !renderPresent {
        return None;
      }
      var responses := 0;
      for i := 0 to |requests|
        invariant responses == i && forall k :: 0 <= k < i ==> requests[k] == [DEVICE]
      {
        if |requests[i]| != 1 || requests[i][0] != DEVICE {
          assert requests[i] != [DEVICE];
          return None;
        }
        assert requests[i] == [DEVICE];
        responses := responses + 1;
      }
      return Some(responses);
    }

    /** Claims one after the other, each against the monitor at its own moment, while the monitor goes on. */
    method PrepareResourceClaims(node: string, claims: seq<Claim>, moments: seq<Moment>)
      returns (r: seq<Option<seq<string>>>)
      requires |moments| == |claims| && Open()
      modifies this
      ensures |r| == |claims| && Open() && state == StateAfter(old(state), moments)
      ensures forall i :: 0 <= i < |claims| ==> r[i] == Prepared(node, claims[i], AvailableAt(old(state), moments, i))
    {
      r := [];
      for i := 0 to |claims|
        invariant |r| == i && Open() && state == StateAfter(old(state), moments[..i])
        invariant forall k :: 0 <= k < i ==> r[k] == Prepared(node, claims[k], AvailableAt(old(state), moments, k))
      {
        assert moments[..i + 1][..i] == moments[..i];
        if moments[i].stored.Some? {
          Commit(moments[i].stored.value);
        }
        var s, _ := Snapshot(moments[i].now);
        if !s.healthy || !moments[i].renderPresent || claims[i].allocation.None? {
          r := r + [None];
          continue;
        }
        var devices := PrepareAllocation(node, claims[i].allocation.value);
        r := r + [devices];
      }
      assert moments[..|moments|] == moments;
    }

    method PrepareAllocation(node: string, results: seq<Result>) returns (devices: Option<seq<string>>)
      ensures devices == if AllKnown(node, results) && Requests(results) != [] then Some(Requests(results)) else None
    {
      var found: seq<string> := [];
      for i := 0 to |results|
        invariant found == Requests(results[..i]) && AllKnown(node, results[..i])
      {
        assert results[..i + 1][..i] == results[..i];
        var a := results[i];
        if a.driver != DRIVER {
          continue;
        }
        if a.pool != node || a.device != DEVICE {
          return None;
        }
        found := found + [a.request];
      }
      assert results[..|results|] == results;
      return if found == [] then None else Some(found);
    }
  }

  // ---- every interleaving ----

  /**
   The whole system. `proven` holds the clock readings at which a probe of this Pod and boot passed;
   `finished` is a probe result not yet in the file, `reading` a refresh stalled before it commits,
   `deciding` a publisher between its snapshot and its publication, `published` what the API last got.
   */
  datatype World = World(
    now: int, view: View, proven: set<int>, finished: Option<Report>,
    stored: HealthState, channel: nat, closed: set<nat>, reading: Option<HealthState>,
    published: bool, previous: bool, deciding: Option<bool>)

  /**
   A read uses the clock reading taken before the file was opened, however long ago. A publication may
   take effect without being reported and the other way round. A restart is that of the driver's container,
   in the same Pod and boot.
   */
  datatype Event =
    | Tick(to: int)
    | ProbeDone(passed: bool, message: string)
    | PublishReport
    | ForeignWrite(view: View)
    | ReadFile(clock: int)
    | CommitRead
    | Decide
    | PublishTaint(applied: bool, reported: bool)
    | Restart

  predicate Possible(me: Identity, w: World, e: Event) {
    match e
    case Tick(_) => true
    case ProbeDone(_, _) => true
    case PublishReport => w.finished.Some?
    case ForeignWrite(view) => view.Holds? ==> !Mine(me, view.report)
    case ReadFile(_) => w.reading.None?
    case CommitRead => w.reading.Some?
    case Decide => w.deciding.None?
    case PublishTaint(_, _) => w.deciding.Some?
    case Restart => true
  }

  function Step(me: Identity, w: World, e: Event): World
    requires Possible(me, w, e)
  {
    match e
    case Tick(to) => w.(now := to)
    case ProbeDone(passed, message) =>
      w.(finished := Some(Report(1, me, passed, w.now, if |message| > 1024 then message[..1024] else message)),
         proven := if passed then w.proven + {w.now} else w.proven)
    case PublishReport => w.(view := Holds(w.finished.value), finished := None)
    case ForeignWrite(view) => w.(view := view)
    case ReadFile(clock) => w.(reading := Some(ReadReport(me, w.view, clock)))
    case CommitRead =>
      var read := w.reading.value;
      if read == w.stored then w.(reading := None)
      else w.(reading := None, stored := read, closed := w.closed + {w.channel}, channel := w.channel + 1)
    case Decide =>
      var healthy := Shown(w.stored, w.now).healthy;
      if healthy == w.previous then w else w.(deciding := Some(healthy))
    case PublishTaint(applied, reported) =>
      var decided := w.deciding.value;
      w.(deciding := None, published := if applied then decided else w.published,
         previous := if reported then decided else w.previous)
    case Restart =>
      w.(stored := INITIAL_STATE, channel := w.channel + 1, closed := w.closed + {w.channel}, reading := None,
         published := false, previous := false, deciding := None)
  }

  /** A stored or travelling good state stems from a passed probe. */
  predicate Earned(w: World, s: HealthState) { s.healthy ==> s.checkedAt in w.proven }

  predicate EarnedReport(me: Identity, w: World, r: Report) { Mine(me, r) && r.healthy ==> r.checkedAt in w.proven }

  ghost predicate Inv(me: Identity, w: World) {
    && Earned(w, w.stored) && (w.reading.Some? ==> Earned(w, w.reading.value))
    && (w.view.Holds? ==> EarnedReport(me, w, w.view.report))
    && (w.finished.Some? ==> EarnedReport(me, w, w.finished.value))
    && (forall c: nat :: c in w.closed <==> c < w.channel)
    && (w.deciding.Some? ==> w.deciding.value != w.previous)
  }

  /** A run begins with the Pod, before any report of it; restarts of its containers are steps of the run. */
  predicate Initial(me: Identity, w: World) {
    && (w.view.Holds? ==> !Mine(me, w.view.report)) && w.proven == {} && w.finished.None? && w.stored == INITIAL_STATE
    && w.channel == 0 && w.closed == {} && w.reading.None? && !w.published && !w.previous && w.deciding.None?
  }

  predicate IsRun(me: Identity, states: seq<World>, events: seq<Event>) {
    && |states| == |events| + 1 && Initial(me, states[0])
    && forall i :: 0 <= i < |events| ==>
        Possible(me, states[i], events[i]) && states[i + 1] == Step(me, states[i], events[i])
  }

  lemma StepKeepsInv(me: Identity, w: World, e: Event)
    requires Inv(me, w) && Possible(me, w, e)
    ensures Inv(me, Step(me, w, e))
  {
    hide ReadReport, Shown;
    if e.ReadFile? {
      ReadEarned(me, w, e.clock);
    }
  }

  lemma ReadEarned(me: Identity, w: World, clock: int)
    requires w.view.Holds? ==> EarnedReport(me, w, w.view.report)
    ensures Earned(w, ReadReport(me, w.view, clock))
  {
  }

  lemma {:induction false} RunsKeepInv(me: Identity, states: seq<World>, events: seq<Event>, n: nat)
    requires IsRun(me, states, events) && n < |states|
    ensures Inv(me, states[n])
  {
    if n > 0 {
      RunsKeepInv(me, states, events, n - 1);
      StepKeepsInv(me, states[n - 1], events[n - 1]);
    }
  }

  /** A clock reading counts as proven only through a passed probe of this Pod and boot at that reading. */
  lemma {:induction false} ProvenByProbe(me: Identity, states: seq<World>, events: seq<Event>, n: nat, t: int)
    returns (i: nat)
    requires IsRun(me, states, events) && n < |states| && t in states[n].proven
    ensures i < n && events[i].ProbeDone? && events[i].passed && states[i].now == t
  {
    var last := n - 1;
    if t in states[last].proven {
      i := ProvenByProbe(me, states, events, last, t);
    } else {
      i := last;
    }
  }

  /** Whatever is handed out rests on a probe that passed at most 20 seconds ago, however the monitor stalls. */
  lemma HandOutIsFresh(me: Identity, states: seq<World>, events: seq<Event>, n: nat) returns (i: nat)
    requires IsRun(me, states, events) && n < |states| && Shown(states[n].stored, states[n].now).healthy
    ensures i < n && events[i].ProbeDone? && events[i].passed && states[n].now - states[i].now <= MAX_AGE
  {
    RunsKeepInv(me, states, events, n);
    i := ProvenByProbe(me, states, events, n, states[n].stored.checkedAt);
  }

  /** Only own reports are believed: with none published, nothing is ever handed out. */
  lemma NothingWithoutAProbe(me: Identity, states: seq<World>, events: seq<Event>, n: nat)
    requires IsRun(me, states, events) && n < |states|
    requires forall k :: 0 <= k < n ==> !(events[k].ProbeDone? && events[k].passed)
    ensures !Shown(states[n].stored, states[n].now).healthy
  {
    if Shown(states[n].stored, states[n].now).healthy {
      var i := HandOutIsFresh(me, states, events, n);
    }
  }

  /** A channel that is still open says the stored state is the one the snapshot saw. */
  lemma {:induction false} OpenChannelMeansUnchanged(me: Identity, states: seq<World>, events: seq<Event>, i: nat,
        j: nat)
    requires IsRun(me, states, events) && i <= j < |states| && states[i].channel !in states[j].closed
    ensures states[j].stored == states[i].stored && states[j].channel == states[i].channel
    decreases j
  {
    hide Step, Initial, Inv;
    RunsKeepInv(me, states, events, i);
    if i < j {
      RunsKeepInv(me, states, events, j - 1);
      StepChannel(me, states[j - 1], events[j - 1]);
      OpenChannelMeansUnchanged(me, states, events, i, j - 1);
    }
  }

  lemma StepChannel(me: Identity, w: World, e: Event)
    requires Inv(me, w) && Possible(me, w, e)
    ensures var next := Step(me, w, e);
            && w.closed <= next.closed
            && (w.channel !in next.closed ==> next.channel == w.channel && next.stored == w.stored)
  {
    hide ReadReport, Shown;
  }

  /** And a closed one says it changed: a later commit stored something else, or the driver was restarted. */
  lemma {:induction false} ClosedChannelMeansChanged(me: Identity, states: seq<World>, events: seq<Event>, i: nat,
        j: nat) returns (k: nat)
    requires IsRun(me, states, events) && i <= j < |states| && states[i].channel in states[j].closed
    ensures i <= k < j && states[k].stored == states[i].stored
    ensures events[k] == Restart || (events[k] == CommitRead && states[k + 1].stored != states[i].stored)
    decreases j
  {
    RunsKeepInv(me, states, events, i);
    RunsKeepInv(me, states, events, j);
    if states[i].channel in states[j - 1].closed {
      k := ClosedChannelMeansChanged(me, states, events, i, j - 1);
    } else {
      k := j - 1;
      OpenChannelMeansUnchanged(me, states, events, i, k);
    }
  }

  /**
   Whether the publisher's memory agrees with the API, from the outcomes of its calls alone: a call whose
   effect and answer differ breaks the agreement, the next one that is answered restores it.
   */
  predicate Agree(events: seq<Event>, n: nat)
    requires n <= |events|
  {
    n == 0 ||
    match events[n - 1]
    case PublishTaint(applied, reported) => if Agree(events, n - 1) then applied == reported else reported
    case Restart => true
    case _ => Agree(events, n - 1)
  }

  /** The last taint state published is the one remembered exactly when the outcomes of the calls agree as above. */
  lemma {:induction false} PreviousIsPublishedExactly(me: Identity, states: seq<World>, events: seq<Event>, n: nat)
    requires IsRun(me, states, events) && n < |states|
    ensures states[n].published == states[n].previous <==> Agree(events, n)
  {
    hide Step, Initial, Inv;
    if n == 0 {
      FirstUnpublished(me, states[0]);
    } else {
      PreviousIsPublishedExactly(me, states, events, n - 1);
      RunsKeepInv(me, states, events, n - 1);
      StepPublishes(me, states[n - 1], events[n - 1]);
    }
  }

  /** What the API says about the device is not what a snapshot shows. */
  predicate Wrong(w: World) { w.published != Shown(w.stored, w.now).healthy }

  /**
   In every run, with no publication under way, the publisher leaves a wrong published state alone exactly
   when its memory disagrees with the API and equals the shown health.
   */
  lemma LeftWrongExactly(me: Identity, states: seq<World>, events: seq<Event>, n: nat)
    requires IsRun(me, states, events) && n < |states| && states[n].deciding.None?
    ensures var w := states[n];
            Wrong(w) && Step(me, w, Decide) == w <==> !Agree(events, n) && w.previous == Shown(w.stored, w.now).healthy
  {
    hide IsRun, Agree, Shown;
    PreviousIsPublishedExactly(me, states, events, n);
  }

  /** No restart, and whenever the publisher looks, the shown health is the one it remembers. */
  predicate NothingNew(states: seq<World>, events: seq<Event>, i: nat, j: nat)
    requires |states| == |events| + 1 && j <= |events|
  {
    forall k :: i <= k < j ==>
      && events[k] != Restart
      && (events[k] == Decide ==> Shown(states[k].stored, states[k].now).healthy == states[k].previous)
  }

  /** Nothing else mends it: memory and API stay as they are until the shown health changes or the driver restarts. */
  lemma {:induction false} StaysPublished(me: Identity, states: seq<World>, events: seq<Event>, i: nat, j: nat)
    requires IsRun(me, states, events) && i <= j < |states| && states[i].deciding.None?
    requires NothingNew(states, events, i, j)
    ensures states[j].published == states[i].published && states[j].previous == states[i].previous
    ensures states[j].deciding.None?
    decreases j
  {
    hide ReadReport, Shown, Initial;
    if i < j {
      StaysPublished(me, states, events, i, j - 1);
      assert Possible(me, states[j - 1], events[j - 1]) && states[j] == Step(me, states[j - 1], events[j - 1]);
    }
  }

  /** A healthy state takes effect in the API but the call reports failure; then the lease runs out. */
  function LostAnswer(t: int): seq<Event> {
    [ProbeDone(true, ""), PublishReport, ReadFile(t), CommitRead, Decide, PublishTaint(true, false),
     Tick(t + MAX_AGE + SECOND)]
  }

  /** The failing run: the device is shown unhealthy, the API has it untainted, and the publisher does nothing. */
  lemma UntaintedWhileUnhealthy(me: Identity, t: int) returns (states: seq<World>)
    requires me.podUID != "" && me.bootID != "" && t != ZERO_TIME
    ensures IsRun(me, states, LostAnswer(t)) && |states| == 8
    ensures var w := states[7];
            && w.published && !Shown(w.stored, w.now).healthy && w.deciding.None?
            && Step(me, w, Decide) == w && !Agree(LostAnswer(t), 7)
  {
    var events := LostAnswer(t);
    var w0 := World(t, Unreadable(""), {}, None, INITIAL_STATE, 0, {}, None, false, false, None);
    var w2 := Step(me, Step(me, w0, events[0]), events[1]);
    var report := Report(1, me, true, t, "");
    assert w2 == w0.(view := Holds(report), proven := {t});
    var w4 := Step(me, Step(me, w2, events[2]), events[3]);
    assert w4 == w2.(stored := HealthState(true, t, ""), channel := 1, closed := {0});
    var w6 := Step(me, Step(me, w4, events[4]), events[5]);
    assert w6 == w4.(published := true);
    states := [w0, Step(me, w0, events[0]), w2, Step(me, w2, events[2]), w4, Step(me, w4, events[4]), w6,
               Step(me, w6, events[6])];
    hide Agree;
    PreviousIsPublishedExactly(me, states, events, 7);
  }

  lemma StepPublishes(me: Identity, w: World, e: Event)
    requires Inv(me, w) && Possible(me, w, e)
    ensures var next := Step(me, w, e);
            var agreed := w.published == w.previous;
            (next.published == next.previous) ==
            match e
            case PublishTaint(applied, reported) => if agreed then applied == reported else reported
            case Restart => true
            case _ => agreed
  {
    hide ReadReport, Shown;
  }

  lemma FirstUnpublished(me: Identity, w: World)
    requires Initial(me, w)
    ensures !w.previous && !w.published
  {
  }
}
