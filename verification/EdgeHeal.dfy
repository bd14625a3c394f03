/**
 Healing of the edge proxy's credentials on one node: a marker, a file and a service changed in a fixed
 order, while the service may crash, be restarted by systemd or go down with the VM at any moment, and
 the healing itself may be interrupted after any step. Files are compared by content for their digests.
 */
module EdgeHeal {
  import opened Options

  /** `proxy` is the file content the running proxy was started on; `hooks` its iptables hooks. */
  datatype Node = Node(file: string, marker: bool, proxy: Option<string>, hooks: bool)

  /** How far a healing towards some content has got. */
  datatype Progress =
    | Idle
    | Outdated(want: string)
    | Touched(want: string)
    | Current(want: string)
    | Restarted(want: string)

  datatype World = World(node: Node, at: Progress)

  /** A restart that fails may have stopped the proxy or left it as it was. */
  datatype Outcome = Worked | Stopped | Kept

  datatype Event =
    | Check(want: string)
    | TouchMarker
    | MoveFile
    | Restart(outcome: Outcome)
    | RemoveMarker
    | Interrupt
    | Crash
    | Revive
    | LoseHooks

  predicate Healthy(n: Node) { !n.marker && n.proxy.Some? && n.hooks }

  predicate Possible(w: World, e: Event) {
    match e
    case Check(_) => w.at.Idle?
    case TouchMarker => w.at.Outdated?
    case MoveFile => w.at.Touched?
    case Restart(_) => w.at.Current?
    case RemoveMarker => w.at.Restarted?
    case Revive => w.node.proxy.None?
    case _ => true
  }

  function Step(w: World, e: Event): World
    requires Possible(w, e)
  {
    match e
    case Check(want) =>
      w.(at := if w.node.file != want then Outdated(want) else if Healthy(w.node) then Idle else Current(want))
    case TouchMarker => World(w.node.(marker := true), Touched(w.at.want))
    case MoveFile => World(w.node.(file := w.at.want), Current(w.at.want))
    case Restart(outcome) =>
      (match outcome
       case Worked => World(w.node.(proxy := Some(w.node.file), hooks := true), Restarted(w.at.want))
       case Stopped => World(w.node.(proxy := None), Idle)
       case Kept => w.(at := Idle))
    case RemoveMarker => World(w.node.(marker := false), Idle)
    case Interrupt => w.(at := Idle)
    case Crash => w.(node := w.node.(proxy := None))
    case Revive => w.(node := w.node.(proxy := Some(w.node.file), hooks := true))
    case LoseHooks => w.(node := w.node.(hooks := false))
  }

  /** Without the marker an active proxy runs on the file in place. */
  predicate Settled(n: Node) { !n.marker && n.proxy.Some? ==> n.proxy.value == n.file }

  predicate Inv(w: World) {
    && Settled(w.node)
    && match w.at
       case Idle => true
       case Outdated(_) => true
       case Touched(_) => w.node.marker
       case Current(want) => w.node.file == want
       case Restarted(want) => w.node.file == want && (w.node.proxy.Some? ==> w.node.proxy.value == want)
  }

  predicate IsRun(states: seq<World>, events: seq<Event>) {
    && |states| == |events| + 1 && Inv(states[0])
    && forall i :: 0 <= i < |events| ==> Possible(states[i], events[i]) && states[i + 1] == Step(states[i], events[i])
  }

  /** Interrupted after any step, in any weather: no marker means the active proxy was started on the file in place. */
  lemma {:induction false} AlwaysSettled(states: seq<World>, events: seq<Event>, n: nat)
    requires IsRun(states, events) && n < |states|
    ensures Inv(states[n])
  {
    if n > 0 {
      AlwaysSettled(states, events, n - 1);
    }
  }

  predicate Weather(e: Event) { e.Crash? || e.Revive? || e.LoseHooks? }

  /** A healing that ends by removing its marker leaves the wanted file, no marker, and no proxy on anything else. */
  lemma CompletionReaches(states: seq<World>, events: seq<Event>, k: nat)
    requires IsRun(states, events) && k < |events| && events[k] == RemoveMarker
    ensures var want, n := states[k].at.want, states[k + 1].node;
            n.file == want && !n.marker && (n.proxy.Some? ==> n.proxy.value == want)
  {
    AlwaysSettled(states, events, k);
  }

  /**
   A proxy that is healthy and current is left alone: from its check until the next one nothing but weather changes
   the node.
   */
  lemma {:induction false} HealthyUntouched(states: seq<World>, events: seq<Event>, i: nat, j: nat)
    requires IsRun(states, events) && i < j <= |events|
    requires events[i].Check? && states[i].node.file == events[i].want && Healthy(states[i].node)
    requires forall k :: i < k < j ==> !events[k].Check?
    ensures states[j].at.Idle? && states[j].node.file == states[i].node.file && !states[j].node.marker
    ensures forall k :: i < k < j ==> Weather(events[k]) || events[k] == Interrupt
    decreases j
  {
    if i + 1 < j {
      HealthyUntouched(states, events, i, j - 1);
    }
  }

  // ---- the healing itself ----

  class EdgeNode {
    var world: World
    ghost var states: seq<World>
    ghost var events: seq<Event>

    constructor (n: Node)
      requires Settled(n)
      ensures Valid() && world == World(n, Idle) && events == []
    {
      world := World(n, Idle);
      states, events := [World(n, Idle)], [];
    }

    ghost predicate Valid()
      reads this
    {
      IsRun(states, events) && world == states[|states| - 1]
    }

    method Do(e: Event)
      requires Valid() && Possible(world, e)
      modifies this
      ensures Valid() && world == Step(old(world), e) && events == old(events) + [e] && old(states) <= states
    {
      world := Step(world, e);
      states, events := states + [world], events + [e];
    }

    /** What happens on the node between two steps. */
    method Suffer(weather: seq<Event>)
      requires Valid() && forall i :: 0 <= i < |weather| ==> Weather(weather[i])
      modifies this
      ensures Valid() && old(events) <= events && old(states) <= states
      ensures world.at == old(world).at && world.node.file == old(world).node.file
              && world.node.marker == old(world).node.marker
      ensures forall k :: |old(events)| <= k < |events| ==> Weather(events[k])
    {
      for i := 0 to |weather|
        invariant Valid() && old(events) <= events && old(states) <= states
        invariant world.at == old(world).at && world.node.file == old(world).node.file
                && world.node.marker == old(world).node.marker
        invariant forall k :: |old(events)| <= k < |events| ==> Weather(events[k])
      {
        if Possible(world, weather[i]) {
          Do(weather[i]);
        }
      }
    }

    /** From the file in place to a restarted proxy and no marker. */
    method Finish(budget: nat, outcome: Outcome, before: seq<Event>, after: seq<Event>) returns (done: bool)
      requires Valid() && world.at.Current? && world.node.file == world.at.want
      requires forall k :: 0 <= k < |before| ==> Weather(before[k])
      requires forall k :: 0 <= k < |after| ==> Weather(after[k])
      modifies this
      ensures Valid() && world.at.Idle? && old(events) <= events && world.node.file == old(world).node.file
      ensures done ==> !world.node.marker && (world.node.proxy.Some? ==> world.node.proxy.value == world.node.file)
      ensures done <==> budget >= 2 && outcome == Worked
    {
      hide IsRun;
      done := false;
      Suffer(before);
      if budget < 1 {
        Do(Interrupt);
        return;
      }
      Do(Restart(outcome));
      if outcome != Worked {
        return;
      }
      Suffer(after);
      if budget < 2 {
        Do(Interrupt);
        return;
      }
      Invariant();
      Do(RemoveMarker);
      done := true;
    }

    /**
     Heal towards the wanted content with `budget` steps before an interruption. Done means the wanted
     file is in place without a marker; a current, healthy proxy is not restarted; enough budget and a
     restart that works always lead to done.
     */
    method Heal(want: string, budget: nat, outcome: Outcome, weather: seq<seq<Event>>) returns (done: bool)
      requires Valid() && world.at.Idle? && |weather| == 4
      requires forall i, k :: 0 <= i < 4 && 0 <= k < |weather[i]| ==> Weather(weather[i][k])
      modifies this
      ensures Valid() && world.at.Idle? && old(events) <= events
      ensures world.node.file == want || world.node.file == old(world).node.file
      ensures done ==>
                && world.node.file == want && !world.node.marker
                && (world.node.proxy.Some? ==> world.node.proxy.value == want)
      ensures old(world).node.file == want && Healthy(old(world).node) ==>
                done && forall k :: |old(events)| <= k < |events| ==> !events[k].Restart?
      ensures budget >= 4 && outcome == Worked ==> done
    {
      hide IsRun;
      Do(Check(want));
      if world.at.Idle? {
        Suffer(weather[0]);
        Invariant();
        return true;
      }
      if world.at.Outdated? {
        Suffer(weather[0]);
        if budget < 1 {
          Do(Interrupt);
          return false;
        }
        Do(TouchMarker);
        Suffer(weather[1]);
        if budget < 2 {
          Do(Interrupt);
          return false;
        }
        Do(MoveFile);
        done := Finish(budget - 2, outcome, weather[2], weather[3]);
      } else {
        done := Finish(budget, outcome, weather[2], weather[3]);
      }
    }

    /** The invariant of the run, for the world as it is. */
    lemma Invariant()
      requires Valid()
      ensures Inv(world)
    {
      AlwaysSettled(states, events, |states| - 1);
    }
  }
}
