/**
 The durable krunkit VM store: node records, networks with their 192.168.x.0/24 subnets, the
 hash-probed subnet allocator, and creation with rollback. Files may be unreadable and any write or
 removal may fail, and a process may die after any durable step. A subnet is its third octet.
 */
module KrunkitStore {
  import opened Options

  type Name = string

  datatype Status = Stopped | Running

  datatype NodeState = NodeState(network: Name, octet: nat, status: Status)

  datatype Store = Store(nodes: map<Name, NodeState>, networks: map<Name, nat>)

  const FIRST: nat := 105
  const OCTETS: nat := 145

  // ---- names ----

  predicate LowerDigit(c: char) { 'a' <= c <= 'z' || '0' <= c <= '9' }

  predicate ValidNetworkId(id: Name) {
    0 < |id| <= 63 && forall i :: 0 <= i < |id| ==> LowerDigit(id[i]) || id[i] == '-'
  }

  predicate ValidVMName(name: Name) {
    0 < |name| <= 63
    && forall i :: 0 <= i < |name| ==> LowerDigit(name[i]) || (name[i] == '-' && 0 < i < |name| - 1)
  }

  // ---- hashing ----

  function Byte(c: char): bv32 { (c as int % 256) as bv32 }

  function FnvStep(hash: bv32, c: char): bv32 { (hash ^ Byte(c)) * 16777619 }

  /** The 32-bit FNV-1a hash, wrapping at 32 bits. */
  function Fnv32(s: string): bv32 {
    if s == [] then 2166136261 else FnvStep(Fnv32(s[..|s| - 1]), s[|s| - 1])
  }

  method HashFnv32(s: string) returns (hash: bv32)
    ensures hash == Fnv32(s)
  {
    hide FnvStep;
    hash := 2166136261;
    for i := 0 to |s|
      invariant hash == Fnv32(s[..i])
    {
      assert s[..i + 1][..i] == s[..i];
      hash := FnvStep(hash, s[i]);
    }
    assert s[..|s|] == s;
  }

  // ---- subnet choice ----

  /** The candidate probed at an offset, wrapping around the 145 octets. */
  function Candidate(start: nat, offset: nat): nat
    requires FIRST <= start < FIRST + OCTETS
  {
    FIRST + (start - FIRST + offset) % OCTETS
  }

  function StartFor(id: Name): (start: nat)
    ensures FIRST <= start < FIRST + OCTETS
  {
    FIRST + (Fnv32(id) as int) % OCTETS
  }

  predicate Exhausted(used: set<nat>) { forall o :: FIRST <= o < FIRST + OCTETS ==> o in used }

  /** Every octet of the range is probed at some offset. */
  lemma EveryOctetProbed(start: nat, octet: nat) returns (offset: nat)
    requires FIRST <= start < FIRST + OCTETS && FIRST <= octet < FIRST + OCTETS
    ensures offset < OCTETS && Candidate(start, offset) == octet
  {
    offset := if octet >= start then octet - start else octet + OCTETS - start;
  }

  /** Probe cyclically from the hashed start; fail exactly when all 145 octets are used. */
  method ChooseOctet(start: nat, used: set<nat>) returns (r: Option<nat>)
    requires FIRST <= start < FIRST + OCTETS
    ensures r.None? <==> Exhausted(used)
    ensures r.Some? ==> exists offset :: 0 <= offset < OCTETS && r.value == Candidate(start, offset) && r.value !in used
                                      && forall k :: 0 <= k < offset ==> Candidate(start, k) in used
  {
    for offset := 0 to OCTETS
      invariant forall k :: 0 <= k < offset ==> Candidate(start, k) in used
    {
      var candidate := Candidate(start, offset);
      if candidate !in used {
        return Some(candidate);
      }
    }
    forall o | FIRST <= o < FIRST + OCTETS ensures o in used {
      var offset := EveryOctetProbed(start, o);
    }
    return None;
  }

  /** The same choice as a function: the first free candidate at or after an offset. */
  function FirstFree(start: nat, used: set<nat>, offset: nat): Option<nat>
    requires FIRST <= start < FIRST + OCTETS && offset <= OCTETS
    decreases OCTETS - offset
  {
    if offset == OCTETS then None
    else if Candidate(start, offset) !in used then Some(Candidate(start, offset))
    else FirstFree(start, used, offset + 1)
  }

  lemma {:induction false} FirstFreeIs(start: nat, used: set<nat>, offset: nat, k: nat)
    requires FIRST <= start < FIRST + OCTETS && offset <= k < OCTETS
    requires Candidate(start, k) !in used && forall j :: offset <= j < k ==> Candidate(start, j) in used
    ensures FirstFree(start, used, offset) == Some(Candidate(start, k))
    decreases k - offset
  {
    if offset < k {
      FirstFreeIs(start, used, offset + 1, k);
    }
  }

  lemma {:induction false} FirstFreeNone(start: nat, used: set<nat>, offset: nat)
    requires FIRST <= start < FIRST + OCTETS && offset <= OCTETS
    ensures FirstFree(start, used, offset).None? <==> forall j :: offset <= j < OCTETS ==> Candidate(start, j) in used
    ensures FirstFree(start, used, offset).Some? ==>
              var o := FirstFree(start, used, offset).value; FIRST <= o < FIRST + OCTETS && o !in used
    decreases OCTETS - offset
  {
    if offset < OCTETS {
      FirstFreeNone(start, used, offset + 1);
    }
  }

  // ---- networks ----

  /**
   What one call finds on the host: its addresses, which network files it can read, and whether its write succeeds.
   */
  datatype Allocation = Allocation(hostUsed: set<nat>, readable: set<Name>, writes: bool)

  function Used(networks: map<Name, nat>, a: Allocation): set<nat> {
    a.hostUsed + set id | id in networks && id in a.readable :: networks[id]
  }

  /** ensureNetwork: reuse a readable record, otherwise allocate and write one. */
  function Ensured(s: Store, id: Name, a: Allocation): (Store, Option<nat>) {
    if !ValidNetworkId(id) then (s, None)
    else if id in s.networks && id in a.readable then (s, Some(s.networks[id]))
    else
      var chosen := FirstFree(StartFor(id), Used(s.networks, a), 0);
      if chosen.None? || !a.writes then (s, None)
      else (s.(networks := s.networks[id := chosen.value]), chosen)
  }

  /** removeUnusedNetwork: `seen` are the node states the scan could read. */
  function Dropped(s: Store, id: Name, seen: set<Name>, removes: bool): Store {
    if !ValidNetworkId(id) || !removes || (exists n :: n in s.nodes && n in seen && s.nodes[n].network == id)
    then s else s.(networks := s.networks - {id})
  }

  // ---- lifecycle operations as the durable states they pass through ----

  datatype StartResult = NotStarted | Unrecorded | RecordedThenFailed | Started

  /** `stat` says whether the check for an existing VM can see its record. */
  datatype CreateFaults = CreateFaults(
    stat: bool, allocation: Allocation, prepared: bool, recorded: bool, start: StartResult,
    rolledBack: bool, seen: set<Name>, networkRemoved: bool)

  datatype RemoveFaults = RemoveFaults(stopped: bool, removed: bool, seen: set<Name>, networkRemoved: bool)

  datatype Event =
    | Create(name: Name, network: Name, faults: CreateFaults)
    | SetStatus(name: Name, status: Status, written: bool)
    | Remove(name: Name, drop: RemoveFaults)

  /** The create gets past its checks: a usable name, and no VM of that name that it can see. */
  predicate Admitted(s: Store, e: Event)
    requires e.Create?
  {
    ValidVMName(e.name) && !(e.name in s.nodes && e.faults.stat)
  }

  predicate CreateSucceeds(s: Store, e: Event)
    requires e.Create?
  {
    && Admitted(s, e) && Ensured(s, e.network, e.faults.allocation).1.Some?
    && e.faults.prepared && e.faults.recorded && e.faults.start == Started
  }

  function Recorded(s: Store, e: Event, octet: nat, status: Status): Store
    requires e.Create?
  {
    s.(nodes := s.nodes[e.name := NodeState(e.network, octet, status)])
  }

  /** The record written as stopped and then as running, as far as the faults let it get. */
  function BuildStates(s: Store, e: Event, octet: nat): (states: seq<Store>)
    requires e.Create?
    ensures |states| == 2
  {
    var built := e.faults.prepared && e.faults.recorded;
    [if built then Recorded(s, e, octet, Stopped) else s,
     if !built then s
     else Recorded(s, e, octet, if e.faults.start in {RecordedThenFailed, Started} then Running else Stopped)]
  }

  /** The deferred rollback: the node directory, then its network if nothing uses it. */
  function RollbackStates(s: Store, e: Event): (states: seq<Store>)
    requires e.Create?
    ensures |states| == 2
  {
    var cleared := if e.faults.rolledBack then s.(nodes := s.nodes - {e.name}) else s;
    [cleared, Dropped(cleared, e.network, e.faults.seen, e.faults.networkRemoved)]
  }

  function CreateStates(s: Store, e: Event): seq<Store>
    requires e.Create?
  {
    if !Admitted(s, e) then [s]
    else
      var (s1, net) := Ensured(s, e.network, e.faults.allocation);
      if net.None? then [s]
      else
        var built := BuildStates(s1, e, net.value);
        [s, s1] + built + if CreateSucceeds(s, e) then [] else RollbackStates(built[1], e)
  }

  function WithStatus(s: Store, name: Name, status: Status): Store
    requires name in s.nodes
  {
    s.(nodes := s.nodes[name := s.nodes[name].(status := status)])
  }

  function RemoveStates(s: Store, e: Event): seq<Store>
    requires e.Remove?
  {
    if e.name !in s.nodes || !e.drop.stopped then [s]
    else
      var s1 := WithStatus(s, e.name, Stopped);
      var s2 := if e.drop.removed then s1.(nodes := s1.nodes - {e.name}) else s1;
      [s, s1, s2, Dropped(s2, s.nodes[e.name].network, e.drop.seen, e.drop.networkRemoved)]
  }

  /** Every state an operation leaves on disk, in order; a crash stops at any of them. */
  function States(s: Store, e: Event): (states: seq<Store>)
    ensures states != [] && states[0] == s
  {
    match e
    case Create(_, _, _) => CreateStates(s, e)
    case SetStatus(name, status, written) =>
      if name in s.nodes && written then [s, WithStatus(s, name, status)] else [s]
    case Remove(_, _) => RemoveStates(s, e)
  }

  // ---- the client ----

  class KrunkitClient {
    var store: Store
    ghost var history: seq<Store>

    constructor ()
      ensures store == Store(map[], map[]) && history == [store]
    {
      store := Store(map[], map[]);
      history := [Store(map[], map[])];
    }

    ghost predicate Logged()
      reads this
    {
      history != [] && history[|history| - 1] == store
    }

    method Write(next: Store)
      requires Logged()
      modifies this
      ensures Logged() && store == next && history == old(history) + [next]
    {
      store := next;
      history := history + [next];
    }

    method EnsureNetwork(id: Name, a: Allocation) returns (r: Option<nat>)
      requires Logged()
      modifies this
      ensures Logged() && (store, r) == Ensured(old(store), id, a)
      ensures history == if r.Some? then old(history) + [store] else old(history)
    {
      if !ValidNetworkId(id) {
        return None;
      }
      if id in store.networks && id in a.readable {
        Write(store);
        return Some(store.networks[id]);
      }
      var used := a.hostUsed + set n | n in store.networks && n in a.readable :: store.networks[n];
      var hash := HashFnv32(id);
      var start := FIRST + (hash as int) % OCTETS;
      var chosen := ChooseOctet(start, used);
      if chosen.None? {
        FirstFreeNone(start, used, 0);
        forall k | 0 <= k < OCTETS ensures Candidate(start, k) in used {}
        return None;
      }
      ghost var k :| 0 <= k < OCTETS && chosen.value == Candidate(start, k) && chosen.value !in used
                     && forall j :: 0 <= j < k ==> Candidate(start, j) in used;
      FirstFreeIs(start, used, 0, k);
      if !a.writes {
        return None;
      }
      Write(store.(networks := store.networks[id := chosen.value]));
      return chosen;
    }

    method RemoveUnusedNetwork(id: Name, seen: set<Name>, removes: bool)
      requires Logged()
      modifies this
      ensures Logged() && store == Dropped(old(store), id, seen, removes) && history == old(history) + [store]
    {
      if ValidNetworkId(id) && removes && !(exists n :: n in store.nodes && n in seen && store.nodes[n].network == id) {
        Write(store.(networks := store.networks - {id}));
      } else {
        Write(store);
      }
    }

    method Build(e: Event, octet: nat) returns (ok: bool)
      requires e.Create? && Logged()
      modifies this
      ensures Logged() && ok == (e.faults.prepared && e.faults.recorded && e.faults.start == Started)
      ensures history == old(history) + BuildStates(old(store), e, octet)
              && store == BuildStates(old(store), e, octet)[1]
    {
      ghost var before := store;
      ok := e.faults.prepared && e.faults.recorded;
      if !ok {
        Write(store);
        Write(store);
        return;
      }
      Write(Recorded(store, e, octet, Stopped));
      var running := e.faults.start in {RecordedThenFailed, Started};
      Write(Recorded(store, e, octet, if running then Running else Stopped));
      ok := e.faults.start == Started;
      assert Recorded(Recorded(before, e, octet, Stopped), e, octet, Running) == Recorded(before, e, octet, Running);
      assert Recorded(Recorded(before, e, octet, Stopped), e, octet, Stopped) == Recorded(before, e, octet, Stopped);
    }

    method Rollback(e: Event)
      requires e.Create? && Logged()
      modifies this
      ensures Logged() && history == old(history) + RollbackStates(old(store), e)
              && store == RollbackStates(old(store), e)[1]
    {
      Write(if e.faults.rolledBack then store.(nodes := store.nodes - {e.name}) else store);
      RemoveUnusedNetwork(e.network, e.faults.seen, e.faults.networkRemoved);
    }

    method RunDetached(e: Event) returns (ok: bool)
      requires e.Create? && Logged()
      modifies this
      ensures Logged() && ok == CreateSucceeds(old(store), e)
      ensures history == old(history) + States(old(store), e)[1..]
      ensures store == States(old(store), e)[|States(old(store), e)| - 1]
      ensures old(Consistent(store) && ReadsSafe(store, e)) ==>
                AllConsistent(history[|old(history)|..]) && Consistent(store)
    {
      AllStatesConsistent(store, e);
      hide Ensured, ValidVMName, BuildStates, RollbackStates, Consistent, ReadsSafe;
      if !ValidVMName(e.name) || (e.name in store.nodes && e.faults.stat) {
        return false;
      }
      var network := EnsureNetwork(e.network, e.faults.allocation);
      if network.None? {
        return false;
      }
      ok := Build(e, network.value);
      if !ok {
        Rollback(e);
      }
    }

    method RemoveOne(e: Event)
      requires e.Remove? && Logged()
      modifies this
      ensures Logged() && history == old(history) + States(old(store), e)[1..]
      ensures store == States(old(store), e)[|States(old(store), e)| - 1]
      ensures old(Consistent(store) && ReadsSafe(store, e)) ==>
                AllConsistent(history[|old(history)|..]) && Consistent(store)
    {
      AllStatesConsistent(store, e);
      hide Consistent, ReadsSafe;
      if e.name !in store.nodes || !e.drop.stopped {
        return;
      }
      var network := store.nodes[e.name].network;
      Write(WithStatus(store, e.name, Stopped));
      Write(if e.drop.removed then store.(nodes := store.nodes - {e.name}) else store);
      RemoveUnusedNetwork(network, e.drop.seen, e.drop.networkRemoved);
    }
  }

  // ---- what every durable state keeps ----

  predicate Injective(networks: map<Name, nat>) {
    forall a, b :: a in networks && b in networks && networks[a] == networks[b] ==> a == b
  }

  predicate Backed(s: Store) {
    forall n :: n in s.nodes ==> s.nodes[n].network in s.networks && s.networks[s.nodes[n].network] == s.nodes[n].octet
  }

  predicate Consistent(s: Store) { Injective(s.networks) && Backed(s) }

  predicate AllConsistent(stores: seq<Store>) { forall k :: 0 <= k < |stores| ==> Consistent(stores[k]) }

  // ---- which files have to be readable ----

  predicate HeldReadably(s: Store, readable: set<Name>, x: nat) {
    exists n :: n in s.networks && n in readable && s.networks[n] == x
  }

  predicate NodeUses(nodes: map<Name, NodeState>, n: Name, id: Name) { n in nodes && nodes[n].network == id }

  /** An octet that may be given to a network: seen to be taken, or free and not pulling a subnet from under a node. */
  predicate OctetSafe(s: Store, id: Name, readable: set<Name>, x: nat) {
    || HeldReadably(s, readable, x)
    || ((forall n :: n in s.networks && n != id ==> s.networks[n] != x)
        && ((forall m :: m in s.nodes ==> !NodeUses(s.nodes, m, id)) || (id in s.networks && s.networks[id] == x)))
  }

  predicate InRange(x: nat) { FIRST <= x < FIRST + OCTETS }

  /** The network's record can be read, or every octet of the range may be given to it. */
  ghost predicate NetworkSafe(s: Store, id: Name, readable: set<Name>) {
    (id in s.networks && id in readable) || forall x :: InRange(x) ==> OctetSafe(s, id, readable, x)
  }

  /** A scan that decides rightly whether the network is unused. */
  predicate DropSafe(nodes: map<Name, NodeState>, id: Name, seen: set<Name>) {
    (forall n :: n in nodes ==> !NodeUses(nodes, n, id)) || exists n :: n in seen && NodeUses(nodes, n, id)
  }

  /** It decides rightly whether or not the node being removed is still there. */
  predicate ScanSafe(nodes: map<Name, NodeState>, name: Name, id: Name, seen: set<Name>) {
    || (exists n :: n != name && n in seen && NodeUses(nodes, n, id))
    || (name in seen && forall n :: n in nodes && n != name ==> !NodeUses(nodes, n, id))
  }

  /** Some octet is left, or the record can be read. */
  ghost predicate CanEnsure(s: Store, id: Name, readable: set<Name>) {
    && ValidNetworkId(id)
    && ((id in s.networks && id in readable) || exists x :: InRange(x) && !HeldReadably(s, readable, x))
  }

  /** What has to be readable for an operation to keep the store consistent, whatever else happens in it. */
  ghost predicate ReadsSafe(s: Store, e: Event) {
    match e
    case Create(name, id, f) =>
      Admitted(s, e) && CanEnsure(s, id, f.allocation.readable) ==>
        NetworkSafe(s, id, f.allocation.readable) && ScanSafe(s.nodes, name, id, f.seen)
    case SetStatus(_, _, _) => true
    case Remove(name, f) =>
      name in s.nodes && ValidNetworkId(s.nodes[name].network) ==>
          ScanSafe(s.nodes, name, s.nodes[name].network, f.seen)
  }

  /** Readable files are always enough. */
  lemma AllReadableIsSafe(s: Store, e: Event)
    requires match e
             case Create(name, _, f) => s.networks.Keys <= f.allocation.readable && s.nodes.Keys + {name} <= f.seen
               && Consistent(s)
             case SetStatus(_, _, _) => true
             case Remove(_, f) => s.nodes.Keys <= f.seen
    ensures ReadsSafe(s, e)
  {
    if e.Create? && e.network !in s.networks {
      forall x | InRange(x) ensures OctetSafe(s, e.network, e.faults.allocation.readable, x) {
        if n :| n in s.networks && s.networks[n] == x {
          assert n in e.faults.allocation.readable;
        }
      }
    }
  }

  lemma EnsuredKeeps(s: Store, id: Name, a: Allocation)
    requires Consistent(s) && (CanEnsure(s, id, a.readable) ==> NetworkSafe(s, id, a.readable))
    ensures var (after, net) := Ensured(s, id, a);
            && Consistent(after) && after.nodes == s.nodes
            && (net.Some? ==> id in after.networks && after.networks[id] == net.value && CanEnsure(s, id, a.readable))
  {
    hide ValidNetworkId;
    if ValidNetworkId(id) && !(id in s.networks && id in a.readable) {
      var start, used := StartFor(id), Used(s.networks, a);
      FirstFreeNone(start, used, 0);
      var chosen := FirstFree(start, used, 0);
      if chosen.Some? {
        var x := chosen.value;
        assert InRange(x) && !HeldReadably(s, a.readable, x);
        assert OctetSafe(s, id, a.readable, x);
        assert forall m :: m in s.nodes && s.nodes[m].network == id ==> NodeUses(s.nodes, m, id);
      }
    }
  }

  lemma DroppedKeeps(s: Store, id: Name, seen: set<Name>, removes: bool)
    requires Consistent(s) && (ValidNetworkId(id) ==> DropSafe(s.nodes, id, seen))
    ensures Consistent(Dropped(s, id, seen, removes)) && Dropped(s, id, seen, removes).nodes == s.nodes
  {
    hide ValidNetworkId;
    forall n | n in s.nodes && s.nodes[n].network == id ensures NodeUses(s.nodes, n, id) {}
  }

  /** A scan is safe for a node coming or going exactly when it is safe with the node and without it. */
  lemma ScanSafeExactly(nodes: map<Name, NodeState>, name: Name, id: Name, seen: set<Name>, state: NodeState)
    requires state.network == id
    ensures ScanSafe(nodes, name, id, seen) <==>
              DropSafe(nodes - {name}, id, seen) && DropSafe(nodes[name := state], id, seen)
  {
    var without, with := nodes - {name}, nodes[name := state];
    assert NodeUses(with, name, id);
    assert forall n :: n != name ==> NodeUses(without, n, id) == NodeUses(nodes, n, id) == NodeUses(with, n, id);
    assert !NodeUses(without, name, id);
    if DropSafe(without, id, seen) && DropSafe(with, id, seen) {
      var n :| n in seen && NodeUses(with, n, id);
      if n != name {
        assert n != name && n in seen && NodeUses(nodes, n, id);
      } else if m :| m in seen && NodeUses(without, m, id) {
        assert m != name && m in seen && NodeUses(nodes, m, id);
      }
    }
  }

  /** A safe scan is safe for the nodes as they are. */
  lemma ScanSafeFor(nodes: map<Name, NodeState>, name: Name, id: Name, seen: set<Name>)
    requires ScanSafe(nodes, name, id, seen) && name in nodes
    ensures DropSafe(nodes, id, seen)
  {
    if !(exists n :: n != name && n in seen && NodeUses(nodes, n, id)) {
      assert NodeUses(nodes, name, id) ==> name in seen;
    }
  }

  lemma BuildConsistent(s: Store, e: Event, octet: nat, k: nat)
    requires e.Create? && Consistent(s) && e.network in s.networks && s.networks[e.network] == octet && k < 2
    ensures Consistent(BuildStates(s, e, octet)[k]) && BuildStates(s, e, octet)[k].nodes.Keys <= s.nodes.Keys + {e.name}
  {
  }

  /** The states of the rollback, from a store that has or has not got the new record. */
  lemma RollbackConsistent(before: map<Name, NodeState>, s: Store, e: Event, k: nat)
    requires e.Create? && Consistent(s) && k < 2
    requires s.nodes == before || (e.name in s.nodes && s.nodes == before[e.name := s.nodes[e.name]]
            && s.nodes[e.name].network == e.network)
    requires ScanSafe(before, e.name, e.network, e.faults.seen)
    ensures Consistent(RollbackStates(s, e)[k])
  {
    hide ScanSafe, DropSafe, ValidNetworkId, Dropped;
    var cleared := RollbackStates(s, e)[0];
    assert Consistent(cleared);
    var state := NodeState(e.network, 0, Stopped);
    if e.name in s.nodes && s.nodes[e.name].network == e.network {
      state := s.nodes[e.name];
      assert s.nodes == before[e.name := state];
    } else if e.name in before {
      ScanSafeFor(before, e.name, e.network, e.faults.seen);
    }
    ScanSafeExactly(before, e.name, e.network, e.faults.seen, state);
    assert cleared.nodes == s.nodes || cleared.nodes == before - {e.name};
    assert e.name !in before ==> before - {e.name} == before;
    DroppedKeeps(cleared, e.network, e.faults.seen, e.faults.networkRemoved);
  }

  lemma CreateConsistent(s: Store, e: Event, k: nat)
    requires e.Create? && Consistent(s) && ReadsSafe(s, e) && k < |CreateStates(s, e)|
    ensures Consistent(CreateStates(s, e)[k])
  {
    if k > 0 {
      EnsuredKeeps(s, e.network, e.faults.allocation);
      var (s1, net) := Ensured(s, e.network, e.faults.allocation);
      BuildConsistent(s1, e, net.value, 0);
      BuildConsistent(s1, e, net.value, 1);
      var built := BuildStates(s1, e, net.value)[1];
      hide Ensured, RollbackStates, ValidVMName, Consistent, ScanSafe, NetworkSafe, CanEnsure;
      if k >= 4 {
        RollbackConsistent(s.nodes, built, e, k - 4);
      }
    }
  }

  lemma RemoveConsistent(s: Store, e: Event, k: nat)
    requires e.Remove? && Consistent(s) && ReadsSafe(s, e) && k < |RemoveStates(s, e)|
    ensures Consistent(RemoveStates(s, e)[k])
  {
    hide ScanSafe, DropSafe, ValidNetworkId;
    var all := RemoveStates(s, e);
    if |all| > 1 {
      var id := s.nodes[e.name].network;
      assert Consistent(all[1]) && Consistent(all[2]);
      ScanSafeExactly(s.nodes, e.name, id, e.drop.seen, all[1].nodes[e.name]);
      assert all[1].nodes - {e.name} == s.nodes - {e.name};
      DroppedKeeps(all[2], id, e.drop.seen, e.drop.networkRemoved);
    }
  }

  /** Every state an operation passes through is consistent, so a crash anywhere leaves a consistent store. */
  lemma StatesConsistent(s: Store, e: Event, k: nat)
    requires Consistent(s) && ReadsSafe(s, e) && k < |States(s, e)|
    ensures Consistent(States(s, e)[k])
  {
    match e
    case Create(_, _, _) => CreateConsistent(s, e, k);
    case SetStatus(_, _, _) =>
    case Remove(_, _) => RemoveConsistent(s, e, k);
  }

  lemma AllStatesConsistent(s: Store, e: Event)
    ensures Consistent(s) && ReadsSafe(s, e) ==> AllConsistent(States(s, e))
  {
    hide Consistent, ReadsSafe, States;
    if Consistent(s) && ReadsSafe(s, e) {
      forall k | 0 <= k < |States(s, e)| ensures Consistent(States(s, e)[k]) { StatesConsistent(s, e, k); }
    }
  }

  ghost predicate IsRun(stores: seq<Store>, events: seq<Event>) {
    && |stores| == |events| + 1
    && forall k :: 0 <= k < |events| ==>
        ReadsSafe(stores[k], events[k]) && stores[k + 1] in States(stores[k], events[k])
  }

  /**
   Over every run with failures and crashes at any step, distinct networks have distinct subnets and every node's
   network is there.
   */
  lemma {:induction false} RunsConsistent(stores: seq<Store>, events: seq<Event>, k: nat)
    requires IsRun(stores, events) && Consistent(stores[0]) && k < |stores|
    ensures Consistent(stores[k])
  {
    hide ReadsSafe, Consistent, States;
    if k > 0 {
      RunsConsistent(stores, events, k - 1);
      var all := States(stores[k - 1], events[k - 1]);
      var i :| 0 <= i < |all| && all[i] == stores[k];
      StatesConsistent(stores[k - 1], events[k - 1], i);
    }
  }

  /**
   A failed create leaves the inventory as it was exactly when it was not attempted; or, for a new name, no
   record was written or the rollback removed it; or, for a VM it could not see, the rollback failed to
   remove that VM and no other record was written over its own.
   */
  lemma FailedCreateUnchanged(s: Store, e: Event)
    requires e.Create? && !CreateSucceeds(s, e)
    ensures var last := States(s, e)[|States(s, e)| - 1];
            var net := Ensured(s, e.network, e.faults.allocation).1;
            last.nodes == s.nodes <==>
              || !Admitted(s, e) || net.None?
              || (e.name !in s.nodes && (!(e.faults.prepared && e.faults.recorded) || e.faults.rolledBack))
              || (e.name in s.nodes && !e.faults.rolledBack && RewritesSame(s, e, net.value))
  {
    hide ValidVMName, FirstFree, Used;
    var (s1, net) := Ensured(s, e.network, e.faults.allocation);
    if Admitted(s, e) && net.Some? {
      assert s1.nodes == s.nodes;
      var built := BuildStates(s1, e, net.value)[1];
      assert built.nodes - {e.name} == s.nodes - {e.name};
      assert States(s, e)[5].nodes == if e.faults.rolledBack then s.nodes - {e.name} else built.nodes;
      assert e.name !in s.nodes ==> s.nodes - {e.name} == s.nodes;
    }
  }

  /** The record that is there is left alone, or written again as it was. */
  predicate RewritesSame(s: Store, e: Event, octet: nat)
    requires e.Create? && e.name in s.nodes
  {
    e.faults.prepared && e.faults.recorded ==> BuildStates(s, e, octet)[1].nodes[e.name] == s.nodes[e.name]
  }

  /** A VM the check cannot see: the create that should have been refused fails, and its rollback removes the VM. */
  lemma UnseenVMRemoved(s: Store, e: Event)
    requires e.Create? && ValidVMName(e.name) && e.name in s.nodes && !e.faults.stat && e.faults.rolledBack
    requires Ensured(s, e.network, e.faults.allocation).1.Some? && !CreateSucceeds(s, e)
    ensures e.name !in States(s, e)[|States(s, e)| - 1].nodes
  {
    hide ValidVMName, FirstFree, Used;
  }

  // ---- and no less will do ----

  /** A host whose own addresses leave just one octet of the range. */
  function AllBut(x: nat): set<nat> { set o: nat | o < FIRST + OCTETS && InRange(o) && o != x }

  /** On such a host the network gets that octet, unless its record or the octet's holder is read. */
  lemma OnlyOctetLeft(s: Store, id: Name, readable: set<Name>, x: nat)
    requires ValidNetworkId(id) && !(id in s.networks && id in readable) && InRange(x) && !HeldReadably(s, readable, x)
    ensures Ensured(s, id, Allocation(AllBut(x), readable, true)) == (s.(networks := s.networks[id := x]), Some(x))
  {
    var a := Allocation(AllBut(x), readable, true);
    var start, used := StartFor(id), Used(s.networks, a);
    FirstFreeNone(start, used, 0);
    var k := EveryOctetProbed(start, x);
    assert Candidate(start, k) !in used;
  }

  /** A network keeps the store consistent on every host exactly when its files are read as `NetworkSafe` says. */
  lemma EnsureSafeExactly(s: Store, id: Name, readable: set<Name>)
    requires Consistent(s) && ValidNetworkId(id)
    ensures (forall hostUsed :: Consistent(Ensured(s, id, Allocation(hostUsed, readable, true)).0)) <==>
              NetworkSafe(s, id, readable)
  {
    hide Ensured;
    if NetworkSafe(s, id, readable) {
      forall hostUsed ensures Consistent(Ensured(s, id, Allocation(hostUsed, readable, true)).0) {
        EnsuredKeeps(s, id, Allocation(hostUsed, readable, true));
      }
    } else {
      var x := UnsafeOctet(s, id, readable);
      OnlyOctetLeft(s, id, readable, x);
      assert !Consistent(Ensured(s, id, Allocation(AllBut(x), readable, true)).0);
    }
  }

  lemma UnsafeOctet(s: Store, id: Name, readable: set<Name>) returns (x: nat)
    requires Consistent(s) && !NetworkSafe(s, id, readable)
    ensures InRange(x) && !HeldReadably(s, readable, x) && !(id in s.networks && id in readable)
    ensures !Consistent(s.(networks := s.networks[id := x]))
  {
    x :| InRange(x) && !OctetSafe(s, id, readable, x);
    var after := s.(networks := s.networks[id := x]);
    if n :| n in s.networks && n != id && s.networks[n] == x {
      assert after.networks[n] == after.networks[id];
    } else {
      var m :| m in s.nodes && NodeUses(s.nodes, m, id);
      assert s.networks[id] == s.nodes[m].octet != x;
      assert !Backed(after);
    }
  }

  /** Dropping a network keeps every node backed exactly when the scan sees a node that still uses it, or none does. */
  lemma DropSafeExactly(s: Store, id: Name, seen: set<Name>)
    requires Backed(s) && ValidNetworkId(id)
    ensures Backed(Dropped(s, id, seen, true)) <==> DropSafe(s.nodes, id, seen)
  {
    hide ValidNetworkId;
    assert forall n :: n in s.nodes && s.nodes[n].network == id ==> NodeUses(s.nodes, n, id);
    if !DropSafe(s.nodes, id, seen) {
      var n :| n in s.nodes && NodeUses(s.nodes, n, id);
      assert s.nodes[n].network !in Dropped(s, id, seen, true).networks;
    }
  }

  /** The same operation reading the same files; everything else about it may differ. */
  predicate SameReads(e: Event, f: Event) {
    match e
    case Create(name, id, g) =>
      && f.Create? && f.name == name && f.network == id && f.faults.stat == g.stat
      && f.faults.allocation.readable == g.allocation.readable && f.faults.seen == g.seen
    case SetStatus(name, status, _) => f.SetStatus? && f.name == name && f.status == status
    case Remove(name, g) => f.Remove? && f.name == name && f.drop.seen == g.seen
  }

  /**
   An operation keeps the store consistent in every state, on every host and with every fault, exactly when its reads
   are safe.
   */
  lemma ReadsSafeExactly(s: Store, e: Event)
    requires Consistent(s)
    ensures ReadsSafe(s, e) <==> forall f | SameReads(e, f) :: AllConsistent(States(s, f))
  {
    hide Consistent, States, NetworkSafe, ScanSafe, CanEnsure, ValidVMName;
    if ReadsSafe(s, e) {
      forall f | SameReads(e, f) ensures AllConsistent(States(s, f)) {
        assert ReadsSafe(s, f);
        AllStatesConsistent(s, f);
      }
    } else {
      var f := BreakingFault(s, e);
      assert SameReads(e, f) && !AllConsistent(States(s, f));
    }
  }

  lemma BreakingFault(s: Store, e: Event) returns (f: Event)
    requires Consistent(s) && !ReadsSafe(s, e)
    ensures SameReads(e, f) && !AllConsistent(States(s, f))
  {
    if e.Remove? {
      f := RemoveBreaks(s, e);
    } else if !NetworkSafe(s, e.network, e.faults.allocation.readable) {
      f := AllocationBreaks(s, e);
    } else {
      f := RollbackBreaks(s, e);
    }
  }

  lemma AllocationBreaks(s: Store, e: Event) returns (f: Event)
    requires e.Create? && Consistent(s) && Admitted(s, e) && ValidNetworkId(e.network)
    requires !NetworkSafe(s, e.network, e.faults.allocation.readable)
    ensures SameReads(e, f) && !AllConsistent(States(s, f))
  {
    var readable := e.faults.allocation.readable;
    var x := UnsafeOctet(s, e.network, readable);
    OnlyOctetLeft(s, e.network, readable, x);
    f := e.(faults := e.faults.(allocation := Allocation(AllBut(x), readable, true)));
    hide Ensured, Consistent, RollbackStates, BuildStates, ValidVMName;
    assert States(s, f)[1] == s.(networks := s.networks[e.network := x]);
  }

  /** Some host on which the network is there for the create to go on. */
  lemma SomeAllocation(s: Store, id: Name, readable: set<Name>) returns (a: Allocation)
    requires Consistent(s) && CanEnsure(s, id, readable) && NetworkSafe(s, id, readable)
    ensures a.readable == readable && Ensured(s, id, a).1.Some?
    ensures var (after, net) := Ensured(s, id, a);
            Consistent(after) && after.nodes == s.nodes && id in after.networks && after.networks[id] == net.value
  {
    a := Allocation({}, readable, true);
    if !(id in s.networks && id in readable) {
      var x :| InRange(x) && !HeldReadably(s, readable, x);
      OnlyOctetLeft(s, id, readable, x);
      a := Allocation(AllBut(x), readable, true);
    }
    EnsuredKeeps(s, id, a);
  }

  /** A create that fails after its network is there, with or without a record left behind. */
  lemma RollbackBreaks(s: Store, e: Event) returns (f: Event)
    requires e.Create? && Consistent(s) && Admitted(s, e)
    requires CanEnsure(s, e.network, e.faults.allocation.readable)
            && NetworkSafe(s, e.network, e.faults.allocation.readable)
    requires !ScanSafe(s.nodes, e.name, e.network, e.faults.seen)
    ensures SameReads(e, f) && !AllConsistent(States(s, f))
  {
    assert ValidNetworkId(e.network);
    hide Ensured, NetworkSafe, ValidVMName, ScanSafe, DropSafe, CanEnsure, ValidNetworkId, Injective;
    var a := SomeAllocation(s, e.network, e.faults.allocation.readable);
    var (s1, net) := Ensured(s, e.network, a);
    var state := NodeState(e.network, net.value, Stopped);
    ScanSafeExactly(s.nodes, e.name, e.network, e.faults.seen, state);
    var stays := !DropSafe(s.nodes[e.name := state], e.network, e.faults.seen);
    f := e.(faults := CreateFaults(e.faults.stat, a, stays, stays, NotStarted, !stays, e.faults.seen, true));
    var cleared := if stays then Recorded(s1, e, net.value, Stopped) else s1.(nodes := s1.nodes - {e.name});
    assert Backed(cleared);
    hide Backed, Dropped;
    DropSafeExactly(cleared, e.network, e.faults.seen);
    var built := BuildStates(s1, f, net.value)[1];
    assert RollbackStates(built, f)[0] == cleared;
    hide BuildStates, RollbackStates;
    assert States(s, f)[5] == Dropped(cleared, e.network, e.faults.seen, true);
  }

  lemma RemoveBreaks(s: Store, e: Event) returns (f: Event)
    requires e.Remove? && Consistent(s) && e.name in s.nodes && ValidNetworkId(s.nodes[e.name].network)
    requires !ScanSafe(s.nodes, e.name, s.nodes[e.name].network, e.drop.seen)
    ensures SameReads(e, f) && !AllConsistent(States(s, f))
  {
    var id, s1 := s.nodes[e.name].network, WithStatus(s, e.name, Stopped);
    ScanSafeExactly(s.nodes, e.name, id, e.drop.seen, s1.nodes[e.name]);
    var gone := !DropSafe(s.nodes - {e.name}, id, e.drop.seen);
    f := e.(drop := RemoveFaults(true, gone, e.drop.seen, true));
    var s2 := if gone then s1.(nodes := s1.nodes - {e.name}) else s1;
    assert s1.nodes - {e.name} == s.nodes - {e.name} && Backed(s2);
    hide DropSafe, ScanSafe, ValidNetworkId, Dropped;
    DropSafeExactly(s2, id, e.drop.seen);
    assert States(s, f)[3] == Dropped(s2, id, e.drop.seen, true);
  }

  /**
   An unreadable record is written over: the next create on its network gives a running node's network another
   subnet.
   */
  lemma UnreadableRecordOverwritten(vm: Name, name: Name, id: Name, o: nat, f: CreateFaults)
    requires InRange(o) && InRange(o + 1) && ValidVMName(name) && name != vm && ValidNetworkId(id)
    requires f.allocation == Allocation(AllBut(o + 1), {}, true)
    ensures var s := Store(map[vm := NodeState(id, o, Running)], map[id := o]);
            Consistent(s) && !AllConsistent(States(s, Create(name, id, f)))
  {
    var s := Store(map[vm := NodeState(id, o, Running)], map[id := o]);
    hide Ensured, ValidVMName, ValidNetworkId, BuildStates, RollbackStates, AllBut;
    OnlyOctetLeft(s, id, {}, o + 1);
    var after := States(s, Create(name, id, f))[1];
    assert after == s.(networks := s.networks[id := o + 1]);
    assert vm in after.nodes && !Backed(after);
  }
}
