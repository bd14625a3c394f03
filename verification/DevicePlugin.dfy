/**
 Registration of the device plugin with the kubelet. Sockets come and go at any moment; what the loop
 sees of them in each round is an input, so every interleaving of deletion and recreation is covered.
 A file identity is what os.SameFile compares.
 */
module DevicePlugin {
  import opened Options

  type Id = nat

  /** What happened, in order. `seen` is the registry as stat saw it, `dialled` the socket that answered. */
  datatype Event =
    | Started(server: nat, socket: Id)
    | Confirmed(server: nat, socket: Id)
    | Saw(server: nat, registry: Option<Id>)
    | Registered(server: nat, seen: Id, dialled: Id)
    | Refused(server: nat, seen: Id)
    | Lost(server: nat)
    | Ended(server: nat)
    | Waited(server: nat)

  /**
   Where a trace leaves the plugin: the number of servers so far, the current one and what it knows,
   whether this round confirmed the socket and looked at the registry, and an identity to register with.
   */
  datatype Track = Track(servers: nat, live: bool, socket: Id, registered: Option<Id>, confirmed: bool, looked: bool,
      looking: Option<Id>)

  const IDLE := Track(0, false, 0, None, false, false, None)

  /** What may come next: in each round confirm, look, register if and only if the identity is new, then wait. */
  predicate Allowed(t: Track, e: Event) {
    match e
    case Started(server, _) => !t.live && server == t.servers + 1
    case Confirmed(server, socket) => t.live && server == t.servers && socket == t.socket && !t.confirmed
    case Saw(server, _) => t.live && server == t.servers && t.confirmed && !t.looked
    case Registered(server, seen, _) => t.live && server == t.servers && t.confirmed && t.looking == Some(seen)
    case Refused(server, seen) => t.live && server == t.servers && t.confirmed && t.looking == Some(seen)
    case Lost(server) => t.live && server == t.servers && !t.confirmed
    case Ended(server) => t.live && server == t.servers && t.looked && t.looking.None?
    case Waited(server) => t.live && server == t.servers && t.looked && t.looking.None?
  }

  function After(t: Track, e: Event): Track {
    match e
    case Started(server, socket) => Track(server, true, socket, None, false, false, None)
    case Confirmed(_, _) => t.(confirmed := true)
    case Saw(_, registry) =>
      t.(looked := true,
         looking := if registry == t.registered then None else registry,
         registered := if registry.None? then None else t.registered)
    case Registered(_, seen, _) => t.(registered := Some(seen), looking := None)
    case Refused(_, _) => t.(looking := None)
    case Lost(_) => t.(live := false, registered := None, confirmed := false, looked := false, looking := None)
    case Ended(_) => t.(live := false, registered := None, confirmed := false, looked := false, looking := None)
    case Waited(_) => t.(confirmed := false, looked := false, looking := None)
  }

  function Follow(trace: seq<Event>): Track {
    if trace == [] then IDLE else After(Follow(trace[..|trace| - 1]), trace[|trace| - 1])
  }

  predicate Legal(trace: seq<Event>) {
    trace == [] || (Legal(trace[..|trace| - 1]) && Allowed(Follow(trace[..|trace| - 1]), trace[|trace| - 1]))
  }

  lemma FollowSnoc(trace: seq<Event>, e: Event)
    ensures Follow(trace + [e]) == After(Follow(trace), e)
    ensures Legal(trace + [e]) <==> Legal(trace) && Allowed(Follow(trace), e)
  {
    assert (trace + [e])[..|trace|] == trace;
  }

  // ---- the loop ----

  datatype Wake = Done | Failed | Finished | Tick

  /** What one round of the loop meets. */
  datatype Round = Round(listens: bool, bound: Option<Id>, endpoint: Option<Id>, registry: Option<Id>,
      answer: Option<Id>, wake: Wake)

  /** The event is what the round's observations call for. */
  predicate Matches(e: Event, r: Round) {
    match e
    case Started(_, socket) => r.listens && r.bound == Some(socket)
    case Confirmed(_, socket) => r.endpoint == Some(socket)
    case Saw(_, registry) => r.registry == registry
    case Registered(_, seen, dialled) => r.registry == Some(seen) && r.answer == Some(dialled)
    case Refused(_, seen) => r.registry == Some(seen) && r.answer.None?
    case Lost(_) => true
    case Ended(_) => r.wake == Finished
    case Waited(_) => r.wake == Tick
  }

  /** The loop ends in this round: no socket to listen on, or woken to stop. */
  predicate Exits(r: Round) { !r.listens || r.bound.None? || r.wake == Done || r.wake == Failed }

  /** Each event belongs to a round, the rounds in order and none left out. */
  ghost predicate InStep(trace: seq<Event>, at: seq<nat>, rounds: seq<Round>, n: nat) {
    && |at| == |trace| && n <= |rounds|
    && (forall k :: 0 <= k < |trace| ==> at[k] < n && Matches(trace[k], rounds[at[k]]))
    && (forall k :: 0 <= k < |trace| && trace[k].Lost? ==> rounds[at[k]].endpoint != Some(Follow(trace[..k]).socket))
    && (forall k :: 0 < k < |trace| ==> at[k - 1] <= at[k] <= at[k - 1] + 1)
    && (trace != [] ==> at[0] == 0)
  }

  /** The loop, round by round; it returns the trace of what it did, and which round each event came from. */
  method Serve(rounds: seq<Round>) returns (trace: seq<Event>, ghost at: seq<nat>, ghost ended: nat)
    ensures Legal(trace) && InStep(trace, at, rounds, ended) && Follow(trace).looking.None?
    ensures ended == |rounds| || (ended > 0 && Exits(rounds[ended - 1]))
    ensures ended < |rounds| || trace == [] || at[|at| - 1] == ended - 1 || Exits(rounds[ended - 1])
  {
    hide Legal, Follow, InStep;
    var server: Option<nat> := None;
    var servers: nat := 0;
    var endpointInfo: Id := 0;
    var registeredRegistry: Option<Id> := None;
    trace, at, ended := [], [], 0;
    Nothing();
    NothingInStep(rounds);
    for i := 0 to |rounds|
      invariant Legal(trace) && InStep(trace, at, rounds, i) && ended == i
      invariant if trace == [] then i == 0 else |at| == |trace| && at[|at| - 1] == i - 1
      invariant var t := Follow(trace);
                && t.servers == servers && t.live == server.Some?
                && (server.Some? ==> server.value == servers && t.socket == endpointInfo)
                && t.registered == registeredRegistry && (server.None? ==> registeredRegistry.None?)
                && !t.confirmed && !t.looked && t.looking.None?
    {
      var round := rounds[i];
      ended := i + 1;
      Wider(trace, at, rounds, i);
      if server.None? {
        if !round.listens || round.bound.None? {
          return;
        }
        endpointInfo := round.bound.value;
        servers := servers + 1;
        server := Some(servers);
        trace, at := Append(trace, at, rounds, i, Started(servers, endpointInfo));
      }
      if round.endpoint != Some(endpointInfo) {
        trace, at := Append(trace, at, rounds, i, Lost(servers));
        server, registeredRegistry := None, None;
        continue;
      }
      trace, at := Append(trace, at, rounds, i, Confirmed(servers, endpointInfo));
      trace, at, registeredRegistry := LookAndRegister(trace, at, rounds, i, servers, registeredRegistry);
      match round.wake {
        case Done => return;
        case Failed => return;
        case Finished =>
          trace, at := Append(trace, at, rounds, i, Ended(servers));
          server, registeredRegistry := None, None;
        case Tick =>
          trace, at := Append(trace, at, rounds, i, Waited(servers));
      }
    }
  }

  /** Look at the registry and register when its identity is not the one registered with. */
  method LookAndRegister(trace: seq<Event>, ghost at: seq<nat>, rounds: seq<Round>, n: nat, servers: nat,
        registered: Option<Id>)
    returns (r: seq<Event>, ghost more: seq<nat>, now: Option<Id>)
    requires Legal(trace) && n < |rounds| && InStep(trace, at, rounds, n + 1) && trace != [] && |at| == |trace|
            && at[|at| - 1] == n
    requires var t := Follow(trace);
             && t.live && t.servers == servers && t.confirmed && !t.looked && t.looking.None?
             && t.registered == registered
    ensures Legal(r) && InStep(r, more, rounds, n + 1) && r != [] && |more| == |r| && more[|more| - 1] == n
    ensures Follow(r) == Follow(trace).(looked := true, registered := now)
  {
    hide Legal, Follow, InStep;
    var round := rounds[n];
    now := registered;
    r, more := Append(trace, at, rounds, n, Saw(servers, round.registry));
    if round.registry.None? {
      now := None;
    } else if registered.None? || registered.value != round.registry.value {
      if round.answer.Some? {
        r, more := Append(r, more, rounds, n, Registered(servers, round.registry.value, round.answer.value));
        now := round.registry;
      } else {
        r, more := Append(r, more, rounds, n, Refused(servers, round.registry.value));
      }
    }
  }

  lemma NothingInStep(rounds: seq<Round>)
    ensures InStep([], [], rounds, 0)
  {
  }

  lemma Wider(trace: seq<Event>, at: seq<nat>, rounds: seq<Round>, n: nat)
    requires InStep(trace, at, rounds, n) && n < |rounds|
    ensures InStep(trace, at, rounds, n + 1)
  {
  }

  method Append(trace: seq<Event>, ghost at: seq<nat>, ghost rounds: seq<Round>, ghost n: nat, e: Event)
    returns (r: seq<Event>, ghost more: seq<nat>)
    requires Legal(trace) && Allowed(Follow(trace), e) && n < |rounds| && InStep(trace, at, rounds, n + 1)
            && Matches(e, rounds[n])
    requires e.Lost? ==> rounds[n].endpoint != Some(Follow(trace).socket)
    requires if trace == [] then n == 0 else |at| == |trace| && (at[|at| - 1] == n || at[|at| - 1] == n - 1)
    ensures Legal(r) && Follow(r) == After(Follow(trace), e) && r == trace + [e]
    ensures InStep(r, more, rounds, n + 1) && |more| == |r| && more[|more| - 1] == n
  {
    hide Follow, Legal;
    FollowSnoc(trace, e);
    r, more := trace + [e], at + [n];
    assert forall k :: 0 <= k < |trace| ==> r[..k] == trace[..k];
    assert r[..|trace|] == trace;
  }

  lemma Nothing()
    ensures Legal([]) && Follow([]) == IDLE
  {
  }

  // ---- what every trace satisfies ----

  lemma {:induction false} LegalPrefix(trace: seq<Event>, n: nat)
    requires Legal(trace) && n <= |trace|
    ensures Legal(trace[..n])
    ensures n < |trace| ==>
              Allowed(Follow(trace[..n]), trace[n]) && Follow(trace[..n + 1]) == After(Follow(trace[..n]), trace[n])
  {
    if n == |trace| {
      assert trace[..n] == trace;
    } else if n == |trace| - 1 {
      assert trace[..n + 1] == trace;
    } else {
      LegalPrefix(trace[..|trace| - 1], n);
      assert trace[..|trace| - 1][..n] == trace[..n] && trace[..|trace| - 1][..n + 1] == trace[..n + 1];
    }
  }

  predicate Attempts(e: Event, server: nat) { (e.Registered? || e.Refused?) && e.server == server }

  /**
   A registration is attempted only right after the server's own socket was confirmed, with nothing in between but
   the look at the registry.
   */
  lemma AttemptAfterConfirmation(trace: seq<Event>, k: nat) returns (i: nat)
    requires Legal(trace) && k < |trace| && Attempts(trace[k], trace[k].server)
    ensures i < k && trace[i].Confirmed? && trace[i].server == trace[k].server
    ensures forall j :: i < j < k ==> trace[j].Saw? || trace[j].Registered? || trace[j].Refused?
    ensures trace[i].socket == Follow(trace[..k]).socket
  {
    LegalPrefix(trace, k);
    i := LastConfirmation(trace, k);
  }

  lemma {:induction false} LastConfirmation(trace: seq<Event>, k: nat) returns (i: nat)
    requires Legal(trace) && k <= |trace| && Follow(trace[..k]).confirmed
    ensures i < k && trace[i].Confirmed? && trace[i].server == Follow(trace[..k]).servers
    ensures forall j :: i < j < k ==> trace[j].Saw? || trace[j].Registered? || trace[j].Refused?
    ensures trace[i].socket == Follow(trace[..k]).socket
  {
    LegalPrefix(trace, k - 1);
    if trace[k - 1].Confirmed? {
      i := k - 1;
    } else {
      i := LastConfirmation(trace, k - 1);
    }
  }

  /** Servers are numbered upwards and only the current one acts. */
  lemma {:induction false} ServersGrow(trace: seq<Event>, i: nat, j: nat)
    requires Legal(trace) && i <= j < |trace|
    ensures trace[i].server <= trace[j].server && trace[i].server <= Follow(trace[..j + 1]).servers == trace[j].server
    decreases j
  {
    LegalPrefix(trace, j);
    if i < j {
      ServersGrow(trace, i, j - 1);
    }
  }

  /** Losing the socket forces a new server before anything is registered again. */
  lemma {:induction false} LossForcesNewServer(trace: seq<Event>, i: nat, j: nat) returns (k: nat)
    requires Legal(trace) && i < j < |trace| && (trace[i].Lost? || trace[i].Ended?)
            && Attempts(trace[j], trace[j].server)
    ensures i < k < j && trace[k].Started? && trace[k].server == trace[j].server > trace[i].server
  {
    LegalPrefix(trace, j);
    LegalPrefix(trace, i);
    k := StartedSince(trace, i, j);
    ServersGrow(trace, i, k - 1);
    LegalPrefix(trace, k);
    assert trace[..k] == trace[..k - 1 + 1];
  }

  lemma {:induction false} StartedSince(trace: seq<Event>, i: nat, j: nat) returns (k: nat)
    requires Legal(trace) && i < j <= |trace| && !Follow(trace[..i + 1]).live && Follow(trace[..j]).live
    ensures i < k < j && trace[k].Started? && trace[k].server == Follow(trace[..j]).servers
  {
    assert j > i + 1;
    LegalPrefix(trace, j - 1);
    if trace[j - 1].Started? {
      k := j - 1;
    } else {
      k := StartedSince(trace, i, j - 1);
    }
  }

  /** Between two successful registrations of one server for one identity, the registry was seen otherwise. */
  lemma RegisteredTwice(trace: seq<Event>, i: nat, j: nat) returns (k: nat)
    requires Legal(trace) && i < j < |trace| && trace[i].Registered? && trace[j].Registered?
    requires trace[i].server == trace[j].server && trace[i].seen == trace[j].seen
    ensures i < k < j && trace[k].Saw? && trace[k].registry != Some(trace[i].seen)
  {
    LegalPrefix(trace, i);
    LegalPrefix(trace, j);
    k := Forgotten(trace, i, j);
  }

  lemma {:induction false} Forgotten(trace: seq<Event>, i: nat, j: nat) returns (k: nat)
    requires Legal(trace) && i < j < |trace| && trace[i].Registered? && trace[j].server == trace[i].server
    requires Follow(trace[..j]).registered != Some(trace[i].seen)
    ensures i < k < j && trace[k].Saw? && trace[k].registry != Some(trace[i].seen)
  {
    hide Legal, Follow;
    LegalPrefix(trace, i);
    LegalPrefix(trace, j);
    LegalPrefix(trace, j - 1);
    ServersGrow(trace, i, j - 1);
    ServersGrow(trace, j - 1, j);
    var e := trace[j - 1];
    if e.Saw? && e.registry != Some(trace[i].seen) {
      k := j - 1;
    } else if e.Registered? {
      LookedBefore(trace, j - 1);
      k := j - 2;
    } else {
      if i < j - 1 {
        ServersGrow(trace, i, j - 2);
      }
      k := Forgotten(trace, i, j - 1);
    }
  }

  /** Knowing the registry's identity means having just looked. */
  lemma LookedBefore(trace: seq<Event>, n: nat)
    requires Legal(trace) && n <= |trace| && Follow(trace[..n]).looking.Some?
    ensures n > 0 && trace[n - 1].Saw? && trace[n - 1].registry == Follow(trace[..n]).looking
  {
    LegalPrefix(trace, n - 1);
  }

  // ---- what the server remembers, exactly ----

  /** The events after which an earlier registration no longer counts. */
  predicate Forgets(e: Event) { e.Registered? || e.Lost? || e.Ended? || e.Started? || (e.Saw? && e.registry.None?) }

  /** Before position `k`, `i` is a registration for `x` that still counts. */
  predicate Counts(trace: seq<Event>, i: nat, k: nat, x: Id) {
    i < k <= |trace| && trace[i].Registered? && trace[i].seen == x && forall j :: i < j < k ==> !Forgets(trace[j])
  }

  ghost predicate StillRegistered(trace: seq<Event>, k: nat, x: Id) { exists i :: Counts(trace, i, k, x) }

  /** The server takes itself to be registered with an identity exactly when such a registration still counts. */
  lemma {:induction false} RememberedExactly(trace: seq<Event>, k: nat, x: Id)
    requires Legal(trace) && k <= |trace|
    ensures Follow(trace[..k]).registered == Some(x) <==> StillRegistered(trace, k, x)
  {
    hide Legal;
    if k > 0 {
      LegalPrefix(trace, k - 1);
      RememberedExactly(trace, k - 1, x);
      CountsStep(trace, k, x);
    } else {
      assert trace[..0] == [];
    }
  }

  lemma CountsStep(trace: seq<Event>, k: nat, x: Id)
    requires 0 < k <= |trace|
    ensures var e := trace[k - 1];
            StillRegistered(trace, k, x) <==>
                if Forgets(e) then e.Registered? && e.seen == x else StillRegistered(trace, k - 1, x)
  {
    var e := trace[k - 1];
    if Forgets(e) {
      assert e.Registered? && e.seen == x ==> Counts(trace, k - 1, k, x);
      assert forall i :: Counts(trace, i, k, x) ==> i == k - 1;
    } else {
      if StillRegistered(trace, k, x) {
        var i :| Counts(trace, i, k, x);
        assert Counts(trace, i, k - 1, x);
      }
      if StillRegistered(trace, k - 1, x) {
        var i :| Counts(trace, i, k - 1, x);
        assert Counts(trace, i, k, x);
      }
    }
  }

  /** After a look, the next thing is a registration exactly when an identity was seen and none for it still counts. */
  lemma AttemptExactly(trace: seq<Event>, k: nat)
    requires Legal(trace) && k + 1 < |trace| && trace[k].Saw?
    ensures Attempts(trace[k + 1], trace[k].server) <==>
            trace[k].registry.Some? && !StillRegistered(trace, k, trace[k].registry.value)
  {
    hide Legal, Follow;
    LegalPrefix(trace, k);
    LegalPrefix(trace, k + 1);
    if trace[k].registry.Some? {
      RememberedExactly(trace, k, trace[k].registry.value);
    }
  }

  /** And the loop never stops between such a look and its registration. */
  lemma LookNotLast(trace: seq<Event>, x: Id)
    requires Legal(trace) && trace != [] && Follow(trace).looking.None?
    requires trace[|trace| - 1].Saw? && trace[|trace| - 1].registry == Some(x)
    ensures StillRegistered(trace, |trace| - 1, x)
  {
    var k := |trace| - 1;
    assert trace[..k + 1] == trace;
    LegalPrefix(trace, k);
    RememberedExactly(trace, k, x);
  }

  /**
   Between two successful registrations of one server for one identity, and never otherwise, the first was forgotten.
   */
  lemma RegisteredTwiceExactly(trace: seq<Event>, i: nat, k: nat)
    requires Legal(trace) && i < k && k + 1 < |trace| && trace[i].Registered? && trace[k].Saw?
    requires trace[i].server == trace[k].server && trace[k].registry == Some(trace[i].seen)
    requires forall j :: i < j < k && trace[j].Registered? ==> trace[j].seen != trace[i].seen
    ensures Attempts(trace[k + 1], trace[k].server) <==>
            exists m :: i < m < k && (trace[m].Registered? || (trace[m].Saw? && trace[m].registry.None?))
  {
    hide Legal, Follow;
    var x := trace[i].seen;
    AttemptExactly(trace, k);
    forall m | i < m < k
      ensures Forgets(trace[m]) <==> trace[m].Registered? || (trace[m].Saw? && trace[m].registry.None?)
    {
      SameServerBetween(trace, i, m, k);
    }
    if forall m :: i < m < k ==> !Forgets(trace[m]) {
      assert Counts(trace, i, k, x);
      assert StillRegistered(trace, k, x);
    } else {
      var m :| i < m < k && Forgets(trace[m]);
      forall j ensures !Counts(trace, j, k, x) { OtherDoesNotCount(trace, i, j, m, k); }
    }
  }

  /** No other registration for the identity counts in its place. */
  lemma OtherDoesNotCount(trace: seq<Event>, i: nat, j: nat, m: nat, k: nat)
    requires Legal(trace) && i < m < k < |trace| && trace[i].Registered? && Forgets(trace[m])
            && trace[k].server == trace[i].server
    requires forall l :: i < l < k && trace[l].Registered? ==> trace[l].seen != trace[i].seen
    ensures !Counts(trace, j, k, trace[i].seen)
  {
  }

  lemma SameServerBetween(trace: seq<Event>, i: nat, m: nat, k: nat)
    requires Legal(trace) && i < m < k < |trace| && trace[i].server == trace[k].server && trace[k].Saw?
    ensures !trace[m].Started? && !trace[m].Lost? && !trace[m].Ended?
  {
    hide Legal, Follow;
    ServersGrow(trace, i, m - 1);
    ServersGrow(trace, m - 1, m);
    ServersGrow(trace, m, m + 1);
    ServersGrow(trace, m + 1, k);
    LegalPrefix(trace, m - 1);
    LegalPrefix(trace, m);
    LegalPrefix(trace, m + 1);
  }

  // ---- at most once, and when not ----

  /** The registry path over time; an identity that is gone does not come back. */
  predicate NoReturn(history: seq<Option<Id>>) {
    forall a, b, c :: 0 <= a < b < c < |history| && history[a].Some? && history[a] == history[c] ==>
        history[b] == history[a]
  }

  /** Each look at the registry saw what was there at some moment, the moments in order. */
  predicate Accurate(trace: seq<Event>, history: seq<Option<Id>>, moments: seq<nat>) {
    && |moments| == |trace|
    && (forall k :: 0 <= k < |trace| ==> moments[k] < |history|)
    && (forall i, j :: 0 <= i < j < |trace| ==> moments[i] <= moments[j])
    && (forall k :: 0 <= k < |trace| && trace[k].Saw? ==> trace[k].registry == history[moments[k]])
  }

  /** With accurate looks and identities that do not come back, a server registers at most once per identity it saw. */
  lemma AtMostOncePerIdentity(trace: seq<Event>, history: seq<Option<Id>>, moments: seq<nat>, i: nat, j: nat)
    requires Legal(trace) && Accurate(trace, history, moments) && NoReturn(history)
    requires i < |trace| && j < |trace| && trace[i].Registered? && trace[j].Registered?
    requires trace[i].server == trace[j].server && trace[i].seen == trace[j].seen
    ensures i == j
  {
    if i < j {
      Unrepeated(trace, history, moments, i, j);
    } else if j < i {
      Unrepeated(trace, history, moments, j, i);
    }
  }

  lemma Unrepeated(trace: seq<Event>, history: seq<Option<Id>>, moments: seq<nat>, i: nat, j: nat)
    requires Legal(trace) && Accurate(trace, history, moments) && NoReturn(history)
    requires i < j < |trace| && trace[i].Registered? && trace[j].Registered? && trace[i].server == trace[j].server
    ensures trace[i].seen != trace[j].seen
  {
    if trace[i].seen == trace[j].seen {
      var k := RegisteredTwice(trace, i, j);
      LegalPrefix(trace, i);
      LegalPrefix(trace, j);
      LookedBefore(trace, i);
      LookedBefore(trace, j);
      assert false;
    }
  }

  /** No server has two registrations for one identity. */
  predicate Once(trace: seq<Event>) {
    forall i, j :: 0 <= i < j < |trace| && trace[i].Registered? && trace[j].Registered?
      && trace[i].server == trace[j].server
      ==> trace[i].seen != trace[j].seen
  }

  /**
   Registration happens at most once per server and identity, whatever else happens, exactly when no identity comes
   back.
   */
  lemma AtMostOnceExactly(history: seq<Option<Id>>)
    ensures NoReturn(history) <==>
              forall trace, moments | Legal(trace) && Accurate(trace, history, moments) :: Once(trace)
  {
    hide Legal;
    if NoReturn(history) {
      forall trace: seq<Event>, moments | Legal(trace) && Accurate(trace, history, moments) ensures Once(trace) {
        NoReturnOnce(trace, history, moments);
      }
    } else {
      var a, b, c :| 0 <= a < b < c < |history| && history[a].Some? && history[a] == history[c]
        && history[b] != history[a];
      var trace, moments := ReturnRegistersTwice(history, a, b, c);
      assert !Once(trace);
    }
  }

  lemma NoReturnOnce(trace: seq<Event>, history: seq<Option<Id>>, moments: seq<nat>)
    requires Legal(trace) && Accurate(trace, history, moments) && NoReturn(history)
    ensures Once(trace)
  {
    hide Legal, Accurate;
    forall i, j | 0 <= i < j < |trace| && trace[i].Registered? && trace[j].Registered?
      && trace[i].server == trace[j].server
      ensures trace[i].seen != trace[j].seen
    {
      Unrepeated(trace, history, moments, i, j);
    }
  }

  /** Accurate looks, and each call reached the socket that was there when it was made. */
  predicate Landed(trace: seq<Event>, history: seq<Option<Id>>, moments: seq<nat>) {
    && Accurate(trace, history, moments)
    && forall k :: 0 <= k < |trace| && trace[k].Registered? ==> history[moments[k]] == Some(trace[k].dialled)
  }

  lemma Grow(trace: seq<Event>, moments: seq<nat>, history: seq<Option<Id>>, m: nat, e: Event)
    returns (r: seq<Event>, ms: seq<nat>)
    requires Legal(trace) && Allowed(Follow(trace), e) && Landed(trace, history, moments) && m < |history|
    requires (e.Saw? ==> e.registry == history[m]) && (e.Registered? ==> history[m] == Some(e.dialled))
    requires trace != [] ==> |moments| > 0 && moments[|moments| - 1] <= m
    ensures Legal(r) && Follow(r) == After(Follow(trace), e) && r == trace + [e]
    ensures Landed(r, history, ms) && ms == moments + [m]
  {
    hide Legal, Follow;
    FollowSnoc(trace, e);
    r, ms := trace + [e], moments + [m];
  }

  /** An identity that comes back: seen, seen replaced or missing, and seen again, it is registered with twice. */
  lemma ReturnRegistersTwice(history: seq<Option<Id>>, a: nat, b: nat, c: nat)
    returns (trace: seq<Event>, moments: seq<nat>)
    requires a < b < c < |history| && history[a].Some? && history[a] == history[c] && history[b] != history[a]
    ensures Legal(trace) && Landed(trace, history, moments) && !Once(trace) && !OncePerSocket(trace)
  {
    hide Legal, Follow, Landed;
    var x := history[a].value;
    NothingAccurate(history);
    trace, moments := Grow([], [], history, a, Started(1, 5));
    trace, moments := Grow(trace, moments, history, a, Confirmed(1, 5));
    trace, moments := Grow(trace, moments, history, a, Saw(1, history[a]));
    trace, moments := Grow(trace, moments, history, a, Registered(1, x, x));
    trace, moments := Grow(trace, moments, history, a, Waited(1));
    trace, moments := Grow(trace, moments, history, b, Confirmed(1, 5));
    trace, moments := Grow(trace, moments, history, b, Saw(1, history[b]));
    if history[b].Some? {
      trace, moments := Grow(trace, moments, history, b, Registered(1, history[b].value, history[b].value));
    }
    trace, moments := Grow(trace, moments, history, b, Waited(1));
    trace, moments := Grow(trace, moments, history, c, Confirmed(1, 5));
    trace, moments := Grow(trace, moments, history, c, Saw(1, history[c]));
    trace, moments := Grow(trace, moments, history, c, Registered(1, x, x));
    assert trace[3] == Registered(1, x, x) && trace[|trace| - 1] == Registered(1, x, x);
  }

  lemma NothingAccurate(history: seq<Option<Id>>)
    ensures Legal([]) && Follow([]) == IDLE && Landed([], history, [])
  {
  }

  // ---- at most once per socket ----

  /** No server has two registrations that reached one socket. */
  predicate OncePerSocket(trace: seq<Event>) {
    forall i, j :: 0 <= i < j < |trace| && trace[i].Registered? && trace[j].Registered?
      && trace[i].server == trace[j].server
      ==> trace[i].dialled != trace[j].dialled
  }

  /** There is one socket over time, without a gap in it. */
  predicate Steady(history: seq<Option<Id>>) {
    forall a, b, c :: 0 <= a <= b <= c < |history| && history[a].Some? && history[c].Some? ==> history[b] == history[a]
  }

  /**
   With accurate looks, and calls that land on whatever is there when they are made, every run registers at
   most once per server and socket exactly when there is only one socket and it is never away in between.
   */
  lemma OncePerSocketExactly(history: seq<Option<Id>>)
    ensures Steady(history) <==>
              forall trace, moments | Legal(trace) && Landed(trace, history, moments) :: OncePerSocket(trace)
  {
    hide Legal, Landed, OncePerSocket;
    if Steady(history) {
      forall trace: seq<Event>, moments | Legal(trace) && Landed(trace, history, moments) ensures OncePerSocket(trace) {
        SteadyOnce(trace, history, moments);
      }
    } else {
      var a, b, c :| 0 <= a <= b <= c < |history| && history[a].Some? && history[c].Some? && history[b] != history[a];
      var trace, moments;
      if history[c] != history[a] {
        trace, moments := MovedRegistersTwice(history, a, c);
      } else {
        trace, moments := ReturnRegistersTwice(history, a, b, c);
      }
      assert !OncePerSocket(trace);
    }
  }

  lemma SteadyOnce(trace: seq<Event>, history: seq<Option<Id>>, moments: seq<nat>)
    requires Legal(trace) && Landed(trace, history, moments) && Steady(history)
    ensures OncePerSocket(trace)
  {
    hide Legal;
    forall i, j | 0 <= i < j < |trace| && trace[i].Registered? && trace[j].Registered?
      && trace[i].server == trace[j].server
      ensures trace[i].dialled != trace[j].dialled
    {
      SteadySeen(trace, history, moments, i);
      SteadySeen(trace, history, moments, j);
      Unrepeated(trace, history, moments, i, j);
    }
  }

  /** With one socket, a call reaches the one that was seen. */
  lemma SteadySeen(trace: seq<Event>, history: seq<Option<Id>>, moments: seq<nat>, i: nat)
    requires Legal(trace) && Landed(trace, history, moments) && Steady(history) && i < |trace| && trace[i].Registered?
    ensures trace[i].dialled == trace[i].seen
  {
    hide Follow;
    LegalPrefix(trace, i);
    LookedBefore(trace, i);
    hide Legal;
    assert history[moments[i - 1]] == Some(trace[i].seen) && history[moments[i]] == Some(trace[i].dialled);
  }

  /** A socket that takes the place of another: the call for the old one lands on it, and the next look is new. */
  lemma MovedRegistersTwice(history: seq<Option<Id>>, a: nat, c: nat) returns (trace: seq<Event>, moments: seq<nat>)
    requires a < c < |history| && history[a].Some? && history[c].Some? && history[a] != history[c]
    ensures Legal(trace) && Landed(trace, history, moments) && !OncePerSocket(trace)
  {
    hide Legal, Follow, Landed;
    var x, y := history[a].value, history[c].value;
    NothingAccurate(history);
    trace, moments := Grow([], [], history, a, Started(1, 5));
    trace, moments := Grow(trace, moments, history, a, Confirmed(1, 5));
    trace, moments := Grow(trace, moments, history, a, Saw(1, history[a]));
    trace, moments := Grow(trace, moments, history, c, Registered(1, x, y));
    trace, moments := Grow(trace, moments, history, c, Waited(1));
    trace, moments := Grow(trace, moments, history, c, Confirmed(1, 5));
    trace, moments := Grow(trace, moments, history, c, Saw(1, history[c]));
    trace, moments := Grow(trace, moments, history, c, Registered(1, y, y));
    assert trace[3] == Registered(1, x, y) && trace[7] == Registered(1, y, y);
  }

  /**
   Whatever the looks saw: a call that reaches the socket it looked at repeats an earlier one only if that
   one had landed on another socket than it saw, or was forgotten since.
   */
  lemma SocketTwiceCauses(trace: seq<Event>, i: nat, j: nat)
    requires Legal(trace) && i < j < |trace| && trace[i].Registered? && trace[j].Registered?
    requires trace[i].server == trace[j].server && trace[i].dialled == trace[j].dialled == trace[j].seen
    ensures trace[i].seen != trace[i].dialled || ForgottenBetween(trace, i, j)
  {
    if trace[i].seen == trace[i].dialled {
      ForgottenAgain(trace, i, j);
    }
  }

  predicate ForgottenBetween(trace: seq<Event>, i: int, j: nat)
    requires 0 <= i && j <= |trace|
  {
    exists m :: i < m < j && (trace[m].Registered? || (trace[m].Saw? && trace[m].registry.None?))
  }

  lemma ForgottenAgain(trace: seq<Event>, i: nat, j: nat)
    requires Legal(trace) && i < j < |trace| && trace[i].Registered? && trace[j].Registered?
    requires trace[i].server == trace[j].server && trace[i].seen == trace[j].seen
    ensures ForgottenBetween(trace, i, j)
  {
    hide Legal, Follow;
    LegalPrefix(trace, j);
    LookedBefore(trace, j);
    var k := j - 1;
    assert k > i;
    LegalPrefix(trace, k);
    AttemptExactly(trace, k);
    forall m | i < m < k
      ensures Forgets(trace[m]) <==> trace[m].Registered? || (trace[m].Saw? && trace[m].registry.None?)
    {
      SameServerBetween(trace, i, m, k);
    }
    assert !StillRegistered(trace, k, trace[i].seen);
    assert !Counts(trace, i, k, trace[i].seen);
  }

  /** When each registration reached the socket it saw, no kubelet socket is registered with twice either. */
  lemma AtMostOncePerSocket(trace: seq<Event>, history: seq<Option<Id>>, moments: seq<nat>, i: nat, j: nat)
    requires Legal(trace) && Accurate(trace, history, moments) && NoReturn(history)
    requires forall k :: 0 <= k < |trace| && trace[k].Registered? ==> trace[k].dialled == trace[k].seen
    requires i < |trace| && j < |trace| && trace[i].Registered? && trace[j].Registered?
    requires trace[i].server == trace[j].server && trace[i].dialled == trace[j].dialled
    ensures i == j
  {
    AtMostOncePerIdentity(trace, history, moments, i, j);
  }

  /** One more event of the given round. */
  lemma Extend(trace: seq<Event>, at: seq<nat>, rounds: seq<Round>, n: nat, e: Event)
    returns (r: seq<Event>, more: seq<nat>)
    requires Legal(trace) && Allowed(Follow(trace), e) && !e.Lost? && InStep(trace, at, rounds, |rounds|)
    requires n < |rounds| && Matches(e, rounds[n])
    requires if trace == [] then n == 0 else at[|at| - 1] == n || at[|at| - 1] == n - 1
    ensures Legal(r) && Follow(r) == After(Follow(trace), e) && r == trace + [e]
    ensures InStep(r, more, rounds, |rounds|) && more == at + [n]
  {
    hide Follow, Legal;
    FollowSnoc(trace, e);
    r, more := trace + [e], at + [n];
    assert forall k :: 0 <= k < |trace| ==> r[..k] == trace[..k];
  }

  /** Confirm and look, in the first round after a start or in a later one. */
  lemma Look(trace: seq<Event>, at: seq<nat>, rounds: seq<Round>, n: nat) returns (r: seq<Event>, more: seq<nat>)
    requires Legal(trace) && trace != [] && InStep(trace, at, rounds, |rounds|) && n < |rounds|
    requires at[|at| - 1] == n || at[|at| - 1] == n - 1
    requires var t := Follow(trace); t.live && !t.confirmed && !t.looked && rounds[n].endpoint == Some(t.socket)
    ensures Legal(r) && InStep(r, more, rounds, |rounds|) && |more| == |r| > 0 && more[|more| - 1] == n
    ensures var t := Follow(trace);
            && Follow(r) == After(t.(confirmed := true), Saw(t.servers, rounds[n].registry))
            && r == trace + [Confirmed(t.servers, t.socket), Saw(t.servers, rounds[n].registry)]
  {
    hide Legal, Follow, InStep;
    var t := Follow(trace);
    InStepLength(trace, at, rounds, |rounds|);
    r, more := Extend(trace, at, rounds, n, Confirmed(t.servers, t.socket));
    r, more := Extend(r, more, rounds, n, Saw(t.servers, rounds[n].registry));
  }

  lemma InStepLength(trace: seq<Event>, at: seq<nat>, rounds: seq<Round>, n: nat)
    requires InStep(trace, at, rounds, n)
    ensures |at| == |trace|
  {
  }

  lemma NothingYet(rounds: seq<Round>)
    ensures Legal([]) && Follow([]) == IDLE && InStep([], [], rounds, |rounds|)
  {
  }

  const REPLACED := [
    Round(true, Some(5), Some(5), Some(10), Some(11), Tick),
    Round(true, Some(5), Some(5), Some(11), Some(11), Done)]

  /** The socket replaced between the look and the call: one server registers twice with the new kubelet. */
  lemma ReplacedBeforeTheCall() returns (trace: seq<Event>, at: seq<nat>)
    ensures Legal(trace) && InStep(trace, at, REPLACED, |REPLACED|) && Follow(trace).looking.None?
    ensures |trace| == 8 && trace[3] == Registered(1, 10, 11) && trace[7] == Registered(1, 11, 11)
  {
    hide Legal, Follow, InStep;
    var rounds := REPLACED;
    NothingYet(rounds);
    trace, at := Extend([], [], rounds, 0, Started(1, 5));
    trace, at := Look(trace, at, rounds, 0);
    trace, at := Extend(trace, at, rounds, 0, Registered(1, 10, 11));
    trace, at := Extend(trace, at, rounds, 0, Waited(1));
    trace, at := Look(trace, at, rounds, 1);
    trace, at := Extend(trace, at, rounds, 1, Registered(1, 11, 11));
  }

  const MISSED_LOOK := [
    Round(true, Some(5), Some(5), Some(10), Some(10), Tick),
    Round(true, Some(5), Some(5), None, None, Tick),
    Round(true, Some(5), Some(5), Some(10), Some(10), Done)]

  /** A look that fails although the socket is there: the same server registers again with the same kubelet. */
  lemma FailedLookForgets() returns (trace: seq<Event>, at: seq<nat>)
    ensures Legal(trace) && InStep(trace, at, MISSED_LOOK, |MISSED_LOOK|) && Follow(trace).looking.None?
    ensures |trace| == 11 && trace[3] == Registered(1, 10, 10) && trace[10] == Registered(1, 10, 10)
  {
    hide Legal, Follow, InStep;
    var rounds := MISSED_LOOK;
    NothingYet(rounds);
    trace, at := Extend([], [], rounds, 0, Started(1, 5));
    trace, at := Look(trace, at, rounds, 0);
    trace, at := Extend(trace, at, rounds, 0, Registered(1, 10, 10));
    trace, at := Extend(trace, at, rounds, 0, Waited(1));
    trace, at := Look(trace, at, rounds, 1);
    trace, at := Extend(trace, at, rounds, 1, Waited(1));
    trace, at := Look(trace, at, rounds, 2);
    trace, at := Extend(trace, at, rounds, 2, Registered(1, 10, 10));
  }
}
