/**
 GPU inspection accounting: the newest generation of every published pool, the devices of complete
 pools, and the memory that claims reserve on them, read from unordered API lists.
 Quantities are integers; map iteration order is arbitrary.
 */
module GpuInspect {
  import opened Options
  import opened Sums

  const DRIVER := "gpu.kiac.dev"

  datatype Device = Device(name: string, memory: Option<int>)

  datatype Slice = Slice(driver: string, pool: string, generation: int, count: int, devices: seq<Device>)

  datatype Result = Result(driver: string, pool: string, device: string, share: string, memory: Option<int>,
      admin: bool)

  datatype Claim = Claim(results: seq<Result>)

  function Key(pool: string, device: string): string { pool + "/" + device }

  function ShareKey(r: Result): string { Key(r.pool, r.device) + "/" + r.share }

  predicate Mine(s: Slice) { s.driver == DRIVER }

  // ---- pools ----

  /** No kiac slice of the same pool has a higher generation. */
  predicate Newest(slices: seq<Slice>, s: Slice) {
    forall t :: t in slices && Mine(t) && t.pool == s.pool ==> t.generation <= s.generation
  }

  function InLatest(slices: seq<Slice>, pool: string): Slice -> bool {
    (s: Slice) => Mine(s) && s.pool == pool && Newest(slices, s)
  }

  /** The kiac slices of a pool's highest generation. */
  function Latest(slices: seq<Slice>, pool: string): seq<Slice> { Filter(slices, InLatest(slices, pool)) }

  type Pools = map<string, seq<Slice>>

  function KeepNewest(pools: Pools, s: Slice): Pools {
    if !Mine(s) then pools
    else
      var current := if s.pool in pools then pools[s.pool] else [];
      if current == [] || s.generation > current[0].generation then pools[s.pool := [s]]
      else if s.generation == current[0].generation then pools[s.pool := current + [s]]
      else pools
  }

  function Folded(slices: seq<Slice>): Pools {
    if slices == [] then map[] else KeepNewest(Folded(slices[..|slices| - 1]), slices[|slices| - 1])
  }

  predicate Published(slices: seq<Slice>, pool: string) { exists s :: s in slices && Mine(s) && s.pool == pool }

  lemma LatestMembers(slices: seq<Slice>, pool: string)
    ensures forall s :: s in Latest(slices, pool) <==> s in slices && Mine(s) && s.pool == pool && Newest(slices, s)
  {
    FilterMembers(slices, InLatest(slices, pool));
  }

  /** What one more slice does to the newest generation of a pool. */
  lemma LatestSnoc(init: seq<Slice>, s: Slice, pool: string)
    ensures var more := Latest(init + [s], pool);
            if !Mine(s) || s.pool != pool then more == Latest(init, pool)
            else if forall t :: t in init && Mine(t) && t.pool == pool ==> t.generation < s.generation then more == [s]
            else if Newest(init, s) then more == Latest(init, pool) + [s]
            else more == Latest(init, pool)
  {
    var all := init + [s];
    var p, q := InLatest(init, pool), InLatest(all, pool);
    assert all[..|init|] == init;
    if !Mine(s) || s.pool != pool {
      forall t | t in init ensures p(t) == q(t) { NewestSnoc(init, s, t); }
      FilterSame(init, p, q);
    } else if forall t :: t in init && Mine(t) && t.pool == pool ==> t.generation < s.generation {
      forall t | t in init ensures !q(t) { assert s in all; }
      FilterNone(init, q);
      NewestSnoc(init, s, s);
    } else {
      var t0 :| t0 in init && Mine(t0) && t0.pool == pool && s.generation <= t0.generation;
      NewestSnoc(init, s, s);
      forall t | t in init ensures p(t) == q(t) { NewestSnoc(init, s, t); }
      FilterSame(init, p, q);
    }
  }

  lemma NewestSnoc(init: seq<Slice>, s: Slice, t: Slice)
    ensures Newest(init + [s], t) <==> Newest(init, t) && (Mine(s) && s.pool == t.pool ==> s.generation <= t.generation)
  {
    if Newest(init + [s], t) {
      forall u | u in init && Mine(u) && u.pool == t.pool ensures u.generation <= t.generation {
        assert u in init + [s];
      }
      assert s in init + [s];
    }
  }

  lemma PublishedSnoc(init: seq<Slice>, s: Slice, pool: string)
    ensures Published(init + [s], pool) <==> Published(init, pool) || (Mine(s) && s.pool == pool)
  {
    var all := init + [s];
    if Published(init, pool) {
      var t :| t in init && Mine(t) && t.pool == pool;
      assert t in all;
    }
    assert s in all;
  }

  /** One step of the fold, on the pool it concerns. */
  lemma KeepNewestSnoc(init: seq<Slice>, s: Slice, pools: Pools)
    requires Mine(s) && (s.pool in pools <==> Published(init, s.pool))
    requires s.pool in pools ==> pools[s.pool] == Latest(init, s.pool) != []
    ensures s.pool in KeepNewest(pools, s) && KeepNewest(pools, s)[s.pool] == Latest(init + [s], s.pool) != []
  {
    hide Latest;
    LatestSnoc(init, s, s.pool);
    LatestMembers(init, s.pool);
    if s.pool in pools {
      var first := pools[s.pool][0];
      assert first in Latest(init, s.pool);
    }
  }

  /** The fold keeps exactly the kiac slices of the highest generation of each pool, in order. */
  lemma {:induction false} FoldKeepsNewest(slices: seq<Slice>, pool: string)
    ensures pool in Folded(slices) <==> Published(slices, pool)
    ensures pool in Folded(slices) ==> Folded(slices)[pool] == Latest(slices, pool) != []
  {
    hide Latest, Published;
    if slices == [] {
      NonePublished(pool);
    } else {
      var init, s := slices[..|slices| - 1], slices[|slices| - 1];
      assert slices == init + [s];
      FoldKeepsNewest(init, pool);
      PublishedSnoc(init, s, pool);
      if Mine(s) && s.pool == pool {
        KeepNewestSnoc(init, s, Folded(init));
      } else {
        LatestSnoc(init, s, pool);
      }
    }
  }

  lemma NonePublished(pool: string)
    ensures !Published([], pool)
  {
  }

  // ---- devices ----

  datatype Account = Account(capacity: int, used: int, unknown: bool)

  type Ledger = map<string, Account>

  datatype Entry = Entry(key: string, capacity: int)

  function Enter(ledger: Ledger, e: Entry): Ledger {
    if e.key in ledger then ledger[e.key := ledger[e.key].(unknown := true)]
    else ledger[e.key := Account(e.capacity, 0, false)]
  }

  function Tally(entries: seq<Entry>): Ledger {
    if entries == [] then map[] else Enter(Tally(entries[..|entries| - 1]), entries[|entries| - 1])
  }

  function Times(entries: seq<Entry>, k: string): int { Sum(entries, (e: Entry) => if e.key == k then 1 else 0) }

  function Amount(entries: seq<Entry>, k: string): int {
    Sum(entries, (e: Entry) => if e.key == k then e.capacity else 0)
  }

  /** A key is known when it was entered once, and then with that entry's capacity. */
  lemma {:induction false} TallySpec(entries: seq<Entry>, k: string)
    ensures var n := Times(entries, k);
            && n >= 0 && (k in Tally(entries) <==> n >= 1)
            && (n == 0 ==> Amount(entries, k) == 0)
            && (n >= 1 ==> Tally(entries)[k].used == 0 && (Tally(entries)[k].unknown <==> n >= 2))
            && (n == 1 ==> Tally(entries)[k].capacity == Amount(entries, k))
  {
    if entries != [] {
      TallySpec(entries[..|entries| - 1], k);
    }
  }

  function DeviceEntries(pool: string, devices: seq<Device>): seq<Entry> {
    if devices == [] then []
    else
      var d := devices[|devices| - 1];
      DeviceEntries(pool, devices[..|devices| - 1])
      + if d.memory.Some? then [Entry(Key(pool, d.name), d.memory.value)] else []
  }

  function SliceEntries(pool: string, slices: seq<Slice>): seq<Entry> {
    if slices == [] then []
    else SliceEntries(pool, slices[..|slices| - 1]) + DeviceEntries(pool, slices[|slices| - 1].devices)
  }

  /** The slice is of the newest generation of a pool whose inventory is complete. */
  predicate Live(slices: seq<Slice>, s: Slice) {
    var current := Latest(slices, s.pool);
    Mine(s) && Newest(slices, s) && current != [] && |current| == current[0].count
  }

  /** How often a slice publishes a key, and with what capacity in all. */
  function Copies(k: string): Slice -> int { (s: Slice) => Times(DeviceEntries(s.pool, s.devices), k) }

  function Capacity(k: string): Slice -> int { (s: Slice) => Amount(DeviceEntries(s.pool, s.devices), k) }

  function IfLive(slices: seq<Slice>, g: Slice -> int): Slice -> int {
    (s: Slice) => if Live(slices, s) then g(s) else 0
  }

  /** How often the live slices publish a key, and with what capacity in all. */
  function EntryCount(slices: seq<Slice>, k: string): int { Sum(slices, IfLive(slices, Copies(k))) }

  function EntryCapacity(slices: seq<Slice>, k: string): int { Sum(slices, IfLive(slices, Capacity(k))) }

  lemma {:induction false} SliceEntriesSum(pool: string, slices: seq<Slice>, k: string)
    requires forall s :: s in slices ==> s.pool == pool
    ensures Times(SliceEntries(pool, slices), k) == Sum(slices, Copies(k))
    ensures Amount(SliceEntries(pool, slices), k) == Sum(slices, Capacity(k))
  {
    if slices != [] {
      var init, last := slices[..|slices| - 1], slices[|slices| - 1];
      SliceEntriesSum(pool, init, k);
      SumConcat(SliceEntries(pool, init), DeviceEntries(pool, last.devices), (e: Entry) => if e.key == k then 1 else 0);
      var capacity := (e: Entry) => if e.key == k then e.capacity else 0;
      SumConcat(SliceEntries(pool, init), DeviceEntries(pool, last.devices), capacity);
    }
  }

  // ---- claims ----

  /** Counted: a kiac result without admin access whose share did not occur before in the claim. */
  predicate Counts(results: seq<Result>, i: nat)
    requires i < |results|
  {
    && results[i].driver == DRIVER && !results[i].admin
    && forall j :: 0 <= j < i && results[j].driver == DRIVER && !results[j].admin ==>
        ShareKey(results[j]) != ShareKey(results[i])
  }

  predicate Good(r: Result) { r.memory.Some? && r.memory.value >= 0 }

  function ReservedBy(results: seq<Result>, n: nat, k: string): int
    requires n <= |results|
  {
    if n == 0 then 0
    else
      var r := results[n - 1];
      ReservedBy(results, n - 1, k)
      + if Counts(results, n - 1) && Key(r.pool, r.device) == k && Good(r) then r.memory.value else 0
  }

  predicate Spoils(results: seq<Result>, n: nat, k: string)
    requires n <= |results|
  {
    exists i :: 0 <= i < n && Counts(results, i) && Key(results[i].pool, results[i].device) == k && !Good(results[i])
  }

  function Reserved(claims: seq<Claim>, k: string): int {
    Sum(claims, (c: Claim) => ReservedBy(c.results, |c.results|, k))
  }

  predicate Spoiled(claims: seq<Claim>, k: string) { exists c :: c in claims && Spoils(c.results, |c.results|, k) }

  function Seen(results: seq<Result>, n: nat): set<string>
    requires n <= |results|
  {
    set i | 0 <= i < n && results[i].driver == DRIVER && !results[i].admin :: ShareKey(results[i])
  }

  function Charge(ledger: Ledger, r: Result): Ledger {
    var k := Key(r.pool, r.device);
    if k !in ledger then ledger
    else if Good(r) then ledger[k := ledger[k].(used := ledger[k].used + r.memory.value)]
    else ledger[k := ledger[k].(unknown := true)]
  }

  function ChargedResults(ledger: Ledger, results: seq<Result>, n: nat): Ledger
    requires n <= |results|
  {
    if n == 0 then ledger
    else
      var before := ChargedResults(ledger, results, n - 1);
      if Counts(results, n - 1) then Charge(before, results[n - 1]) else before
  }

  function Charged(ledger: Ledger, claims: seq<Claim>): Ledger {
    if claims == [] then ledger
    else
      var c := claims[|claims| - 1];
      ChargedResults(Charged(ledger, claims[..|claims| - 1]), c.results, |c.results|)
  }

  lemma {:induction false} ChargedResultsSpec(ledger: Ledger, results: seq<Result>, n: nat, k: string)
    requires n <= |results|
    ensures var after := ChargedResults(ledger, results, n);
            && after.Keys == ledger.Keys
            && (k in ledger ==> after[k] == Account(ledger[k].capacity, ledger[k].used + ReservedBy(results, n, k),
                                                    ledger[k].unknown || Spoils(results, n, k)))
  {
    if n > 0 {
      ChargedResultsSpec(ledger, results, n - 1, k);
      var spoilt := Counts(results, n - 1) && Key(results[n - 1].pool, results[n - 1].device) == k
        && !Good(results[n - 1]);
      assert Spoils(results, n, k) <==> Spoils(results, n - 1, k) || spoilt;
    }
  }

  lemma {:induction false} ChargedSpec(ledger: Ledger, claims: seq<Claim>, k: string)
    ensures var after := Charged(ledger, claims);
            && after.Keys == ledger.Keys
            && (k in ledger ==> after[k] == Account(ledger[k].capacity, ledger[k].used + Reserved(claims, k),
                                                    ledger[k].unknown || Spoiled(claims, k)))
  {
    if claims != [] {
      var init, c := claims[..|claims| - 1], claims[|claims| - 1];
      ChargedSpec(ledger, init, k);
      ChargedResultsSpec(Charged(ledger, init), c.results, |c.results|, k);
      assert claims == init + [c];
      assert Spoiled(claims, k) <==> Spoiled(init, k) || Spoils(c.results, |c.results|, k);
    }
  }

  // ---- figures ----

  datatype Figure = Unknown | Known(reserved: int, unreserved: int)

  function FigureFor(a: Account): Figure {
    if !a.unknown && a.used <= a.capacity then Known(a.used, a.capacity - a.used) else Unknown
  }

  /** What the report should say about a device, from the lists alone. */
  function Expected(slices: seq<Slice>, claims: seq<Claim>, k: string): Figure {
    if EntryCount(slices, k) == 1 && !Spoiled(claims, k) && Reserved(claims, k) <= EntryCapacity(slices, k)
    then Known(Reserved(claims, k), EntryCapacity(slices, k) - Reserved(claims, k)) else Unknown
  }

  // ---- the report as it is built ----

  method FoldPools(slices: seq<Slice>) returns (pools: Pools)
    ensures forall pool :: pool in pools <==> Published(slices, pool)
    ensures forall pool :: pool in pools ==> pools[pool] == Latest(slices, pool) != []
  {
    pools := map[];
    for i := 0 to |slices|
      invariant pools == Folded(slices[..i])
    {
      assert slices[..i + 1][..i] == slices[..i];
      var slice := slices[i];
      if Mine(slice) {
        var current := if slice.pool in pools then pools[slice.pool] else [];
        if current == [] || slice.generation > current[0].generation {
          pools := pools[slice.pool := [slice]];
        } else if slice.generation == current[0].generation {
          pools := pools[slice.pool := current + [slice]];
        }
      }
    }
    assert slices[..|slices|] == slices;
    forall pool
      ensures pool in pools <==> Published(slices, pool)
      ensures pool in pools ==> pools[pool] == Latest(slices, pool) != []
    {
      FoldKeepsNewest(slices, pool);
    }
  }

  method EnterDevices(ledger: Ledger, pool: string, devices: seq<Device>, ghost entries: seq<Entry>) returns (r: Ledger)
    requires ledger == Tally(entries)
    ensures r == Tally(entries + DeviceEntries(pool, devices))
  {
    r := ledger;
    ghost var log := entries;
    assert entries + [] == entries;
    for i := 0 to |devices|
      invariant log == entries + DeviceEntries(pool, devices[..i]) && r == Tally(log)
    {
      assert devices[..i + 1][..i] == devices[..i];
      var d := devices[i];
      if d.memory.Some? {
        ghost var e := Entry(Key(pool, d.name), d.memory.value);
        assert (log + [e])[..|log|] == log;
        log := log + [e];
        var key := Key(pool, d.name);
        if key in r {
          r := r[key := r[key].(unknown := true)];
        } else {
          r := r[key := Account(d.memory.value, 0, false)];
        }
      }
    }
    assert devices[..|devices|] == devices;
  }

  method EnterSlices(ledger: Ledger, pool: string, slices: seq<Slice>, ghost entries: seq<Entry>) returns (r: Ledger)
    requires ledger == Tally(entries)
    ensures r == Tally(entries + SliceEntries(pool, slices))
  {
    hide Tally, DeviceEntries;
    r := ledger;
    assert entries + [] == entries;
    for i := 0 to |slices|
      invariant r == Tally(entries + SliceEntries(pool, slices[..i]))
    {
      assert slices[..i + 1][..i] == slices[..i];
      r := EnterDevices(r, pool, slices[i].devices, entries + SliceEntries(pool, slices[..i]));
      assert entries + SliceEntries(pool, slices[..i]) + DeviceEntries(pool, slices[i].devices)
          == entries + SliceEntries(pool, slices[..i + 1]);
    }
    assert slices[..|slices|] == slices;
  }

  method ChargeClaim(ledger: Ledger, results: seq<Result>) returns (r: Ledger)
    ensures r == ChargedResults(ledger, results, |results|)
  {
    r := ledger;
    var seen: set<string> := {};
    for i := 0 to |results|
      invariant seen == Seen(results, i) && r == ChargedResults(ledger, results, i)
    {
      var result := results[i];
      assert Seen(results, i + 1)
          == Seen(results, i) + if result.driver == DRIVER && !result.admin then {ShareKey(result)} else {};
      assert Counts(results, i) <==> result.driver == DRIVER && !result.admin && ShareKey(result) !in seen;
      if result.driver != DRIVER {
        continue;
      }
      if ShareKey(result) in seen || result.admin {
        continue;
      }
      seen := seen + {ShareKey(result)};
      var key := Key(result.pool, result.device);
      if key in r {
        if result.memory.None? || result.memory.value < 0 {
          r := r[key := r[key].(unknown := true)];
        } else {
          r := r[key := r[key].(used := r[key].used + result.memory.value)];
        }
      }
    }
  }

  function IfPart(slices: seq<Slice>, pools: set<string>, g: Slice -> int): Slice -> int {
    (s: Slice) => if s.pool in pools && Live(slices, s) then g(s) else 0
  }

  /** The slices of the given pools that count towards the inventory, weighed by `g`. */
  function Part(slices: seq<Slice>, pools: set<string>, g: Slice -> int): int { Sum(slices, IfPart(slices, pools, g)) }

  lemma PartGrows(slices: seq<Slice>, pools: set<string>, pool: string, g: Slice -> int)
    requires pool !in pools && Latest(slices, pool) != []
    ensures var current := Latest(slices, pool);
            Part(slices, pools + {pool}, g)
            == Part(slices, pools, g) + if |current| == current[0].count then Sum(current, g) else 0
  {
    var before, after := IfPart(slices, pools, g), IfPart(slices, pools + {pool}, g);
    if |Latest(slices, pool)| == Latest(slices, pool)[0].count {
      SumFilter(slices, InLatest(slices, pool), g);
      SumPlus(slices, before, Masked(InLatest(slices, pool), g), after);
    } else {
      SumSame(slices, before, after);
    }
  }

  /** Entries so far: what the live slices of the pools already handled publish. */
  ghost predicate Entered(slices: seq<Slice>, pools: set<string>, entries: seq<Entry>) {
    forall k :: Times(entries, k) == Part(slices, pools, Copies(k))
      && Amount(entries, k) == Part(slices, pools, Capacity(k))
  }

  lemma EnteredNothing(slices: seq<Slice>)
    ensures Entered(slices, {}, [])
  {
    forall k ensures Part(slices, {}, Copies(k)) == 0 == Part(slices, {}, Capacity(k)) {
      SumZero(slices, IfPart(slices, {}, Copies(k)));
      SumZero(slices, IfPart(slices, {}, Capacity(k)));
    }
  }

  lemma EnteredPool(slices: seq<Slice>, pools: set<string>, entries: seq<Entry>, pool: string)
    requires Entered(slices, pools, entries) && pool !in pools && Latest(slices, pool) != []
    ensures var current := Latest(slices, pool);
            Entered(slices, pools + {pool},
                    entries + if |current| == current[0].count then SliceEntries(pool, current) else [])
  {
    var current := Latest(slices, pool);
    var more := if |current| == current[0].count then SliceEntries(pool, current) else [];
    LatestMembers(slices, pool);
    forall k ensures Times(entries + more, k) == Part(slices, pools + {pool}, Copies(k))
                  && Amount(entries + more, k) == Part(slices, pools + {pool}, Capacity(k)) {
      hide Latest, Sum;
      PartGrows(slices, pools, pool, Copies(k));
      PartGrows(slices, pools, pool, Capacity(k));
      EntriesJoin(entries, more, k);
      SliceEntriesSum(pool, current, k);
      EntriesNone(k);
    }
  }

  lemma EntriesNone(k: string)
    ensures Times([], k) == 0 == Amount([], k)
  {
  }

  lemma EntriesJoin(a: seq<Entry>, b: seq<Entry>, k: string)
    ensures Times(a + b, k) == Times(a, k) + Times(b, k) && Amount(a + b, k) == Amount(a, k) + Amount(b, k)
  {
    SumConcat(a, b, (e: Entry) => if e.key == k then 1 else 0);
    SumConcat(a, b, (e: Entry) => if e.key == k then e.capacity else 0);
  }

  lemma EnteredAll(slices: seq<Slice>, pools: set<string>, entries: seq<Entry>)
    requires Entered(slices, pools, entries) && forall pool :: Published(slices, pool) ==> pool in pools
    ensures forall k :: Times(entries, k) == EntryCount(slices, k) && Amount(entries, k) == EntryCapacity(slices, k)
  {
    forall k ensures Times(entries, k) == EntryCount(slices, k) && Amount(entries, k) == EntryCapacity(slices, k) {
      PartAll(slices, pools, Copies(k));
      PartAll(slices, pools, Capacity(k));
    }
  }

  lemma PartAll(slices: seq<Slice>, pools: set<string>, g: Slice -> int)
    requires forall pool :: Published(slices, pool) ==> pool in pools
    ensures Part(slices, pools, g) == Sum(slices, IfLive(slices, g))
  {
    forall s | s in slices ensures IfPart(slices, pools, g)(s) == IfLive(slices, g)(s) {
      if Mine(s) {
        assert Published(slices, s.pool);
      }
    }
    SumSame(slices, IfPart(slices, pools, g), IfLive(slices, g));
  }

  /** Every pool in turn, in an order nobody controls. */
  method EnterPools(slices: seq<Slice>) returns (ledger: Ledger, ghost entries: seq<Entry>)
    ensures ledger == Tally(entries)
    ensures forall k :: Times(entries, k) == EntryCount(slices, k) && Amount(entries, k) == EntryCapacity(slices, k)
  {
    hide Tally, Latest, SliceEntries, Entered;
    var pools := FoldPools(slices);
    ledger, entries := map[], [];
    TallyNothing();
    EnteredNothing(slices);
    var left := pools.Keys;
    assert pools.Keys - left == {};
    while left != {}
      invariant left <= pools.Keys && ledger == Tally(entries) && Entered(slices, pools.Keys - left, entries)
      decreases |left|
    {
      var pool :| pool in left;
      var current := pools[pool];
      EnteredPool(slices, pools.Keys - left, entries, pool);
      assert pools.Keys - left + {pool} == pools.Keys - (left - {pool});
      if |current| == current[0].count {
        ledger := EnterSlices(ledger, pool, current, entries);
        entries := entries + SliceEntries(pool, current);
      } else {
        assert entries + [] == entries;
      }
      left := left - {pool};
    }
    assert pools.Keys - left == pools.Keys;
    EnteredAll(slices, pools.Keys, entries);
  }

  lemma TallyNothing()
    ensures Tally([]) == map[]
  {
  }

  method ChargeClaims(ledger: Ledger, claims: seq<Claim>) returns (r: Ledger)
    ensures r == Charged(ledger, claims)
  {
    r := ledger;
    for i := 0 to |claims|
      invariant r == Charged(ledger, claims[..i])
    {
      assert claims[..i + 1][..i] == claims[..i];
      r := ChargeClaim(r, claims[i].results);
    }
    assert claims[..|claims|] == claims;
  }

  /** The whole report: a device is listed when a live slice publishes it, with the expected figure. */
  method Inspect(slices: seq<Slice>, claims: seq<Claim>) returns (report: map<string, Figure>)
    ensures forall k :: k in report <==> EntryCount(slices, k) >= 1
    ensures forall k :: k in report ==> report[k] == Expected(slices, claims, k)
  {
    hide *;
    var ledger, entries := EnterPools(slices);
    var after := ChargeClaims(ledger, claims);
    forall k ensures k in after <==> EntryCount(slices, k) >= 1
             ensures k in after ==> FigureFor(after[k]) == Expected(slices, claims, k) {
      FigureIs(slices, claims, entries, k);
    }
    report := map k | k in after :: FigureFor(after[k]);
  }

  lemma FigureIs(slices: seq<Slice>, claims: seq<Claim>, entries: seq<Entry>, k: string)
    requires Times(entries, k) == EntryCount(slices, k) && Amount(entries, k) == EntryCapacity(slices, k)
    ensures var after := Charged(Tally(entries), claims);
            && (k in after <==> EntryCount(slices, k) >= 1)
            && (k in after ==> FigureFor(after[k]) == Expected(slices, claims, k))
  {
    hide Times, Amount, EntryCount, EntryCapacity, Charged, Tally, Reserved, Spoiled;
    TallySpec(entries, k);
    ChargedSpec(Tally(entries), claims, k);
  }

  // ---- order ----

  lemma LatestReordered(xs: seq<Slice>, ys: seq<Slice>, pool: string)
    requires multiset(xs) == multiset(ys)
    ensures |Latest(xs, pool)| == |Latest(ys, pool)|
    ensures forall s :: s in Latest(xs, pool) <==> s in Latest(ys, pool)
    ensures forall s :: Newest(xs, s) == Newest(ys, s)
  {
    SameMembers(xs, ys);
    LatestMembers(xs, pool);
    LatestMembers(ys, pool);
    FilterSame(ys, InLatest(xs, pool), InLatest(ys, pool));
    FilterPermuted(xs, ys, InLatest(xs, pool));
  }

  /** Within each pool's newest generation, the slices agree whether the inventory is complete. */
  ghost predicate Agreed(slices: seq<Slice>) {
    forall pool, s, t :: s in Latest(slices, pool) && t in Latest(slices, pool)
      ==> (s.count == |Latest(slices, pool)| <==> t.count == |Latest(slices, pool)|)
  }

  ghost predicate LiveUnordered(slices: seq<Slice>) {
    forall ys, s | multiset(ys) == multiset(slices) :: Live(ys, s) == Live(slices, s)
  }

  /** Which slices count is independent of the order of the list exactly when they agree. */
  lemma OrderIrrelevantExactly(slices: seq<Slice>)
    ensures LiveUnordered(slices) <==> Agreed(slices)
  {
    hide Latest, Newest;
    if Agreed(slices) {
      forall ys, s | multiset(ys) == multiset(slices) ensures Live(ys, s) == Live(slices, s) {
        LatestReordered(ys, slices, s.pool);
        if Latest(slices, s.pool) != [] {
          assert Latest(ys, s.pool)[0] in Latest(ys, s.pool) && Latest(slices, s.pool)[0] in Latest(slices, s.pool);
        }
      }
    }
    if LiveUnordered(slices) {
      forall pool, s, t | s in Latest(slices, pool) && t in Latest(slices, pool)
        ensures s.count == |Latest(slices, pool)| <==> t.count == |Latest(slices, pool)| {
        LatestMembers(slices, pool);
        var first := PutFirst(slices, pool, s);
        var second := PutFirst(slices, pool, t);
        LatestReordered(first, slices, pool);
        LatestReordered(second, slices, pool);
        assert Live(first, s) == Live(slices, s) == Live(second, s);
      }
    }
  }

  /** Some order of the list has a given newest slice first in its pool. */
  lemma PutFirst(slices: seq<Slice>, pool: string, s: Slice) returns (ys: seq<Slice>)
    requires s in slices && InLatest(slices, pool)(s)
    ensures multiset(ys) == multiset(slices) && Latest(ys, pool) != [] && Latest(ys, pool)[0] == s
  {
    var i :| 0 <= i < |slices| && slices[i] == s;
    var rest := slices[..i] + slices[i + 1..];
    ys := [s] + rest;
    assert slices == slices[..i] + [s] + slices[i + 1..];
    SameMembers(slices, ys);
    FilterCons(s, rest, InLatest(ys, pool));
  }

  /** With that agreement, no order of the two lists changes what the report says. */
  lemma ReportUnordered(slices: seq<Slice>, claims: seq<Claim>, ys: seq<Slice>, zs: seq<Claim>, k: string)
    requires Agreed(slices) && multiset(ys) == multiset(slices) && multiset(zs) == multiset(claims)
    ensures EntryCount(ys, k) == EntryCount(slices, k)
    ensures Expected(ys, zs, k) == Expected(slices, claims, k)
  {
    OrderIrrelevantExactly(slices);
    LiveSumUnordered(slices, ys, Copies(k));
    LiveSumUnordered(slices, ys, Capacity(k));
    SumPermuted(zs, claims, (c: Claim) => ReservedBy(c.results, |c.results|, k));
    SameMembers(zs, claims);
  }

  lemma LiveSumUnordered(slices: seq<Slice>, ys: seq<Slice>, g: Slice -> int)
    requires LiveUnordered(slices) && multiset(ys) == multiset(slices)
    ensures Sum(ys, IfLive(ys, g)) == Sum(slices, IfLive(slices, g))
  {
    SumSame(ys, IfLive(ys, g), IfLive(slices, g));
    SumPermuted(ys, slices, IfLive(slices, g));
  }

  lemma TwoSlices(a: Slice, b: Slice, k: string)
    requires Mine(a) && Mine(b) && a.pool == b.pool && a.generation == b.generation
    ensures EntryCount([a, b], k) == if a.count == 2 then Copies(k)(a) + Copies(k)(b) else 0
  {
    var both := [a, b];
    assert Latest(both, a.pool) == both by {
      assert both == [a] + [b] && [a] + [] == [a] && [b] + [] == [b];
      FilterCons(a, [b], InLatest(both, a.pool));
      FilterCons(b, [], InLatest(both, a.pool));
    }
    assert Newest(both, a) && Newest(both, b);
    SumTwo(a, b, IfLive(both, Copies(k)));
  }

  lemma SumTwo(a: Slice, b: Slice, f: Slice -> int)
    ensures Sum([a, b], f) == f(a) + f(b)
  {
    assert [a, b] == [a] + [b] && [b] == [b] + [];
    SumCons(a, [b], f);
    SumCons(b, [], f);
  }

  lemma OneEntry(pool: string, d: Device)
    requires d.memory.Some?
    ensures Times(DeviceEntries(pool, [d]), Key(pool, d.name)) == 1
  {
    var e := Entry(Key(pool, d.name), d.memory.value);
    assert DeviceEntries(pool, [d]) == [e];
    calc {
      Times([e], e.key);
      Times([e][..0], e.key) + 1;
      { assert [e][..0] == []; EntriesNone(e.key); }
      1;
    }
  }

  // ---- results within a claim ----

  predicate Eligible(r: Result) { r.driver == DRIVER && !r.admin }

  predicate SameShare(r: Result, q: Result) { Eligible(r) && Eligible(q) && ShareKey(r) == ShareKey(q) }

  /** Results for one share say the same. */
  predicate SharesAgree(results: seq<Result>) {
    forall i, j :: 0 <= i < |results| && 0 <= j < |results| && SameShare(results[i], results[j]) ==>
        results[i] == results[j]
  }

  /** What a claim charges on a device: unknown when a counted result has no usable amount. */
  function Charges(results: seq<Result>, k: string): Option<int> {
    if Spoils(results, |results|, k) then None else Some(ReservedBy(results, |results|, k))
  }

  function Weight(r: Result, k: string): int {
    if Key(r.pool, r.device) == k && Good(r) then r.memory.value else 0
  }

  predicate Bad(r: Result, k: string) { Key(r.pool, r.device) == k && !Good(r) }

  /** Some share has only results that make the device unknown. */
  ghost predicate SurelyBad(results: seq<Result>, k: string) {
    exists r :: r in results && Eligible(r) && forall q :: q in results && SameShare(r, q) ==> Bad(q, k)
  }

  /** No eligible result makes it unknown, and those of one share charge the same. */
  ghost predicate SharesMatch(results: seq<Result>, k: string) {
    && (forall r :: r in results && Eligible(r) ==> !Bad(r, k))
    && (forall r, q :: r in results && q in results && SameShare(r, q) ==> Weight(r, k) == Weight(q, k))
  }

  /** The first result of a share counts. */
  lemma {:induction false} FirstCounts(results: seq<Result>, i: nat) returns (j: nat)
    requires i < |results| && Eligible(results[i])
    ensures j <= i && Counts(results, j) && SameShare(results[i], results[j])
  {
    hide ShareKey;
    if Counts(results, i) {
      j := i;
    } else {
      var before :| 0 <= before < i && Eligible(results[before]) && ShareKey(results[before]) == ShareKey(results[i]);
      j := FirstCounts(results, before);
    }
  }

  /** A share's charge, the same for all its results. */
  ghost function Common(results: seq<Result>, k: string): string -> int {
    key =>
      if exists r :: r in results && Eligible(r) && ShareKey(r) == key
      then var r :| r in results && Eligible(r) && ShareKey(r) == key; Weight(r, k) else 0
  }

  lemma CommonIs(results: seq<Result>, k: string, r: Result)
    requires r in results && Eligible(r)
    requires forall q :: q in results && SameShare(r, q) ==> Weight(q, k) == Weight(r, k)
    ensures Common(results, k)(ShareKey(r)) == Weight(r, k)
  {
    hide ShareKey, Weight;
    var q :| q in results && Eligible(q) && ShareKey(q) == ShareKey(r)
             && Common(results, k)(ShareKey(r)) == Weight(q, k);
    assert SameShare(r, q);
  }

  /** What is reserved is the sum over the shares seen. */
  lemma {:induction false} ReservedIsSum(results: seq<Result>, n: nat, k: string, charge: string -> int)
    requires n <= |results|
    requires forall i :: 0 <= i < n && Counts(results, i) ==> charge(ShareKey(results[i])) == Weight(results[i], k)
    ensures ReservedBy(results, n, k) == SetSum(Seen(results, n), charge)
  {
    hide Counts, Seen, Weight, ReservedBy, ShareKey;
    ReservedNext(results, n, k);
    if n == 0 {
      assert Seen(results, n) == {} by { NoneSeen(results); }
    } else {
      ReservedIsSum(results, n - 1, k, charge);
      SeenNext(results, n - 1);
      if Counts(results, n - 1) {
        SetSumAdd(Seen(results, n - 1), ShareKey(results[n - 1]), charge);
      }
    }
  }

  lemma ReservedNext(results: seq<Result>, n: nat, k: string)
    requires n <= |results|
    ensures n == 0 ==> ReservedBy(results, n, k) == 0
    ensures n > 0 ==> ReservedBy(results, n, k) == ReservedBy(results, n - 1, k)
                                                   + if Counts(results, n - 1) then Weight(results[n - 1], k) else 0
  {
    hide Counts, Key;
  }

  lemma NoneSeen(results: seq<Result>)
    ensures Seen(results, 0) == {}
  {
  }

  /** A result counts exactly when its share is new. */
  lemma SeenNext(results: seq<Result>, n: nat)
    requires n < |results|
    ensures var key := ShareKey(results[n]);
            if Counts(results, n) then key !in Seen(results, n) && Seen(results, n + 1) == Seen(results, n) + {key}
            else Seen(results, n + 1) == Seen(results, n)
  {
    hide ShareKey;
  }

  lemma SameSeen(results: seq<Result>, others: seq<Result>)
    requires forall r :: r in results <==> r in others
    ensures Seen(results, |results|) == Seen(others, |others|)
  {
    hide ShareKey;
    forall key ensures key in Seen(results, |results|) <==> key in Seen(others, |others|) {
      if i :| 0 <= i < |results| && Eligible(results[i]) && ShareKey(results[i]) == key {
        assert results[i] in others;
      }
      if i :| 0 <= i < |others| && Eligible(others[i]) && ShareKey(others[i]) == key {
        assert others[i] in results;
      }
    }
  }

  /** Reservations that agree share by share do not depend on order. */
  lemma MatchReserved(results: seq<Result>, others: seq<Result>, k: string)
    requires forall r :: r in results <==> r in others
    requires forall r, q :: r in results && q in results && SameShare(r, q) ==> Weight(r, k) == Weight(q, k)
    ensures ReservedBy(others, |others|, k) == ReservedBy(results, |results|, k)
  {
    hide Weight, ShareKey, ReservedBy, Seen, Common;
    var charge := Common(results, k);
    forall r | r in results && Eligible(r) ensures charge(ShareKey(r)) == Weight(r, k) { CommonIs(results, k, r); }
    forall i | 0 <= i < |others| && Counts(others, i)
      ensures charge(ShareKey(others[i])) == Weight(others[i], k)
    {
      assert others[i] in results;
    }
    ReservedIsSum(results, |results|, k, charge);
    ReservedIsSum(others, |others|, k, charge);
    SameSeen(results, others);
  }

  /** When results of one share agree, the order of the results within a claim does not matter. */
  lemma ResultsUnordered(results: seq<Result>, others: seq<Result>, k: string)
    requires SharesAgree(results) && multiset(results) == multiset(others)
    ensures ReservedBy(others, |others|, k) == ReservedBy(results, |results|, k)
    ensures Spoils(others, |others|, k) <==> Spoils(results, |results|, k)
  {
    SameMembers(results, others);
    AgreeReordered(results, others);
    hide SameShare, Weight, ReservedBy, Spoils;
    forall r, q | r in results && q in results && SameShare(r, q) ensures Weight(r, k) == Weight(q, k) {
      var a, b :| 0 <= a < |results| && 0 <= b < |results| && results[a] == r && results[b] == q;
    }
    MatchReserved(results, others, k);
    if Spoils(results, |results|, k) {
      SpoilsAgain(results, others, k);
    }
    if Spoils(others, |others|, k) {
      SpoilsAgain(others, results, k);
    }
  }

  lemma SpoilsAgain(results: seq<Result>, others: seq<Result>, k: string)
    requires SharesAgree(others) && forall r :: r in results <==> r in others
    requires Spoils(results, |results|, k)
    ensures Spoils(others, |others|, k)
  {
    hide ShareKey, Key, Good;
    var i :| 0 <= i < |results| && Counts(results, i) && Bad(results[i], k);
    assert results[i] in others;
    var m :| 0 <= m < |others| && others[m] == results[i];
    var j := FirstCounts(others, m);
    assert others[j] == results[i];
    assert Counts(others, j) && Bad(others[j], k);
  }

  /** A share that is surely bad spoils the figure in every order. */
  lemma SurelySpoils(results: seq<Result>, k: string)
    requires SurelyBad(results, k)
    ensures Spoils(results, |results|, k)
  {
    hide ShareKey, Key, Good;
    var r :| r in results && Eligible(r) && forall q :: q in results && SameShare(r, q) ==> Bad(q, k);
    var m :| 0 <= m < |results| && results[m] == r;
    var j := FirstCounts(results, m);
    assert Bad(results[j], k);
  }

  /** Good results first, then bad ones: without a surely bad share nothing is spoilt. */
  lemma GoodFirst(results: seq<Result>, k: string) returns (others: seq<Result>)
    requires !SurelyBad(results, k)
    ensures multiset(others) == multiset(results) && !Spoils(others, |others|, k)
  {
    hide SurelyBad, Bad, Spoils;
    var p, q := (r: Result) => !Bad(r, k), (r: Result) => Bad(r, k);
    FilterMembers(results, p);
    FilterMembers(results, q);
    Parted(results, p, q);
    others := Filter(results, p) + Filter(results, q);
    NoneSpoilt(results, Filter(results, p), Filter(results, q), k);
  }

  lemma NoneSpoilt(results: seq<Result>, good: seq<Result>, bad: seq<Result>, k: string)
    requires !SurelyBad(results, k)
    requires forall r :: r in good <==> r in results && !Bad(r, k)
    requires forall r :: r in bad <==> r in results && Bad(r, k)
    ensures !Spoils(good + bad, |good + bad|, k)
  {
    hide SameShare, SurelyBad, Bad, Eligible, Counts;
    var others := good + bad;
    forall i | 0 <= i < |others| && Counts(others, i) ensures !Bad(others[i], k) {
      if i >= |good| {
        assert others[i] == bad[i - |good|];
        CountsEligible(others, i);
        var q := NotSurelyBad(results, others[i], k);
        var j :| 0 <= j < |good| && good[j] == q;
        assert others[j] == q;
        CountsFirst(others, j, i);
      } else {
        assert others[i] == good[i];
      }
    }
    SpoilsOnlyByBad(others, k);
  }

  lemma CountsEligible(results: seq<Result>, i: nat)
    requires i < |results| && Counts(results, i)
    ensures Eligible(results[i])
  {
  }

  lemma CountsFirst(results: seq<Result>, j: nat, i: nat)
    requires j < i < |results| && SameShare(results[i], results[j])
    ensures !Counts(results, i)
  {
    hide ShareKey;
  }

  lemma NotSurelyBad(results: seq<Result>, r: Result, k: string) returns (q: Result)
    requires !SurelyBad(results, k) && r in results && Eligible(r)
    ensures q in results && SameShare(r, q) && !Bad(q, k)
  {
    hide SameShare, Bad, Eligible;
    q :| q in results && SameShare(r, q) && !Bad(q, k);
  }

  lemma SpoilsOnlyByBad(results: seq<Result>, k: string)
    requires forall i :: 0 <= i < |results| && Counts(results, i) ==> !Bad(results[i], k)
    ensures !Spoils(results, |results|, k)
  {
    hide Counts, Key, Good;
  }

  lemma BadFirst(results: seq<Result>, k: string, r: Result) returns (others: seq<Result>)
    requires r in results && Eligible(r) && Bad(r, k)
    ensures multiset(others) == multiset(results) && Spoils(others, |others|, k)
  {
    hide ShareKey, Key, Good;
    var m :| 0 <= m < |results| && results[m] == r;
    others := [r] + (results[..m] + results[m + 1..]);
    Without(results, m);
    assert Counts(others, 0) && Bad(others[0], k);
  }

  /** One of two results of a share first, then the other, then the rest. */
  lemma Swapped(x: Result, y: Result, rest: seq<Result>, n: nat, k: string)
    requires SameShare(x, y) && n <= |rest|
    ensures var a, b := [x, y] + rest, [y, x] + rest;
            ReservedBy(a, n + 2, k) - Weight(x, k) == ReservedBy(b, n + 2, k) - Weight(y, k)
  {
    hide ShareKey, Key, Good;
    var a, b := [x, y] + rest, [y, x] + rest;
    if n == 0 {
      TwoOfShare(x, y, rest, k);
      TwoOfShare(y, x, rest, k);
    } else {
      Swapped(x, y, rest, n - 1, k);
      CountsSwapped(x, y, rest, n - 1);
    }
  }

  lemma TwoOfShare(x: Result, y: Result, rest: seq<Result>, k: string)
    requires SameShare(x, y)
    ensures ReservedBy([x, y] + rest, 2, k) == Weight(x, k)
  {
    hide ShareKey, Key, Good;
    var a := [x, y] + rest;
    assert Counts(a, 0) && !Counts(a, 1);
    assert ReservedBy(a, 0, k) == 0 && ReservedBy(a, 1, k) == Weight(x, k);
  }

  lemma CountsSwapped(x: Result, y: Result, rest: seq<Result>, n: nat)
    requires SameShare(x, y) && n < |rest|
    ensures Counts([x, y] + rest, n + 2) <==> Counts([y, x] + rest, n + 2)
  {
    hide ShareKey;
    var a, b := [x, y] + rest, [y, x] + rest;
    assert a[0] == b[1] && a[1] == b[0] && forall i :: 2 <= i < |a| ==> a[i] == b[i];
  }

  /** Two results of one share that charge differently: the one that comes first decides. */
  lemma DifferentFirst(results: seq<Result>, k: string, i: nat, j: nat) returns (a: seq<Result>, b: seq<Result>)
    requires i < j < |results| && SameShare(results[i], results[j]) && Weight(results[i], k) != Weight(results[j], k)
    ensures multiset(a) == multiset(results) == multiset(b)
    ensures ReservedBy(a, |a|, k) != ReservedBy(b, |b|, k)
  {
    hide SameShare, Weight, ReservedBy;
    var x, y := results[i], results[j];
    var others := results[..j] + results[j + 1..];
    var rest := others[..i] + others[i + 1..];
    Without(results, j);
    Without(others, i);
    a, b := [x, y] + rest, [y, x] + rest;
    Swapped(x, y, rest, |rest|, k);
  }

  lemma Without(results: seq<Result>, i: nat)
    requires i < |results|
    ensures multiset(results) == multiset{results[i]} + multiset(results[..i] + results[i + 1..])
  {
    assert results == results[..i] + ([results[i]] + results[i + 1..]);
  }

  /**
   What a claim charges on a device does not depend on the order of its results exactly when some share is
   surely bad, or nothing is bad and results of one share charge the same.
   */
  lemma ResultsUnorderedExactly(results: seq<Result>, k: string)
    ensures (forall others | multiset(others) == multiset(results) :: Charges(others, k) == Charges(results, k)) <==>
            SurelyBad(results, k) || SharesMatch(results, k)
  {
    hide SameShare, Eligible, Weight, ReservedBy, Bad, Spoils;
    if SurelyBad(results, k) {
      forall others | multiset(others) == multiset(results) ensures Charges(others, k) == Charges(results, k) {
        SameMembers(results, others);
        SurelySpoils(results, k);
        SurelySpoils(others, k);
      }
    } else if SharesMatch(results, k) {
      forall others | multiset(others) == multiset(results) ensures Charges(others, k) == Charges(results, k) {
        SameMembers(results, others);
        MatchReserved(results, others, k);
        NeverSpoils(results, k);
        NeverSpoils(others, k);
      }
    } else {
      var a, b := OrderMatters(results, k);
    }
  }

  lemma NeverSpoils(results: seq<Result>, k: string)
    requires forall r :: r in results && Eligible(r) ==> !Bad(r, k)
    ensures !Spoils(results, |results|, k)
  {
    hide Bad;
    SpoilsOnlyByBad(results, k);
  }

  /** Otherwise two orders give different figures. */
  lemma OrderMatters(results: seq<Result>, k: string) returns (a: seq<Result>, b: seq<Result>)
    requires !SurelyBad(results, k) && !SharesMatch(results, k)
    ensures multiset(a) == multiset(results) == multiset(b) && Charges(a, k) != Charges(b, k)
  {
    hide SameShare, Weight, ReservedBy, Bad, Spoils, Eligible, SurelyBad;
    if r :| r in results && Eligible(r) && Bad(r, k) {
      a := BadFirst(results, k, r);
      b := GoodFirst(results, k);
    } else {
      var r, q :| r in results && q in results && SameShare(r, q) && Weight(r, k) != Weight(q, k);
      var i, j :| 0 <= i < |results| && 0 <= j < |results| && results[i] == r && results[j] == q;
      if i < j {
        a, b := DifferentFirst(results, k, i, j);
      } else {
        ShareSymmetric(r, q);
        a, b := DifferentFirst(results, k, j, i);
      }
      SameMembers(results, a);
      SameMembers(results, b);
      NeverSpoils(a, k);
      NeverSpoils(b, k);
    }
  }

  lemma ShareSymmetric(r: Result, q: Result)
    requires SameShare(r, q)
    ensures SameShare(q, r)
  {
  }

  lemma AgreeReordered(results: seq<Result>, others: seq<Result>)
    requires SharesAgree(results) && forall r :: r in results <==> r in others
    ensures SharesAgree(others)
  {
    hide SameShare;
    forall i, j | 0 <= i < |others| && 0 <= j < |others| && SameShare(others[i], others[j])
      ensures others[i] == others[j]
    {
      assert others[i] in results && others[j] in results;
      var a, b :| 0 <= a < |results| && 0 <= b < |results| && results[a] == others[i] && results[b] == others[j];
    }
  }

  /** Two results for one share that differ: the first of them decides. */
  lemma DifferingShareDependsOnOrder(r: Result, m: nat, n: nat)
    requires Eligible(r)
    ensures var x, y, k := r.(memory := Some(m)), r.(memory := Some(n)), Key(r.pool, r.device);
            ReservedBy([x, y], 2, k) == m && ReservedBy([y, x], 2, k) == n
  {
    FirstOfShare(r.(memory := Some(m)), r.(memory := Some(n)));
    FirstOfShare(r.(memory := Some(n)), r.(memory := Some(m)));
  }

  lemma FirstOfShare(x: Result, y: Result)
    requires Eligible(x) && Eligible(y) && ShareKey(x) == ShareKey(y) && Good(x)
    ensures ReservedBy([x, y], 2, Key(x.pool, x.device)) == x.memory.value
  {
    hide ShareKey, Key;
    var both := [x, y];
    assert Counts(both, 0) && !Counts(both, 1);
    assert ReservedBy(both, 0, Key(x.pool, x.device)) == 0;
    assert ReservedBy(both, 1, Key(x.pool, x.device)) == x.memory.value;
  }

  /** Slices of one generation that disagree: the first of them decides. */
  lemma DisagreementDependsOnOrder()
    ensures exists a: Slice, b: Slice :: EntryCount([a, b], "p/g") == 1 && EntryCount([b, a], "p/g") == 0
  {
    var a := Slice(DRIVER, "p", 1, 2, [Device("g", Some(8))]);
    var b := Slice(DRIVER, "p", 1, 1, []);
    TwoSlices(a, b, "p/g");
    TwoSlices(b, a, "p/g");
    OneEntry("p", a.devices[0]);
    assert EntryCount([a, b], "p/g") == 1 && EntryCount([b, a], "p/g") == 0;
  }

  // ---- keys ----

  /** Keys tell devices apart as long as device names hold no slash. */
  lemma KeysDistinct(p: string, d: string, q: string, e: string)
    requires '/' !in d && '/' !in e
    ensures Key(p, d) == Key(q, e) <==> p == q && d == e
  {
    LastSlash(p, d);
    LastSlash(q, e);
    assert Key(p, d)[..|p|] == p && Key(q, e)[..|q|] == q;
    assert Key(p, d)[|p| + 1..] == d && Key(q, e)[|q| + 1..] == e;
  }

  lemma LastSlash(p: string, d: string)
    requires '/' !in d
    ensures Key(p, d)[|p|] == '/'
    ensures forall i :: |p| < i < |Key(p, d)| ==> Key(p, d)[i] != '/'
  {
    forall i | |p| < i < |Key(p, d)| ensures Key(p, d)[i] != '/' {
      assert Key(p, d)[i] == d[i - |p| - 1];
    }
  }

  /** Share keys tell shares apart as long as device names and shares hold none. */
  lemma ShareKeysDistinct(r: Result, q: Result)
    requires '/' !in r.device && '/' !in q.device && '/' !in r.share && '/' !in q.share
    ensures ShareKey(r) == ShareKey(q) <==> r.pool == q.pool && r.device == q.device && r.share == q.share
  {
    KeysDistinct(Key(r.pool, r.device), r.share, Key(q.pool, q.device), q.share);
    KeysDistinct(r.pool, r.device, q.pool, q.device);
  }
}
