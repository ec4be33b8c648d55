/**
  Keeping the metadata cache in agreement with the catalog (the invalidation counters and
  MDCacheNeedsReset in gpopt/gpdbwrappers.cpp, the cache handling of OptimizeTask in
  gpopt/utils/COptTasks.cpp).

  Catalog changes call back into a 64-bit counter once the callbacks are registered. Each
  optimization compares the counter with the value of the previous comparison and empties
  the whole cache when they differ.
 */
module MdCache {
  datatype Option<T> = None | Some(value: T)

  const MODULUS: int := 0x1_0000_0000_0000_0000
  const HALF: int := 0x8000_0000_0000_0000

  // Signed 64-bit wrap-around.
  function Wrap(x: int): (r: int)
    ensures -HALF <= r < HALF
  {
    (x + HALF) % MODULUS - HALF
  }

  // Cached objects with the catalog version they were loaded at.
  datatype Cache = Cache(objects: map<nat, nat>, quota: nat)

  datatype State = State(registered: bool, counter: int, last: int, cache: Option<Cache>)

  // The catalog's version, and how many changes were counted since the last comparison.
  datatype Clock = Clock(version: nat, pending: nat)

  datatype World = World(state: State, clock: Clock)

  datatype Event =
    | CatalogChange
    | Start(quota: nat, evicted: set<nat>)
    | Load(oid: nat)
    | Evict(evicted: set<nat>)
    | Failure
    | Finish(caching: bool)

  const INITIAL := World(State(false, 0, 0, None), Clock(0, 0))

  // ----- the operations -----

  // The callbacks; changes before the first optimization are not seen.
  function Counted(s: State): State {
    if s.registered then s.(counter := Wrap(s.counter + 1)) else s
  }

  // MDCacheNeedsReset
  function Checked(s: State): State { s.(registered := true, last := s.counter) }

  predicate NeedsReset(s: State) { s.last != s.counter }

  function Without(c: Cache, evicted: set<nat>): Cache {
    c.(objects := map k | k in c.objects && k !in evicted :: c.objects[k])
  }

  // Setting the quota may evict objects.
  function SetQuota(c: Cache, quota: nat, evicted: set<nat>): Cache { Without(c, evicted).(quota := quota) }

  /** The start of OptimizeTask: initialize, reset or resize */
  function Started(s: State, quota: nat, evicted: set<nat>): State {
    var c := Checked(s);
    if s.cache.None? || NeedsReset(s) then c.(cache := Some(Cache(map[], quota)))
    else if s.cache.value.quota != quota then c.(cache := Some(SetQuota(s.cache.value, quota, evicted)))
    else c
  }

  function Step(w: World, e: Event): World {
    var s, t := w.state, w.clock;
    match e
    case CatalogChange => World(Counted(s), Clock(t.version + 1, if s.registered then t.pending + 1 else t.pending))
    case Start(quota, evicted) => World(Started(s, quota, evicted), t.(pending := 0))
    case Load(oid) =>
      if s.cache.None? then w
      else World(s.(cache := Some(s.cache.value.(objects := s.cache.value.objects[oid := t.version]))), t)
    case Evict(evicted) =>
      if s.cache.None? then w else World(s.(cache := Some(Without(s.cache.value, evicted))), t)
    case Failure => World(s.(cache := None), t)
    case Finish(caching) => if caching then w else World(s.(cache := None), t)
  }

  function Run(es: seq<Event>): World {
    if es == [] then INITIAL else Step(Run(es[..|es| - 1]), es[|es| - 1])
  }

  // ----- every run -----

  // Every cached object was loaded at the current version of the catalog.
  predicate Current(w: World) {
    w.state.cache.Some? ==>
      forall k :: k in w.state.cache.value.objects ==> w.state.cache.value.objects[k] == w.clock.version
  }

  // The counters differ by the changes counted since the last comparison, modulo 2^64.
  predicate Inv(w: World) {
    var s, t := w.state, w.clock;
    && -HALF <= s.last < HALF && s.counter == Wrap(s.last + t.pending)
    && (!s.registered ==> s.cache.None? && t.pending == 0)
  }

  // Cached objects were loaded after the last comparison, or it found them current.
  predicate Fresh(w: World) {
    && w.clock.pending <= w.clock.version
    && (w.state.cache.Some? ==> forall k :: k in w.state.cache.value.objects ==>
          w.clock.version - w.clock.pending <= w.state.cache.value.objects[k] <= w.clock.version)
  }

  lemma {:induction false} WrapStep(x: int)
    ensures Wrap(Wrap(x) + 1) == Wrap(x + 1)
  {
    var q := (x + HALF) / MODULUS;
    assert Wrap(x) == x - q * MODULUS;
    assert Wrap(x) + 1 + HALF == x + 1 + HALF - q * MODULUS;
    ModShift(x + 1 + HALF, q);
  }

  lemma {:induction false} ModShift(x: int, q: int)
    ensures (x - q * MODULUS) % MODULUS == x % MODULUS
  {
    var d, r := x / MODULUS, x % MODULUS;
    assert x - q * MODULUS == (d - q) * MODULUS + r;
  }

  lemma {:induction false} StepKeepsInv(w: World, e: Event)
    requires Inv(w)
    ensures Inv(Step(w, e))
  {
    if e == CatalogChange { WrapStep(w.state.last + w.clock.pending); }
  }

  lemma {:induction false} RunKeepsInv(es: seq<Event>)
    ensures Inv(Run(es))
  {
    if es != [] {
      RunKeepsInv(es[..|es| - 1]);
      StepKeepsInv(Run(es[..|es| - 1]), es[|es| - 1]);
    }
  }

  // The comparison overlooks changes exactly when a multiple of 2^64 of them was counted.
  lemma {:induction false} NeedsResetIff(w: World)
    requires Inv(w)
    ensures NeedsReset(w.state) <==> w.clock.pending % MODULUS != 0
  {
    var a, k := w.state.last, w.clock.pending;
    WrapEqual(a, k);
  }

  lemma {:induction false} WrapEqual(a: int, k: int)
    requires -HALF <= a < HALF
    ensures Wrap(a + k) == a <==> k % MODULUS == 0
  {
    var q, r := (a + k + HALF) / MODULUS, (a + k + HALF) % MODULUS;
    assert a + k + HALF == q * MODULUS + r;
    if r - HALF == a {
      assert k == q * MODULUS;
      ModShift(k, q);
    }
    if k % MODULUS == 0 {
      var p := k / MODULUS;
      assert k == p * MODULUS;
      ModShift(a + k + HALF, p);
      assert (a + HALF) % MODULUS == a + HALF;
    }
  }

  // What a change of the quota leaves.
  function Resized(w: World, quota: nat, evicted: set<nat>): World {
    var c := w.state.cache;
    if c.Some? && c.value.quota != quota then Step(w, Evict(evicted)) else w
  }

  /** In every run, after the check of an optimization the cache agrees with the catalog
      exactly when what the new quota leaves of it did before, or when the changes counted
      since the previous check are not a multiple of 2^64. */
  lemma {:induction false} CheckedCacheIff(es: seq<Event>, quota: nat, evicted: set<nat>)
    ensures Current(Step(Run(es), Start(quota, evicted)))
       <==> Current(Resized(Run(es), quota, evicted)) || Run(es).clock.pending % MODULUS != 0
  {
    var w := Run(es);
    RunKeepsInv(es);
    NeedsResetIff(w);
  }

  // Fewer than 2^64 changes are ever counted between two checks.
  predicate Paced(es: seq<Event>) {
    forall i :: 0 <= i <= |es| ==> Run(es[..i]).clock.pending < MODULUS
  }

  lemma {:induction false} FreshStep(w: World, e: Event)
    requires Inv(w) && Fresh(w) && w.clock.pending < MODULUS
    ensures Fresh(Step(w, e))
  {
    if e.Start? { NeedsResetIff(w); }
  }

  lemma {:induction false} RunFresh(es: seq<Event>)
    requires Paced(es)
    ensures Fresh(Run(es))
  {
    if es != [] {
      var n := |es| - 1;
      assert forall i :: 0 <= i <= n ==> es[..n][..i] == es[..i];
      RunFresh(es[..n]);
      RunKeepsInv(es[..n]);
      FreshStep(Run(es[..n]), es[n]);
    }
  }

  /** In every paced run, once the check has run every cached object was loaded after the latest change. */
  lemma {:induction false} CheckedCacheIsCurrent(es: seq<Event>, quota: nat, evicted: set<nat>)
    requires Paced(es)
    ensures Current(Step(Run(es), Start(quota, evicted)))
    ensures Step(Run(es), Start(quota, evicted)).state.cache.value.quota == quota
  {
    assert es[..|es|] == es;
    RunFresh(es);
    RunKeepsInv(es);
    NeedsResetIff(Run(es));
  }

  // ----- what is cached -----

  // The event ends the life of a cache.
  predicate Closes(e: Event) { e.Failure? || (e.Finish? && !e.caching) }

  /** In every run there is a cache exactly when an optimization was started after the last
      failure and the last end of an optimization with caching off. */
  lemma {:induction false} OpenIff(es: seq<Event>)
    ensures Run(es).state.cache.Some? <==>
      exists i :: 0 <= i < |es| && es[i].Start? && forall j :: i < j < |es| ==> !Closes(es[j])
  {
    if es != [] {
      var n := |es| - 1;
      var front := es[..n];
      OpenIff(front);
      assert forall j :: 0 <= j < n ==> front[j] == es[j];
      if i :| 0 <= i < n && front[i].Start? && forall j :: i < j < n ==> !Closes(front[j]) {
        assert !Closes(es[n]) ==> forall j :: i < j < |es| ==> !Closes(es[j]);
      }
      if i :| 0 <= i < |es| && es[i].Start? && forall j :: i < j < |es| ==> !Closes(es[j]) {
        assert i < n ==> forall j :: i < j < n ==> !Closes(front[j]);
      }
    }
  }

  predicate Cached(w: World, k: nat) { w.state.cache.Some? && k in w.state.cache.value.objects }

  // The event removes an object from the cache.
  predicate Drops(w: World, e: Event, k: nat) {
    match e
    case Start(quota, evicted) =>
      w.clock.pending % MODULUS != 0 || (w.state.cache.Some? && w.state.cache.value.quota != quota && k in evicted)
    case Evict(evicted) => k in evicted
    case Failure => true
    case Finish(caching) => !caching
    case _ => false
  }

  lemma {:induction false} CachedStep(w: World, e: Event, k: nat)
    requires Inv(w)
    ensures Cached(Step(w, e), k) <==> (e == Load(k) && w.state.cache.Some?) || (Cached(w, k) && !Drops(w, e, k))
  {
    if e.Start? { NeedsResetIff(w); }
  }

  // The i-th event loaded the object and nothing has removed it since.
  predicate LoadedAt(es: seq<Event>, i: int, k: nat) {
    && 0 <= i < |es| && es[i] == Load(k) && Run(es[..i]).state.cache.Some?
    && forall j :: i < j < |es| ==> !Drops(Run(es[..j]), es[j], k)
  }

  /** In every run the cache holds exactly the objects that were loaded and not removed since. */
  lemma {:induction false} CachedIff(es: seq<Event>, k: nat)
    ensures Cached(Run(es), k) <==> exists i :: LoadedAt(es, i, k)
  {
    if es != [] {
      var n := |es| - 1;
      var front := es[..n];
      assert forall j :: 0 <= j <= n ==> front[..j] == es[..j];
      assert front == es[..n];
      CachedIff(front, k);
      RunKeepsInv(front);
      CachedStep(Run(front), es[n], k);
      forall i | 0 <= i < n ensures LoadedAt(es, i, k) <==> LoadedAt(front, i, k) && !Drops(Run(front), es[n], k) {
        LoadedStep(es, i, k);
      }
      assert LoadedAt(es, n, k) <==> es[n] == Load(k) && Run(front).state.cache.Some?;
    }
  }

  lemma {:induction false} LoadedStep(es: seq<Event>, i: nat, k: nat)
    requires i < |es| - 1
    ensures LoadedAt(es, i, k) <==> LoadedAt(es[..|es| - 1], i, k) && !Drops(Run(es[..|es| - 1]), es[|es| - 1], k)
  {
    var n := |es| - 1;
    var front := es[..n];
    forall j | 0 <= j < n ensures front[j] == es[j] && front[..j] == es[..j] {}
    if LoadedAt(front, i, k) && !Drops(Run(front), es[n], k) {
      forall j | i < j < |es| ensures !Drops(Run(es[..j]), es[j], k) {
        if j < n { assert !Drops(Run(front[..j]), front[j], k); } else { assert es[..j] == front; }
      }
    }
    if LoadedAt(es, i, k) {
      forall j | i < j < n ensures !Drops(Run(front[..j]), front[j], k) { assert !Drops(Run(es[..j]), es[j], k); }
    }
  }

  // ----- the wrap-around -----

  // n catalog changes in a row
  function Changes(n: nat): seq<Event> { seq(n, i => CatalogChange) }

  lemma {:induction false} RunChanges(es: seq<Event>, n: nat)
    requires Run(es).state.registered
    ensures
      var w, v := Run(es), Run(es + Changes(n));
      v.clock == Clock(w.clock.version + n, w.clock.pending + n) && v.state.cache == w.state.cache && v.state.registered
    decreases n
  {
    if n == 0 {
      assert es + Changes(0) == es;
    } else {
      var all := es + Changes(n);
      assert all[..|all| - 1] == es + Changes(n - 1) && all[|all| - 1] == CatalogChange;
      RunChanges(es, n - 1);
    }
  }

  /** 2^64 changes after an object was loaded, the next check leaves the outdated object in the cache. */
  lemma {:induction false} WrapAroundMissesChanges()
    ensures
      var es := [Start(0, {}), Load(7), Finish(true)] + Changes(MODULUS);
      var w := Step(Run(es), Start(0, {}));
      !Current(w) && w.state.cache.value.objects == map[7 := 0] && w.clock.version == MODULUS
  {
    var es := [Start(0, {}), Load(7), Finish(true)];
    var w0 := Step(INITIAL, es[0]);
    var w1 := Step(w0, es[1]);
    var w2 := Step(w1, es[2]);
    assert es[..2][..1] == es[..1] && es[..1][..0] == [] && es[..2] == [es[0], es[1]];
    assert Run(es[..1]) == w0 && Run(es[..2]) == w1 && Run(es) == w2;
    assert w2.state.cache == Some(Cache(map[7 := 0], 0));
    RunChanges(es, MODULUS);
    var v := Run(es + Changes(MODULUS));
    RunKeepsInv(es + Changes(MODULUS));
    NeedsResetIff(v);
    assert 7 in v.state.cache.value.objects;
  }

  // ----- as the source keeps it -----

  class OptimizerCache {
    var registered: bool
    var counter: int
    var last: int
    var cache: Option<Cache>

    function View(): State
      reads this
    {
      State(registered, counter, last, cache)
    }

    constructor ()
      ensures View() == INITIAL.state
    {
      registered, counter, last, cache := false, 0, 0, None;
    }

    // mdsyscache_invalidation_counter_callback, mdrelcache_invalidation_counter_callback
    method CatalogChanged()
      modifies this
      ensures View() == Counted(old(View()))
    {
      if registered {
        counter := Wrap(counter + 1);
      }
    }

    method MDCacheNeedsReset() returns (reset: bool)
      modifies this
      ensures reset == NeedsReset(old(View())) && View() == Checked(old(View()))
    {
      if !registered {
        registered := true;
      }
      if last == counter {
        reset := false;
      } else {
        last := counter;
        reset := true;
      }
    }

    // The metadata cache of OptimizeTask; the failure of the optimization is a parameter.
    method OptimizeTask(size: nat, evicted: set<nat>, loads: seq<nat>, version: nat, fails: bool, caching: bool)
      modifies this
      ensures
        var w := World(Started(old(View()), size * 1024, evicted), Clock(version, 0));
        View() == (if fails then Step(w, Failure) else Step(Loads(w, loads), Finish(caching))).state
    {
      ghost var w := World(Started(View(), size * 1024, evicted), Clock(version, 0));
      var reset := MDCacheNeedsReset();
      if cache.None? {
        cache := Some(Cache(map[], 0));
        cache := Some(cache.value.(quota := size * 1024));
      } else if reset {
        cache := None;
        cache := Some(Cache(map[], 0));
        cache := Some(cache.value.(quota := size * 1024));
      } else if cache.value.quota != size * 1024 {
        cache := Some(SetQuota(cache.value, size * 1024, evicted));
      }
      for i := 0 to |loads|
        invariant cache.Some? && registered == w.state.registered && counter == w.state.counter && last == w.state.last
        invariant Loads(w, loads) == Loads(World(View(), Clock(version, 0)), loads[i..])
      {
        assert loads[i..][0] == loads[i] && loads[i..][1..] == loads[i + 1..];
        cache := Some(cache.value.(objects := cache.value.objects[loads[i] := version]));
      }
      if fails {
        cache := None;
      } else if !caching {
        cache := None;
      }
    }
  }

  function Loads(w: World, objects: seq<nat>): World
    decreases objects
  {
    if objects == [] then w else Loads(Step(w, Load(objects[0])), objects[1..])
  }
}
