/**
 The replay filter by generations: what has been seen is kept for the last few periods, in generations that are
 shifted in place.
 */
module ReplayFilter {
  import opened Wire

  function Max(a: int, b: int): int { if a < b then b else a }

  // ------------------------------------------------------------------ generations of time

  /** When generation i began, counting back from the current one. */
  function Beginning(began: int, period: int, i: nat): int { began - i * period }

  /** Time t falls into generation i. */
  predicate Within(began: int, period: int, t: int, i: nat) {
    Beginning(began, period, i) <= t && (i > 0 ==> t < Beginning(began, period, i - 1))
  }

  lemma {:induction false} Distribute(i: int, m: int, p: int)
    ensures (i + m) * p == i * p + m * p && (i - 1) * p == i * p - p
  {
  }

  lemma {:induction false} Grows(i: nat, j: nat, p: int)
    requires i <= j && p >= 0
    ensures i * p <= j * p
  {
  }

  lemma {:induction false} DivBounds(e: int, p: int)
    requires p > 0 && e >= 0
    ensures (e / p) * p <= e < (e / p) * p + p && e / p >= 0 && (e >= p <==> e / p >= 1)
  {
  }

  /** The beginning of the generation that `now` falls into. */
  function Began(started: Option<int>, period: int, now: int): int
    requires period > 0
  {
    if started.None? then now else started.value + (now - started.value) / period * period
  }

  /** Beginning m generations later, everything is m generations further back. */
  lemma {:induction false} WithinShifts(began: int, period: int, t: int, m: nat, j: nat)
    requires period > 0 && m >= 1 && t < began + period
    ensures Within(began + m * period, period, t, j) <==> j >= m && Within(began, period, t, j - m)
  {
    var b := began + m * period;
    Distribute(j - m, m, period);
    Distribute(j, 0, period);
    Distribute(j - m, 0, period);
    if j >= m {
      assert Beginning(b, period, j) == Beginning(began, period, j - m);
      if j > m {
        assert Beginning(b, period, j - 1) == Beginning(began, period, j - m - 1);
      } else {
        assert j * period == m * period;
        assert Beginning(b, period, j - 1) == began + period;
      }
    } else {
      Grows(j + 1, m, period);
      Distribute(j, 1, period);
      assert Beginning(b, period, j) >= began + period;
    }
  }

  /** A time not before generation n falls into one of the generations up to n. */
  lemma {:induction false} Placed(began: int, period: int, t: int, n: nat) returns (i: nat)
    requires period > 0 && t >= Beginning(began, period, n)
    ensures i <= n && Within(began, period, t, i)
  {
    if n == 0 {
      i := 0;
    } else if t >= Beginning(began, period, n - 1) {
      i := Placed(began, period, t, n - 1);
    } else {
      i := n;
    }
  }

  lemma {:induction false} NotBefore(began: int, period: int, t: int, i: nat, n: nat)
    requires period > 0 && i <= n && Within(began, period, t, i)
    ensures t >= Beginning(began, period, n)
  {
    Grows(i, n, period);
  }

  // ------------------------------------------------------------------ the filter

  type Generations = seq<set<string>>

  /** Every accepted key is in the generation of its time, while that is kept, and nowhere else. */
  ghost predicate Aligned(born: map<string, int>, period: int, began: int, gs: Generations) {
    && (forall k :: k in born ==> born[k] < began + period)
    && (forall k, i :: k in born && 0 <= i < |gs| ==> (k in gs[i] <==> Within(began, period, born[k], i)))
  }

  /** A key is in the generation that has become the current one's n-th predecessor since, and nowhere else. */
  ghost predicate Indexed(at: map<string, nat>, turns: nat, gs: Generations) {
    && (forall k :: k in at ==> at[k] <= turns)
    && (forall k, i :: k in at && 0 <= i < |gs| ==> (k in gs[i] <==> i == turns - at[k]))
  }

  lemma {:induction false} ShiftKeepsIndexed(at: map<string, nat>, turns: nat, gs: Generations, m: nat)
    requires Indexed(at, turns, gs)
    ensures Indexed(at, turns + m, Shifted(gs, m))
  {
  }

  lemma {:induction false} InsertKeepsIndexed(at: map<string, nat>, turns: nat, gs: Generations, key: string)
    requires Indexed(at, turns, gs) && |gs| >= 1 && forall i :: 0 <= i < |gs| ==> key !in gs[i]
    ensures Indexed(at[key := turns], turns, gs[0 := gs[0] + {key}])
  {
  }

  /** How many generations will have begun by now, for time alone. */
  function Begun(turns: nat, started: Option<int>, period: int, now: int): int
    requires period > 0
  {
    if started.None? then turns else turns + (now - started.value) / period
  }

  /** No generation holds more than it may. */
  ghost predicate Small(gs: Generations, most: int) { forall i :: 0 <= i < |gs| ==> |gs[i]| <= most }

  lemma {:induction false} ShiftKeepsKnown(born: map<string, int>, gs: Generations, m: nat, most: int)
    requires Known(born, gs) && Small(gs, most) && most >= 0
    ensures Known(born, Shifted(gs, m)) && Small(Shifted(gs, m), most)
  {
  }

  lemma {:induction false} InsertKeepsKnown(born: map<string, int>, gs: Generations, key: string, now: int, most: int)
    requires Known(born, gs) && Small(gs, most) && |gs| >= 1 && |gs[0]| < most
    ensures Known(born[key := now], gs[0 := gs[0] + {key}]) && Small(gs[0 := gs[0] + {key}], most)
  {
  }

  ghost predicate Known(born: map<string, int>, gs: Generations) {
    forall i, k :: 0 <= i < |gs| && k in gs[i] ==> k in born
  }

  /** The generations after m shifts. */
  ghost function Shifted(gs: Generations, m: nat): (r: Generations)
    ensures |r| == |gs|
  {
    seq(|gs|, i requires 0 <= i < |gs| => if i < m then {} else gs[i - m])
  }

  lemma {:induction false} ShiftKeepsAligned(born: map<string, int>, period: int, began: int, gs: Generations, m: nat)
    requires period > 0 && m >= 1 && Aligned(born, period, began, gs)
    ensures Aligned(born, period, began + m * period, Shifted(gs, m))
  {
    Grows(0, m, period);
    forall k, i | k in born && 0 <= i < |gs|
      ensures k in Shifted(gs, m)[i] <==> Within(began + m * period, period, born[k], i)
    {
      WithinShifts(began, period, born[k], m, i);
    }
  }

  predicate SeenIn(gs: Generations, k: string) { exists i :: 0 <= i < |gs| && k in gs[i] }

  /** A key is in some generation exactly while fewer have begun since than are kept. */
  lemma {:induction false} IndexedKept(at: map<string, nat>, turns: nat, gs: Generations, k: string)
    requires Indexed(at, turns, gs)
    ensures k in at ==> (SeenIn(gs, k) <==> turns - at[k] < |gs|)
  {
    if k in at && turns - at[k] < |gs| {
      assert k in gs[turns - at[k]];
    }
  }

  /** A key is in some generation exactly while its time is not before the oldest. */
  lemma {:induction false} KeptWhile(born: map<string, int>, period: int, began: int, gs: Generations, k: string)
    requires period > 0 && Aligned(born, period, began, gs) && k in born && |gs| >= 1
    ensures SeenIn(gs, k) <==> began - born[k] <= (|gs| - 1) * period
  {
    var n: nat := |gs| - 1;
    if born[k] >= Beginning(began, period, n) {
      var i := Placed(began, period, born[k], n);
      assert k in gs[i];
    }
    if i :| 0 <= i < |gs| && k in gs[i] {
      NotBefore(began, period, born[k], i, n);
    }
  }

  /** For at least all but one of the kept periods, and at most all of them. */
  lemma {:induction false} KeptPeriods(born: map<string, int>, period: int, began: int, gs: Generations, k: string, now: int)
    requires period > 0 && Aligned(born, period, began, gs) && k in born && |gs| >= 1 && began <= now < began + period
    ensures SeenIn(gs, k) <==> began - born[k] <= (|gs| - 1) * period
    ensures now - born[k] <= (|gs| - 1) * period ==> SeenIn(gs, k)
    ensures now - born[k] >= |gs| * period ==> !SeenIn(gs, k)
  {
    hide Aligned, SeenIn;
    KeptWhile(born, period, began, gs, k);
    Distribute(|gs|, 0, period);
  }

  class Filter {
    const period: int
    const maxPerGen: nat
    const gens: array<set<string>>
    var started: Option<int>

    /** When each key was last accepted, and whether no generation was ever cut short. */
    ghost var born: map<string, int>
    ghost var quiet: bool

    /** How many generations have begun, and how many had when each key was last accepted. */
    ghost var turns: nat
    ghost var at: map<string, nat>

    ghost predicate Valid()
      reads this, gens
    {
      && period > 0 && gens.Length >= 2
      && Small(gens[..], Max(1, maxPerGen))
      && (started.None? ==> born == map[])
      && Known(born, gens[..]) && at.Keys == born.Keys && Indexed(at, turns, gens[..])
      && (quiet && started.Some? ==> Aligned(born, period, started.value, gens[..]))
    }

    constructor (period: int, keep: nat, maxPerGen: nat)
      requires period > 0
      ensures Valid() && fresh(gens) && born == map[] && quiet && started == None
      ensures this.period == period && this.maxPerGen == maxPerGen && gens.Length == Max(keep, 2)
    {
      this.period, this.maxPerGen := period, maxPerGen;
      gens := new set<string>[if keep < 2 then 2 else keep](_ => {});
      started := None;
      born, quiet, turns, at := map[], true, 0, map[];
    }

    /** Drops the oldest generation and begins an empty one. */
    method Shift()
      modifies gens
      requires gens.Length >= 1
      ensures gens[..] == Shifted(old(gens[..]), 1)
    {
      var i := gens.Length - 1;
      while i > 0
        invariant 0 <= i < gens.Length
        invariant forall j :: 0 <= j <= i ==> gens[j] == old(gens[j])
        invariant forall j :: i < j < gens.Length ==> gens[j] == old(gens[j - 1])
      {
        gens[i] := gens[i - 1];
        i := i - 1;
      }
      gens[0] := {};
    }

    method ShiftBy(m: nat)
      modifies gens
      requires gens.Length >= 1
      ensures gens[..] == Shifted(old(gens[..]), m)
    {
      var steps := if m > gens.Length then gens.Length else m;
      for i := 0 to steps
        invariant gens[..] == Shifted(old(gens[..]), i)
      {
        Shift();
      }
    }

    /** Begins as many generations as periods have passed. */
    method Rotate(now: int)
      requires Valid() && (started.Some? ==> now >= started.value)
      modifies this`started, this`turns, gens
      ensures Valid() && turns == Begun(old(turns), old(started), period, now) && started.Some? && started.value <= now < started.value + period
      ensures started.value == Began(old(started), period, now)
      ensures gens[0] == old(gens[0]) || gens[0] == {}
    {
      if started.None? {
        started := Some(now);
        return;
      }
      var elapsed := now - started.value;
      DivBounds(elapsed, period);
      if elapsed < period {
        return;
      }
      var m := elapsed / period;
      if quiet {
        ShiftKeepsAligned(born, period, started.value, gens[..], m);
      }
      ShiftKeepsIndexed(at, turns, gens[..], m);
      ShiftKeepsKnown(born, gens[..], m, Max(1, maxPerGen));
      hide Aligned, Indexed, Known, Small;
      ShiftBy(m);
      turns := turns + m;
      started := Some(started.value + m * period);
    }

    /** Looks for the key in all generations. */
    method Seen(key: string) returns (seen: bool)
      ensures seen <==> SeenIn(gens[..], key)
      ensures !seen ==> forall i :: 0 <= i < gens.Length ==> key !in gens[i]
    {
      for i := 0 to gens.Length
        invariant forall j :: 0 <= j < i ==> key !in gens[j]
      {
        if key in gens[i] {
          assert key in gens[..][i];
          return true;
        }
      }
      return false;
    }

    /**
     Whether the key is new; a new key is remembered. A key is refused exactly until as many generations have begun as
     are kept, be it by time or because one was full. Unless a full generation was cut short, that is at least all but
     one of the kept periods after it was accepted, and at most all of them.
     */
    method Check(key: string, now: int) returns (isNew: bool)
      requires Valid() && (started.Some? ==> now >= started.value)
      modifies this, gens
      ensures Valid() && started.Some? && started.value <= now
      ensures born == if isNew then old(born)[key := now] else old(born)
      ensures key !in old(born) ==> isNew
      ensures var begun := Begun(old(turns), old(started), period, now);
              && (key in old(born) ==> key in old(at) && (isNew <==> begun - old(at)[key] >= gens.Length))
              && (turns == begun || (turns == begun + 1 && isNew && (maxPerGen == 0 || |old(gens[0])| >= maxPerGen)))
              && at == if isNew then old(at)[key := turns] else old(at)
      ensures old(quiet) && key in old(born) ==>
                (isNew <==> Began(old(started), period, now) - old(born)[key] > (gens.Length - 1) * period)
      ensures quiet ==> started.value == Began(old(started), period, now)
      ensures old(quiet) && key in old(born) && now - old(born)[key] <= (gens.Length - 1) * period ==> !isNew
      ensures old(quiet) && key in old(born) && now - old(born)[key] >= gens.Length * period ==> isNew
      ensures quiet ==> old(quiet)
      ensures !quiet && old(quiet) ==> isNew && (maxPerGen == 0 || |old(gens[0])| >= maxPerGen)
    {
      Rotate(now);
      hide Aligned, Began, Indexed, Begun, Known, Small, SeenIn;
      if quiet && key in born {
        KeptPeriods(born, period, started.value, gens[..], key, now);
      }
      IndexedKept(at, turns, gens[..], key);
      var seen := Seen(key);
      if seen {
        return false;
      }
      Insert(key, now);
      isNew := true;
    }

    /** Remembers a key in the current generation, which is cut short first if it is full. */
    method Insert(key: string, now: int)
      requires Valid() && started.Some? && started.value <= now < started.value + period
      requires forall i :: 0 <= i < gens.Length ==> key !in gens[i]
      modifies this, gens
      ensures Valid() && born == old(born)[key := now] && started.Some? && started.value <= now
      ensures quiet == (old(quiet) && |old(gens[0])| < maxPerGen) && (quiet ==> started == old(started))
      ensures turns == old(turns) + (if |old(gens[0])| < maxPerGen then 0 else 1) && at == old(at)[key := turns]
    {
      hide Aligned, Indexed, Known, Small;
      if |gens[0]| >= maxPerGen {
        ShiftKeepsIndexed(at, turns, gens[..], 1);
        ShiftKeepsKnown(born, gens[..], 1, Max(1, maxPerGen));
        Shift();
        started, quiet, turns := Some(now), false, turns + 1;
      }
      ghost var gs := gens[..];
      gens[0] := gens[0] + {key};
      assert gens[..] == gs[0 := gs[0] + {key}];
      if quiet {
        InsertKeepsAligned(born, period, started.value, gs, key, now);
      }
      InsertKeepsIndexed(at, turns, gs, key);
      InsertKeepsKnown(born, gs, key, now, Max(1, maxPerGen));
      born, at := born[key := now], at[key := turns];
    }
  }

  lemma {:induction false} InsertKeepsAligned(born: map<string, int>, period: int, began: int, gs: Generations, key: string, now: int)
    requires period > 0 && Aligned(born, period, began, gs) && began <= now < began + period && |gs| >= 1
    requires forall i :: 0 <= i < |gs| ==> key !in gs[i]
    ensures Aligned(born[key := now], period, began, gs[0 := gs[0] + {key}])
  {
    forall i: nat | i < |gs|
      ensures Within(began, period, now, i) <==> i == 0
    {
      if i > 0 {
        Grows(0, i - 1, period);
      }
    }
    hide Within;
  }

  function Count(gs: Generations): nat { if gs == [] then 0 else |gs[0]| + Count(gs[1..]) }

  /** All generations together hold no more than each may, times how many are kept. */
  lemma {:induction false} CountBounded(gs: Generations, m: nat)
    requires forall i :: 0 <= i < |gs| ==> |gs[i]| <= m
    ensures Count(gs) <= |gs| * m
  {
    if gs != [] {
      CountBounded(gs[1..], m);
      Distribute(|gs|, 0, m);
    }
  }

  // ------------------------------------------------------------------ with a window of timestamps

  predicate InWindow(now: int, stamp: int, window: int) { stamp - window <= now <= stamp + window }

  /**
   Ids that carry a timestamp are looked up only if that is near enough; both checks use one clock reading.
   VMess has a window of 120 seconds and keeps three generations of 120; Shadowsocks 2022 has a window of 30
   and keeps three of 30: in both, twice the window is exactly two generations.
   */
  class Guard {
    const filter: Filter
    const window: int
    const stamp: string -> int

    ghost predicate Valid()
      reads this, filter, filter.gens
    {
      filter.Valid() && forall id :: id in filter.born ==> InWindow(filter.born[id], stamp(id), window)
    }

    constructor (filter: Filter, window: int, stamp: string -> int)
      requires filter.Valid() && filter.born == map[]
      ensures Valid() && this.filter == filter && this.window == window && this.stamp == stamp
    {
      this.filter, this.window, this.stamp := filter, window, stamp;
    }

    /** With a window no wider than what the filter remembers, no id is accepted a second time. */
    method Accept(id: string, now: int) returns (ok: bool)
      requires Valid() && (filter.started.Some? ==> now >= filter.started.value)
      modifies filter, filter.gens
      ensures Valid() && (filter.quiet ==> old(filter.quiet))
      ensures old(filter.quiet) && |old(filter.gens[0])| < filter.maxPerGen ==> filter.quiet
      ensures if ok && filter.quiet then filter.started == Some(Began(old(filter.started), filter.period, now))
              else filter.started == old(filter.started) || (filter.started.Some? && filter.started.value <= now)
      ensures ok ==> InWindow(now, stamp(id), window) && filter.born == old(filter.born)[id := now]
      ensures !ok ==> filter.born == old(filter.born)
      ensures old(filter.quiet) && 2 * window <= (filter.gens.Length - 1) * filter.period && id in old(filter.born) ==> !ok
      ensures old(filter.quiet) && id in old(filter.born) ==>
                (ok <==> InWindow(now, stamp(id), window) &&
                         Began(old(filter.started), filter.period, now) - old(filter.born)[id] > (filter.gens.Length - 1) * filter.period)
      ensures id !in old(filter.born) ==> ok == InWindow(now, stamp(id), window)
      ensures id in old(filter.born) ==>
                (id in old(filter.at) &&
                (ok <==> InWindow(now, stamp(id), window) &&
                         Begun(old(filter.turns), old(filter.started), filter.period, now) - old(filter.at)[id] >= filter.gens.Length))
    {
      if !InWindow(now, stamp(id), window) {
        return false;
      }
      ok := filter.Check(id, now);
    }
  }

  /** A guard whose first generation has begun at time 0, with another id. */
  method BegunAtZero(period: int, keep: nat, window: int) returns (guard: Guard)
    requires period > 0 && keep >= 2 && window >= 0
    ensures fresh(guard) && fresh(guard.filter) && fresh(guard.filter.gens) && guard.Valid()
    ensures guard.window == window && guard.stamp("replayed") == period - 1 + window
    ensures var f := guard.filter; f.quiet && f.started == Some(0) && f.period == period && f.gens.Length == keep && f.maxPerGen == 100
    ensures guard.filter.born.Keys <= {"another"}
  {
    hide Known, Aligned, Indexed, Small, Begun;
    var filter := new Filter(period, keep, 100);
    var t := period - 1 + window;
    guard := new Guard(filter, window, (id: string) => if id == "replayed" then t else 0);
    FewKeys(filter);
    var _ := guard.Accept("another", 0);
  }

  /** Accepts an id in the last second of the first generation. */
  method AcceptLate(period: int, keep: nat, window: int) returns (guard: Guard, first: bool)
    requires period > 0 && keep >= 2 && window >= 0
    ensures first && fresh(guard.filter) && fresh(guard.filter.gens) && guard.Valid()
    ensures guard.window == window && guard.stamp("replayed") == period - 1 + window
    ensures var f := guard.filter; f.quiet && f.started == Some(0) && f.period == period && f.gens.Length == keep
    ensures "replayed" in guard.filter.born && guard.filter.born["replayed"] == period - 1
  {
    DivBounds(period - 1, period);
    hide Known, Aligned, Indexed, Small, Begun;
    guard := BegunAtZero(period, keep, window);
    FewKeys(guard.filter);
    first := guard.Accept("replayed", period - 1);
  }

  /** With any wider window an id can be accepted twice: at the end of a generation, and when that is dropped. */
  method AcceptedTwice(period: int, keep: nat, window: int) returns (first: bool, second: bool)
    requires period > 0 && keep >= 2 && 2 * window > (keep - 1) * period
    ensures first && second
  {
    Grows(0, keep - 1, period);
    Distribute(keep, 0, period);
    Multiple(keep, period);
    hide Known, Aligned, Indexed, Small, Begun;
    var guard;
    guard, first := AcceptLate(period, keep, window);
    second := guard.Accept("replayed", keep * period);
  }

  lemma {:induction false} Multiple(n: nat, p: int)
    requires p > 0
    ensures n * p / p == n
  {
    DivBounds(n * p, p);
    var q := n * p / p;
    if q < n {
      Grows(q + 1, n, p);
      Distribute(q, 1, p);
    } else if q > n {
      Grows(n + 1, q, p);
      Distribute(n, 1, p);
    }
  }

  lemma {:induction false} FewKeys(f: Filter)
    requires f.Valid() && f.born.Keys <= {"another"}
    ensures |f.gens[0]| <= 1
  {
    var gs := f.gens[..];
    assert gs[0] == f.gens[0] && forall k :: k in gs[0] ==> k in f.born;
    var one := {"another"};
    assert gs[0] <= one;
    assert gs[0] == {} || gs[0] == one;
  }
}
