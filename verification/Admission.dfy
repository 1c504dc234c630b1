/** The concurrency limit of the function server: the counter is checked before the function is
    loaded and raised after, so requests that load at the same time are admitted together
    (`services/deno-runtime/server.ts`). */
module Admission {
  /** `loading` and `executing` are the requests suspended at `loadFunction` and `executeFunction`. */
  datatype Server = Server(active: int, loading: set<nat>, executing: set<nat>)

  datatype Event =
    | Arrives(id: nat)
    | Loaded(id: nat)     // the function was found
    | NotLoaded(id: nat)  // it does not exist, its app is paused, or loading failed
    | Finishes(id: nat)   // the response is ready or the execution threw

  predicate Enabled(s: Server, e: Event) {
    match e
    case Arrives(id) => id !in s.loading && id !in s.executing
    case Loaded(id) => id in s.loading
    case NotLoaded(id) => id in s.loading
    case Finishes(id) => id in s.executing
  }

  function Next(s: Server, max: nat, e: Event): Server {
    match e
    case Arrives(id) => if s.active >= max then s else s.(loading := s.loading + {id})
    case Loaded(id) => Server(s.active + 1, s.loading - {id}, s.executing + {id})
    case NotLoaded(id) => s.(loading := s.loading - {id})
    case Finishes(id) => s.(active := s.active - 1, executing := s.executing - {id})
  }

  const START: Server := Server(0, {}, {})

  /** The server after a run; events that cannot happen are skipped. */
  function After(max: nat, run: seq<Event>): Server {
    if run == [] then START
    else
      var s := After(max, run[..|run| - 1]);
      if Enabled(s, run[|run| - 1]) then Next(s, max, run[|run| - 1]) else s
  }

  /** The largest number of requests that were ever loading at the same time. */
  function PeakLoads(max: nat, run: seq<Event>): nat {
    var now := |After(max, run).loading|;
    if run == [] then now
    else
      var before := PeakLoads(max, run[..|run| - 1]);
      if now > before then now else before
  }

  /** The module-level counter and the handler, cut at its two awaits. */
  class Gate {
    var activeWorkers: int
    ghost var loading: set<nat>
    ghost var executing: set<nat>

    constructor ()
      ensures State() == START
    {
      activeWorkers, loading, executing := 0, {}, {};
    }

    ghost function State(): Server
      reads this
    {
      Server(activeWorkers, loading, executing)
    }

    /** Up to the load; `false` is the answer 429. */
    method Arrive(id: nat, max: nat) returns (admitted: bool)
      requires Enabled(State(), Arrives(id))
      modifies this
      ensures State() == Next(old(State()), max, Arrives(id))
      ensures admitted == (old(activeWorkers) < max)
    {
      if activeWorkers >= max {
        return false;
      }
      loading := loading + {id};
      admitted := true;
    }

    method BeginExecution(id: nat, found: bool, ghost max: nat)
      requires id in loading
      modifies this
      ensures State() == Next(old(State()), max, if found then Loaded(id) else NotLoaded(id))
    {
      loading := loading - {id};
      if found {
        activeWorkers := activeWorkers + 1;
        executing := executing + {id};
      }
    }

    /** The `finally` block. */
    method EndExecution(id: nat, ghost max: nat)
      requires id in executing
      modifies this
      ensures State() == Next(old(State()), max, Finishes(id))
    {
      activeWorkers := activeWorkers - 1;
      executing := executing - {id};
    }
  }

  // ---------- what every run keeps ----------

  /** The counter is the number of executions in flight, so 429 is only ever answered when that
      many really are in flight; and it stays below the limit but for the requests that were
      admitted while others were still loading. */
  lemma {:induction false} CounterIsExact(max: nat, run: seq<Event>)
    ensures var s := After(max, run);
            && s.active == |s.executing|
            && s.loading !! s.executing
            && |s.loading| <= PeakLoads(max, run)
            && (max == 0 ==> s == START)
            && (max > 0 ==> |s.executing| + |s.loading| <= max - 1 + PeakLoads(max, run))
  {
    if run != [] {
      var init, e := run[..|run| - 1], run[|run| - 1];
      CounterIsExact(max, init);
      var s := After(max, init);
      if Enabled(s, e) {
        Sizes(s, max, e);
      }
    }
  }

  lemma Sizes(s: Server, max: nat, e: Event)
    requires Enabled(s, e) && s.loading !! s.executing
    ensures var t := Next(s, max, e);
            && t.loading !! t.executing
            && t.active - |t.executing| == s.active - |s.executing|
            && |t.executing| + |t.loading| == |s.executing| + |s.loading| +
               (if e.Arrives? then (if s.active < max then 1 else 0) else if e.Loaded? then 0 else -1)
            && (e.Arrives? ==> t.executing == s.executing)
  {
  }

  // ---------- the bound is reached ----------

  /** `n` requests one after the other, each loaded before the next arrives. */
  function OneByOne(n: nat): seq<Event> {
    if n == 0 then [] else OneByOne(n - 1) + [Arrives(n), Loaded(n)]
  }

  /** `k` requests above `base` that all arrive before any has loaded. */
  function Arriving(base: nat, k: nat): seq<Event> {
    if k == 0 then [] else Arriving(base, k - 1) + [Arrives(base + k)]
  }

  function Loading(base: nat, k: nat): seq<Event> {
    if k == 0 then [] else Loading(base, k - 1) + [Loaded(base + k)]
  }

  predicate Between(low: nat, x: nat, high: nat) {
    low < x <= high
  }

  function Range(low: nat, high: nat): set<nat> {
    set x | low < x <= high && Between(low, x, high)
  }

  lemma AfterSnoc(max: nat, run: seq<Event>, e: Event)
    requires Enabled(After(max, run), e)
    ensures After(max, run + [e]) == Next(After(max, run), max, e)
    ensures var l := |After(max, run + [e]).loading|;
            PeakLoads(max, run + [e]) == if l > PeakLoads(max, run) then l else PeakLoads(max, run)
  {
    assert (run + [e])[..|run|] == run;
  }

  lemma {:induction false} OneByOneFills(max: nat, n: nat)
    requires n <= max
    ensures After(max, OneByOne(n)) == Server(n, {}, Range(0, n))
    ensures PeakLoads(max, OneByOne(n)) == if n == 0 then 0 else 1
  {
    if n > 0 {
      OneByOneFills(max, n - 1);
      var run := OneByOne(n - 1);
      AfterSnoc(max, run, Arrives(n));
      AfterSnoc(max, run + [Arrives(n)], Loaded(n));
      assert run + [Arrives(n)] + [Loaded(n)] == OneByOne(n);
      assert Range(0, n) == Range(0, n - 1) + {n};
    }
  }

  lemma {:induction false} AllArrive(max: nat, run: seq<Event>, base: nat, k: nat)
    requires After(max, run) == Server(base, {}, Range(0, base)) && base < max && PeakLoads(max, run) <= 1 && k > 0
    ensures After(max, run + Arriving(base, k)) == Server(base, Range(base, base + k), Range(0, base))
    ensures PeakLoads(max, run + Arriving(base, k)) == k
  {
    var so := run + Arriving(base, k - 1);
    assert so + [Arrives(base + k)] == run + Arriving(base, k);
    if k == 1 {
      assert so == run && Range(base, base) == {};
    } else {
      AllArrive(max, run, base, k - 1);
    }
    OneArrives(max, so, base, k);
  }

  lemma RangeGrows(low: nat, high: nat)
    requires low <= high
    ensures Range(low, high + 1) == Range(low, high) + {high + 1} && high + 1 !in Range(low, high)
  {
  }

  lemma RangeShrinks(low: nat, high: nat)
    requires low < high
    ensures Range(low + 1, high) == Range(low, high) - {low + 1} && low + 1 in Range(low, high)
  {
  }

  lemma OneArrives(max: nat, run: seq<Event>, base: nat, k: nat)
    requires 0 < k && base < max && PeakLoads(max, run) <= k
    requires After(max, run) == Server(base, Range(base, base + k - 1), Range(0, base))
    ensures After(max, run + [Arrives(base + k)]) == Server(base, Range(base, base + k), Range(0, base))
    ensures PeakLoads(max, run + [Arrives(base + k)]) == k
  {
    ArrivalGrows(max, base, k);
    AfterSnoc(max, run, Arrives(base + k));
    RangeSize(base, k);
  }

  lemma ArrivalGrows(max: nat, base: nat, k: nat)
    requires 0 < k && base < max
    ensures var s := Server(base, Range(base, base + k - 1), Range(0, base));
            Enabled(s, Arrives(base + k)) && Next(s, max, Arrives(base + k)) == Server(base, Range(base, base + k), Range(0, base))
  {
    RangeGrows(base, base + k - 1);
  }

  lemma {:induction false} RangeSize(base: nat, k: nat)
    ensures |Range(base, base + k)| == k
  {
    if k == 0 {
      assert Range(base, base) == {};
    } else {
      RangeSize(base, k - 1);
      assert Range(base, base + k) == Range(base, base + k - 1) + {base + k};
    }
  }

  lemma {:induction false} AllLoad(max: nat, run: seq<Event>, base: nat, k: nat, j: nat)
    requires After(max, run) == Server(base, Range(base, base + k), Range(0, base)) && j <= k && PeakLoads(max, run) == k
    ensures After(max, run + Loading(base, j)) == Server(base + j, Range(base + j, base + k), Range(0, base + j))
    ensures PeakLoads(max, run + Loading(base, j)) == k
  {
    if j == 0 {
      assert run + Loading(base, 0) == run;
    } else {
      AllLoad(max, run, base, k, j - 1);
      var so := run + Loading(base, j - 1);
      assert so + [Loaded(base + j)] == run + Loading(base, j);
      OneLoads(max, so, base, k, j);
    }
  }

  lemma OneLoads(max: nat, run: seq<Event>, base: nat, k: nat, j: nat)
    requires 0 < j <= k && PeakLoads(max, run) == k
    requires After(max, run) == Server(base + j - 1, Range(base + j - 1, base + k), Range(0, base + j - 1))
    ensures After(max, run + [Loaded(base + j)]) == Server(base + j, Range(base + j, base + k), Range(0, base + j))
    ensures PeakLoads(max, run + [Loaded(base + j)]) == k
  {
    LoadMoves(max, base, k, j);
    AfterSnoc(max, run, Loaded(base + j));
    RangeSize(base + j, k - j);
  }

  lemma LoadMoves(max: nat, base: nat, k: nat, j: nat)
    requires 0 < j <= k
    ensures var s := Server(base + j - 1, Range(base + j - 1, base + k), Range(0, base + j - 1));
            Enabled(s, Loaded(base + j)) && Next(s, max, Loaded(base + j)) == Server(base + j, Range(base + j, base + k), Range(0, base + j))
  {
    RangeShrinks(base + j - 1, base + k);
    RangeGrows(0, base + j - 1);
  }

  /** The bound of `CounterIsExact` is the best one: whatever the limit and however many requests
      load together, there is a run that has exactly that many executions in flight. */
  lemma BoundIsReached(max: nat, k: nat)
    requires max > 0 && k > 0
    ensures exists run :: PeakLoads(max, run) == k && After(max, run).active == max - 1 + k
  {
    var filled := OneByOne(max - 1);
    OneByOneFills(max, max - 1);
    AllArrive(max, filled, max - 1, k);
    var run := filled + Arriving(max - 1, k);
    AllLoad(max, run, max - 1, k, k);
    assert PeakLoads(max, run + Loading(max - 1, k)) == k;
  }
}
