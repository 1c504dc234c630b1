/** The bounded async worker pool of the backfill scripts: workers share a counter, claim the
    next index, and resume in any order when the work they await settles. */
module WorkerPool {
  import opened Wrappers

  /** A worker about to claim, awaiting item i, returned, or rejected while working on item i. */
  datatype Pc = Ready | Busy(i: nat) | Exited | Dead(i: nat)

  datatype Pool<R> = Pool(next: nat, results: seq<Option<R>>, workers: seq<Pc>, finished: seq<nat>)

  datatype Action = Claim(w: nat) | Settle(w: nat) | Reject(w: nat)

  function Min(a: nat, b: nat): nat {
    if a < b then a else b
  }

  function Start<R>(n: nat, limit: nat): Pool<R> {
    Pool(0, seq(n, _ => None), seq(Min(limit, n), _ => Ready), [])
  }

  /** One step of a pool over n items, `fn(i)` being what item i yields; an action that is not
      enabled changes nothing. */
  function Next<R>(n: nat, fn: nat -> R, p: Pool<R>, act: Action): Pool<R> {
    if act.w >= |p.workers| then p
    else
      var w, pc := act.w, p.workers[act.w];
      match act
      case Claim(_) =>
        if pc != Ready then p
        else p.(next := p.next + 1, workers := p.workers[w := if p.next >= n then Exited else Busy(p.next)])
      case Settle(_) =>
        if !pc.Busy? || pc.i >= |p.results| then p
        else p.(results := p.results[pc.i := Some(fn(pc.i))], workers := p.workers[w := Ready], finished := p.finished + [pc.i])
      case Reject(_) =>
        if !pc.Busy? then p else p.(workers := p.workers[w := Dead(pc.i)])
  }

  function Run<R>(n: nat, limit: nat, fn: nat -> R, acts: seq<Action>): Pool<R> {
    if acts == [] then Start(n, limit)
    else Next(n, fn, Run(n, limit, fn, acts[..|acts| - 1]), acts[|acts| - 1])
  }

  /** The shared state of one `runPool` call; the methods are the stretches of a worker between awaits. */
  class SharedPool<R> {
    const n: nat
    var next: nat
    var results: seq<Option<R>>
    var workers: seq<Pc>
    var finished: seq<nat>

    function View(): Pool<R>
      reads this
    {
      Pool(next, results, workers, finished)
    }

    constructor (n: nat, limit: nat)
      ensures this.n == n && View() == Start(n, limit)
    {
      this.n := n;
      next, finished := 0, [];
      results := seq(n, _ => None);
      workers := seq(Min(limit, n), _ => Ready);
    }

    method TakeNext(w: nat)
      requires w < |workers| && workers[w] == Ready
      modifies this
      ensures forall fn :: View() == Next(n, fn, old(View()), Claim(w))
    {
      var i := next;
      next := next + 1;
      workers := workers[w := if i >= n then Exited else Busy(i)];
    }

    method Store(w: nat, r: R)
      requires w < |workers| && workers[w].Busy? && workers[w].i < |results|
      modifies this
      ensures forall fn: nat -> R :: fn(old(workers[w].i)) == r ==> View() == Next(n, fn, old(View()), Settle(w))
    {
      var i := workers[w].i;
      results := results[i := Some(r)];
      finished := finished + [i];
      workers := workers[w := Ready];
    }
  }

  // ---------- invariants ----------

  predicate Holding(pc: Pc) {
    pc.Busy? || pc.Dead?
  }

  predicate Claims(pc: Pc, i: int) {
    Holding(pc) && pc.i == i
  }

  function ExitedSet(ws: seq<Pc>): set<nat> {
    set w | 0 <= w < |ws| && ws[w] == Exited
  }

  predicate NoRepeats(s: seq<nat>) {
    forall i, j :: 0 <= i < j < |s| ==> s[i] != s[j]
  }

  ghost predicate Shape<R>(n: nat, limit: nat, fn: nat -> R, p: Pool<R>) {
    && |p.results| == n
    && |p.workers| == Min(limit, n)
    && (forall w :: 0 <= w < |p.workers| && Holding(p.workers[w]) ==>
          p.workers[w].i < n && p.workers[w].i < p.next && p.results[p.workers[w].i].None?)
    && (forall v, w :: 0 <= v < w < |p.workers| && Holding(p.workers[v]) && Holding(p.workers[w]) ==>
          p.workers[v].i != p.workers[w].i)
    && (forall i :: 0 <= i < n && p.results[i].Some? ==> i < p.next && p.results[i].value == fn(i))
  }

  /** Every claimed index is held by a worker or has its result: none is lost. */
  ghost predicate NoneLost<R>(n: nat, p: Pool<R>) {
    |p.results| == n &&
    forall i :: 0 <= i < n && i < p.next && p.results[i].None? ==>
      exists w :: 0 <= w < |p.workers| && Claims(p.workers[w], i)
  }

  /** The counter is the number of claimed items plus one for each worker that ran past the end. */
  ghost predicate Counted<R>(n: nat, p: Pool<R>) {
    p.next == Min(p.next, n) + |ExitedSet(p.workers)|
  }

  ghost predicate Logged<R>(n: nat, p: Pool<R>) {
    && |p.results| == n
    && NoRepeats(p.finished)
    && (forall i :: 0 <= i < n ==> (i in p.finished <==> p.results[i].Some?))
    && (forall i :: i in p.finished ==> i < n)
  }

  ghost predicate Inv<R>(n: nat, limit: nat, fn: nat -> R, p: Pool<R>) {
    Shape(n, limit, fn, p) && NoneLost(n, p) && Counted(n, p) && Logged(n, p)
  }

  lemma ClaimKeepsInv<R>(n: nat, limit: nat, fn: nat -> R, p: Pool<R>, w: nat)
    requires Inv(n, limit, fn, p) && w < |p.workers| && p.workers[w] == Ready
    ensures Inv(n, limit, fn, Next(n, fn, p, Claim(w)))
  {
    var q := Next(n, fn, p, Claim(w));
    if p.next >= n {
      assert ExitedSet(q.workers) == ExitedSet(p.workers) + {w};
    } else {
      assert ExitedSet(q.workers) == ExitedSet(p.workers);
    }
    ClaimLosesNone(n, fn, p, w);
  }

  lemma ClaimLosesNone<R>(n: nat, fn: nat -> R, p: Pool<R>, w: nat)
    requires NoneLost(n, p) && w < |p.workers| && p.workers[w] == Ready
    ensures NoneLost(n, Next(n, fn, p, Claim(w)))
  {
    var q := Next(n, fn, p, Claim(w));
    forall i | 0 <= i < n && i < q.next && q.results[i].None?
      ensures exists v :: 0 <= v < |q.workers| && Claims(q.workers[v], i)
    {
      if i == p.next {
        assert Claims(q.workers[w], i);
      } else {
        var v :| 0 <= v < |p.workers| && Claims(p.workers[v], i);
        assert Claims(q.workers[v], i);
      }
    }
  }

  lemma SettleLosesNone<R>(n: nat, fn: nat -> R, p: Pool<R>, w: nat)
    requires NoneLost(n, p) && w < |p.workers| && p.workers[w].Busy? && p.workers[w].i < n
    ensures NoneLost(n, Next(n, fn, p, Settle(w)))
  {
    var q := Next(n, fn, p, Settle(w));
    forall i | 0 <= i < n && i < q.next && q.results[i].None?
      ensures exists v :: 0 <= v < |q.workers| && Claims(q.workers[v], i)
    {
      var v :| 0 <= v < |p.workers| && Claims(p.workers[v], i);
      assert Claims(q.workers[v], i);
    }
  }

  lemma RejectLosesNone<R>(n: nat, fn: nat -> R, p: Pool<R>, w: nat)
    requires NoneLost(n, p) && w < |p.workers| && p.workers[w].Busy?
    ensures NoneLost(n, Next(n, fn, p, Reject(w)))
  {
    var q := Next(n, fn, p, Reject(w));
    forall i | 0 <= i < n && i < q.next && q.results[i].None?
      ensures exists v :: 0 <= v < |q.workers| && Claims(q.workers[v], i)
    {
      var v :| 0 <= v < |p.workers| && Claims(p.workers[v], i);
      assert Claims(q.workers[v], i);
    }
  }

  lemma SettleKeepsInv<R>(n: nat, limit: nat, fn: nat -> R, p: Pool<R>, w: nat)
    requires Inv(n, limit, fn, p) && w < |p.workers| && p.workers[w].Busy?
    ensures Inv(n, limit, fn, Next(n, fn, p, Settle(w)))
  {
    var i := p.workers[w].i;
    var q := Next(n, fn, p, Settle(w));
    SettleLosesNone(n, fn, p, w);
    assert ExitedSet(q.workers) == ExitedSet(p.workers);
    assert i !in p.finished;
  }

  lemma RejectKeepsInv<R>(n: nat, limit: nat, fn: nat -> R, p: Pool<R>, w: nat)
    requires Inv(n, limit, fn, p) && w < |p.workers| && p.workers[w].Busy?
    ensures Inv(n, limit, fn, Next(n, fn, p, Reject(w)))
  {
    var q := Next(n, fn, p, Reject(w));
    RejectLosesNone(n, fn, p, w);
    assert ExitedSet(q.workers) == ExitedSet(p.workers);
  }

  lemma StartInv<R>(n: nat, limit: nat, fn: nat -> R)
    ensures Inv(n, limit, fn, Start(n, limit))
  {
    assert ExitedSet(Start<R>(n, limit).workers) == {};
  }

  lemma {:induction false} RunInv<R>(n: nat, limit: nat, fn: nat -> R, acts: seq<Action>)
    ensures Inv(n, limit, fn, Run(n, limit, fn, acts))
  {
    if acts == [] {
      StartInv(n, limit, fn);
    } else {
      var p, act := Run(n, limit, fn, acts[..|acts| - 1]), acts[|acts| - 1];
      RunInv(n, limit, fn, acts[..|acts| - 1]);
      if act.w < |p.workers| {
        match act {
          case Claim(w) => if p.workers[w] == Ready { ClaimKeepsInv(n, limit, fn, p, w); }
          case Settle(w) => if p.workers[w].Busy? { SettleKeepsInv(n, limit, fn, p, w); }
          case Reject(w) => if p.workers[w].Busy? { RejectKeepsInv(n, limit, fn, p, w); }
        }
      }
    }
  }

  // ---------- what holds of every schedule ----------

  function BusySet(ws: seq<Pc>): set<nat> {
    set w | 0 <= w < |ws| && ws[w].Busy?
  }

  lemma {:induction false} IndexSetSize(s: set<nat>, n: nat)
    requires forall x :: x in s ==> x < n
    ensures |s| <= n
  {
    if n > 0 {
      IndexSetSize(s - {n - 1}, n - 1);
    } else {
      assert s == {};
    }
  }

  /** Under every interleaving each item is processed at most once, a stored result is its own
      item's, and no more than `limit` items are in flight. */
  lemma EachItemOnce<R>(n: nat, limit: nat, fn: nat -> R, acts: seq<Action>)
    ensures var p := Run(n, limit, fn, acts);
            && |p.results| == n
            && NoRepeats(p.finished)
            && (forall i :: 0 <= i < n ==> (i in p.finished <==> p.results[i] == Some(fn(i))))
            && (forall v, w :: 0 <= v < w < |p.workers| && p.workers[v].Busy? ==> p.workers[v] != p.workers[w])
            && |BusySet(p.workers)| <= limit
  {
    RunInv(n, limit, fn, acts);
    var p := Run(n, limit, fn, acts);
    IndexSetSize(BusySet(p.workers), |p.workers|);
  }

  predicate Quiescent<R>(p: Pool<R>) {
    forall w :: 0 <= w < |p.workers| ==> p.workers[w] == Exited
  }

  /** When every worker has returned, every item has its result and was processed exactly once,
      and the shared counter stands at n plus the number of workers. A pool with no worker at all
      is quiescent from the start and processes nothing. */
  lemma QuiescentIsComplete<R>(n: nat, limit: nat, fn: nat -> R, acts: seq<Action>)
    requires limit > 0 && Quiescent(Run(n, limit, fn, acts))
    ensures var p := Run(n, limit, fn, acts);
            && p.results == seq(n, (i: nat) => Some(fn(i)))
            && p.next == n + Min(limit, n)
            && |p.finished| == n && NoRepeats(p.finished) && (forall i :: 0 <= i < n ==> i in p.finished)
  {
    RunInv(n, limit, fn, acts);
    var p := Run(n, limit, fn, acts);
    assert ExitedSet(p.workers) == Upto(|p.workers|);
    assert p.next >= n;
    forall i | 0 <= i < n
      ensures p.results[i] == Some(fn(i))
    {
      if p.results[i].None? {
        assert false;
      }
    }
    AllIndices(p.finished, n);
  }

  function Upto(n: nat): (s: set<nat>)
    ensures forall x: nat :: x in s <==> x < n
    ensures |s| == n
  {
    if n == 0 then {} else Upto(n - 1) + {n - 1}
  }

  function Elements(s: seq<nat>): set<nat> {
    set x | x in s
  }

  lemma {:induction false} SetOfDistinct(s: seq<nat>)
    requires NoRepeats(s)
    ensures |Elements(s)| == |s|
  {
    if s != [] {
      var init, last := s[..|s| - 1], s[|s| - 1];
      SetOfDistinct(init);
      assert s == init + [last];
      assert last !in init;
      assert Elements(s) == Elements(init) + {last};
    }
  }

  lemma AllIndices(s: seq<nat>, n: nat)
    requires NoRepeats(s) && (forall i :: 0 <= i < n ==> i in s) && forall x :: x in s ==> x < n
    ensures |s| == n
  {
    SetOfDistinct(s);
    assert Elements(s) == Upto(n);
  }

  /** No worker is ever stuck: one that has neither returned nor failed has a step of its own. */
  lemma NotStuck<R>(n: nat, limit: nat, fn: nat -> R, acts: seq<Action>, w: nat)
    requires w < |Run(n, limit, fn, acts).workers|
    ensures var p := Run(n, limit, fn, acts); var pc := p.workers[w];
            && (pc == Ready ==> Next(n, fn, p, Claim(w)) != p)
            && (pc.Busy? ==> Next(n, fn, p, Settle(w)) != p && Next(n, fn, p, Reject(w)) != p)
  {
    RunInv(n, limit, fn, acts);
    var p := Run(n, limit, fn, acts);
    if p.workers[w] == Ready {
      assert Next(n, fn, p, Claim(w)).next != p.next;
    } else if p.workers[w].Busy? {
      assert |Next(n, fn, p, Settle(w)).finished| != |p.finished|;
      assert Next(n, fn, p, Reject(w)).workers[w] != p.workers[w];
    }
  }

  // ---------- status counters ----------

  datatype Status = OK | SKIPPED | ERROR

  /** `counts[s]` after the callbacks of the finished items. */
  function Count(finished: seq<nat>, status: nat -> Status, s: Status): nat {
    if finished == [] then 0
    else Count(finished[..|finished| - 1], status, s) + if status(finished[|finished| - 1]) == s then 1 else 0
  }

  function WithStatus(items: seq<nat>, status: nat -> Status, s: Status): set<nat> {
    set i | i in items && status(i) == s
  }

  lemma {:induction false} CountIsNumber(finished: seq<nat>, status: nat -> Status, s: Status)
    requires NoRepeats(finished)
    ensures Count(finished, status, s) == |WithStatus(finished, status, s)|
  {
    if finished != [] {
      var init, last := finished[..|finished| - 1], finished[|finished| - 1];
      CountIsNumber(init, status, s);
      assert finished == init + [last] && last !in init;
      WithStatusSnoc(init, last, status, s);
    }
  }

  lemma WithStatusSnoc(init: seq<nat>, last: nat, status: nat -> Status, s: Status)
    requires last !in init
    ensures |WithStatus(init + [last], status, s)| == |WithStatus(init, status, s)| + if status(last) == s then 1 else 0
  {
    var before, after := WithStatus(init, status, s), WithStatus(init + [last], status, s);
    if status(last) == s {
      assert after == before + {last};
    } else {
      assert after == before;
    }
  }

  lemma {:induction false} SumOfCounts(finished: seq<nat>, status: nat -> Status)
    ensures Count(finished, status, OK) + Count(finished, status, SKIPPED) + Count(finished, status, ERROR) == |finished|
  {
    if finished != [] {
      SumOfCounts(finished[..|finished| - 1], status);
    }
  }

  function Reported<R>(fn: nat -> R, status: R -> Status): nat -> Status {
    (i: nat) => status(fn(i))
  }

  /** In every state of every run the counters add up to the number of finished items; when every
      worker has returned they add up to n, and each is the number of items whose result has that
      status. */
  lemma CountersAddUp<R>(n: nat, limit: nat, fn: nat -> R, status: R -> Status, acts: seq<Action>)
    ensures var p, st := Run(n, limit, fn, acts), Reported(fn, status);
            && Count(p.finished, st, OK) + Count(p.finished, st, SKIPPED) + Count(p.finished, st, ERROR) == |p.finished| <= n
            && (limit > 0 && Quiescent(p) ==> |p.finished| == n)
    ensures limit > 0 && Quiescent(Run(n, limit, fn, acts)) ==>
              forall s :: Count(Run(n, limit, fn, acts).finished, Reported(fn, status), s) == |AllWithStatus(n, fn, status, s)|
  {
    var p, st := Run(n, limit, fn, acts), Reported(fn, status);
    SumOfCounts(p.finished, st);
    RunInv(n, limit, fn, acts);
    FinishedAtMost(p.finished, n);
    if limit > 0 && Quiescent(p) {
      QuiescentIsComplete(n, limit, fn, acts);
      forall s ensures Count(p.finished, st, s) == |AllWithStatus(n, fn, status, s)| {
        CountIsNumber(p.finished, st, s);
        AllFinished(p.finished, n, fn, status, s);
      }
    }
  }

  function AllWithStatus<R>(n: nat, fn: nat -> R, status: R -> Status, s: Status): set<nat> {
    set i: nat | i < n && status(fn(i)) == s
  }

  lemma AllFinished<R>(finished: seq<nat>, n: nat, fn: nat -> R, status: R -> Status, s: Status)
    requires forall i: nat :: i < n <==> i in finished
    ensures WithStatus(finished, Reported(fn, status), s) == AllWithStatus(n, fn, status, s)
  {
  }

  lemma FinishedAtMost(finished: seq<nat>, n: nat)
    requires NoRepeats(finished) && forall i :: i in finished ==> i < n
    ensures |finished| <= n
  {
    SetOfDistinct(finished);
    IndexSetSize(Elements(finished), n);
  }
}
