/** Histories of the migration runners: any number of runs, concurrent or not, with either
    setting of the post-deploy opt-in, failing statements and crashes at every point. */
module MigrationRuns {
  import opened Wrappers
  import H = MigrationHeaders

  /** A directory's files in sorted order, with the scopes its runner carries out. */
  datatype Directory = Directory(entries: seq<H.Entry>, scope: H.Scope)

  ghost predicate ValidDirectory(d: Directory) {
    H.DistinctFiles(d.entries)
  }

  // ---------- the migrations table ----------

  datatype Step = Skip | Reject | Execute

  /** What a runner does with an entry, given the rows of the migrations table. */
  function Decide(d: Directory, applied: seq<string>, e: H.Entry): Step {
    if e.scope != d.scope then Reject else if e.file in applied then Skip else Execute
  }

  /** The table: one row per committed file, in commit order; its filename column is unique. */
  class Ledger {
    var applied: seq<string>

    constructor ()
      ensures applied == []
    {
      applied := [];
    }

    /** One transaction: the file's statements and its row commit together or not at all. */
    method ApplyMigration(file: string, sqlOk: bool) returns (committed: bool)
      modifies this
      ensures committed <==> sqlOk && file !in old(applied)
      ensures applied == if committed then old(applied) + [file] else old(applied)
    {
      if !sqlOk || file in applied {
        return false;
      }
      applied := applied + [file];
      committed := true;
    }

    /** One entry: skipped, rejected for its scope, or applied. */
    method ApplyByScope(d: Directory, e: H.Entry, sqlOk: bool) returns (ok: bool)
      modifies this
      ensures applied == if Decide(d, old(applied), e).Execute? && sqlOk then old(applied) + [e.file] else old(applied)
      ensures ok <==> Decide(d, old(applied), e).Skip? || (Decide(d, old(applied), e).Execute? && sqlOk)
    {
      if e.scope != d.scope {
        return false;
      }
      if e.file in applied {
        return true;
      }
      ok := ApplyMigration(e.file, sqlOk);
    }

    /** A run alone in the database: entries in order until the first failure. */
    method Migrate(d: Directory, allow: bool, broken: set<string>) returns (ok: bool)
      modifies this
      ensures (applied, ok) == SoloRun(d, old(applied), H.Selected(d.entries, allow), broken)
    {
      var plan := H.Selected(d.entries, allow);
      for i := 0 to |plan|
        invariant SoloRun(d, old(applied), plan, broken) == SoloRun(d, applied, plan[i..], broken)
      {
        assert plan[i..][1..] == plan[i + 1..];
        ok := ApplyByScope(d, plan[i], plan[i].file !in broken);
        if !ok {
          return;
        }
      }
      ok := true;
    }
  }

  function SoloRun(d: Directory, applied: seq<string>, plan: seq<H.Entry>, broken: set<string>): (seq<string>, bool)
    decreases |plan|
  {
    if plan == [] then (applied, true)
    else
      match Decide(d, applied, plan[0])
      case Reject => (applied, false)
      case Skip => SoloRun(d, applied, plan[1..], broken)
      case Execute =>
        if plan[0].file in broken then (applied, false)
        else SoloRun(d, applied + [plan[0].file], plan[1..], broken)
  }

  // ---------- concurrent runners ----------

  /** Walking(n) holds the lock and looks at plan entry n next; InTransaction(n) has executed
      entry n's statements and not yet committed. Both run under the advisory lock. */
  datatype Pc = Waiting | Walking(n: nat) | InTransaction(n: nat) | Succeeded | Failed

  datatype Runner = Runner(allow: bool, pc: Pc)

  datatype System = System(applied: seq<string>, lock: Option<nat>, runners: map<nat, Runner>)

  datatype Action =
    | Launch(id: nat, allow: bool)
    | Acquire(id: nat)
    | Advance(id: nat)
    | Commit(id: nat)
    | Abort(id: nat)
    | Crash(id: nat)

  function PlanOf(d: Directory, r: Runner): seq<H.Entry> {
    H.Selected(d.entries, r.allow)
  }

  function Moved(s: System, id: nat, pc: Pc): System
    requires id in s.runners
  {
    s.(runners := s.runners[id := s.runners[id].(pc := pc)])
  }

  /** A run that ends gives up the lock; so does one whose connection is lost. */
  function Ended(s: System, id: nat, pc: Pc): System
    requires id in s.runners
  {
    Moved(s, id, pc).(lock := if s.lock == Some(id) then None else s.lock)
  }

  predicate Final(pc: Pc) {
    pc.Succeeded? || pc.Failed?
  }

  /** One step; an action that is not enabled changes nothing. */
  function Next(d: Directory, s: System, act: Action): System {
    if act.Launch? then
      if act.id in s.runners then s else s.(runners := s.runners[act.id := Runner(act.allow, Waiting)])
    else if act.id !in s.runners then s
    else
      var id, r := act.id, s.runners[act.id];
      match act
      case Acquire(_) => if r.pc.Waiting? && s.lock.None? then Moved(s, id, Walking(0)).(lock := Some(id)) else s
      case Advance(_) =>
        if !r.pc.Walking? then s
        else if r.pc.n >= |PlanOf(d, r)| then Ended(s, id, Succeeded)
        else
          (match Decide(d, s.applied, PlanOf(d, r)[r.pc.n])
           case Reject => Ended(s, id, Failed)
           case Skip => Moved(s, id, Walking(r.pc.n + 1))
           case Execute => Moved(s, id, InTransaction(r.pc.n)))
      case Commit(_) =>
        if !r.pc.InTransaction? || r.pc.n >= |PlanOf(d, r)| then s
        else
          var file := PlanOf(d, r)[r.pc.n].file;
          if file in s.applied then Ended(s, id, Failed)
          else Moved(s, id, Walking(r.pc.n + 1)).(applied := s.applied + [file])
      case Abort(_) => if r.pc.InTransaction? then Ended(s, id, Failed) else s
      case Crash(_) => if Final(r.pc) then s else Ended(s, id, Failed)
  }

  function Run(d: Directory, acts: seq<Action>): System {
    if acts == [] then System([], None, map[]) else Next(d, Run(d, acts[..|acts| - 1]), acts[|acts| - 1])
  }

  // ---------- invariants ----------

  predicate NoRepeats(s: seq<string>) {
    forall i, j :: 0 <= i < j < |s| ==> s[i] != s[j]
  }

  /** Whenever a file is applied, so is every earlier file of its phase: per phase, what is
      applied is a prefix of the sorted files. */
  ghost predicate PhasePrefixes(d: Directory, applied: seq<string>) {
    forall i, j :: 0 <= i < j < |d.entries| && d.entries[i].phase == d.entries[j].phase && d.entries[j].file in applied ==>
      d.entries[i].file in applied
  }

  /** Only files of the directory, of the runner's own scope, are ever applied. */
  ghost predicate Known(d: Directory, applied: seq<string>) {
    forall f :: f in applied ==> exists e :: e in d.entries && e.file == f && e.scope == d.scope
  }

  ghost predicate AllApplied(entries: seq<H.Entry>, applied: seq<string>) {
    forall e :: e in entries ==> e.file in applied
  }

  predicate Holds(pc: Pc) {
    pc.Walking? || pc.InTransaction?
  }

  ghost predicate RunnerInv(d: Directory, applied: seq<string>, r: Runner) {
    match r.pc
    case Waiting => true
    case Failed => true
    case Walking(n) => n <= |PlanOf(d, r)| && AllApplied(PlanOf(d, r)[..n], applied)
    case InTransaction(n) =>
      && n < |PlanOf(d, r)| && AllApplied(PlanOf(d, r)[..n], applied)
      && PlanOf(d, r)[n].scope == d.scope && PlanOf(d, r)[n].file !in applied
    case Succeeded => AllApplied(PlanOf(d, r), applied)
  }

  ghost predicate LedgerInv(d: Directory, applied: seq<string>) {
    NoRepeats(applied) && PhasePrefixes(d, applied) && Known(d, applied)
  }

  ghost predicate Inv(d: Directory, s: System) {
    && LedgerInv(d, s.applied)
    && (forall id :: id in s.runners ==> RunnerInv(d, s.applied, s.runners[id]))
    && (forall id :: id in s.runners ==> (Holds(s.runners[id].pc) <==> s.lock == Some(id)))
    && (s.lock.Some? ==> s.lock.value in s.runners)
  }

  lemma MovedKeepsInv(d: Directory, s: System, id: nat, pc: Pc)
    requires Inv(d, s) && id in s.runners
    requires RunnerInv(d, s.applied, s.runners[id].(pc := pc))
    requires Holds(pc) <==> s.lock == Some(id)
    ensures Inv(d, Moved(s, id, pc))
  {
  }

  lemma EndedKeepsInv(d: Directory, s: System, id: nat, pc: Pc)
    requires Inv(d, s) && id in s.runners
    requires RunnerInv(d, s.applied, s.runners[id].(pc := pc)) && Final(pc)
    ensures Inv(d, Ended(s, id, pc))
  {
  }

  lemma AcquireKeepsInv(d: Directory, s: System, id: nat)
    requires Inv(d, s) && id in s.runners && s.runners[id].pc.Waiting? && s.lock.None?
    ensures Inv(d, Moved(s, id, Walking(0)).(lock := Some(id)))
  {
    assert PlanOf(d, s.runners[id])[..0] == [];
  }

  lemma AppliedExtend(plan: seq<H.Entry>, n: nat, applied: seq<string>)
    requires n < |plan| && AllApplied(plan[..n], applied) && plan[n].file in applied
    ensures AllApplied(plan[..n + 1], applied)
  {
    assert plan[..n + 1] == plan[..n] + [plan[n]];
  }

  /** Committing the next file of a plan keeps the ledger a prefix in its phase. */
  lemma CommitKeepsLedger(d: Directory, applied: seq<string>, allow: bool, n: nat)
    requires ValidDirectory(d) && LedgerInv(d, applied)
    requires n < |H.Selected(d.entries, allow)|
    requires AllApplied(H.Selected(d.entries, allow)[..n], applied)
    requires H.Selected(d.entries, allow)[n].scope == d.scope && H.Selected(d.entries, allow)[n].file !in applied
    ensures LedgerInv(d, applied + [H.Selected(d.entries, allow)[n].file])
  {
    var e := H.Selected(d.entries, allow)[n];
    var after := applied + [e.file];
    H.PlanPartitions(d.entries, allow, e);
    assert e in d.entries;
    forall i, j | 0 <= i < j < |d.entries| && d.entries[i].phase == d.entries[j].phase && d.entries[j].file in after
      ensures d.entries[i].file in after
    {
      if d.entries[j].file !in applied {
        assert d.entries[j] == e;
        H.EarlierOfPhaseFirst(d.entries, allow, n, i, j);
      }
    }
  }

  lemma GrowthKeepsRunner(d: Directory, applied: seq<string>, file: string, r: Runner)
    requires RunnerInv(d, applied, r) && !r.pc.InTransaction?
    ensures RunnerInv(d, applied + [file], r)
  {
  }

  lemma CommitKeepsInv(d: Directory, s: System, id: nat)
    requires ValidDirectory(d) && Inv(d, s) && id in s.runners && s.runners[id].pc.InTransaction?
    ensures Inv(d, Next(d, s, Commit(id)))
  {
    var r := s.runners[id];
    var n, plan := r.pc.n, PlanOf(d, r);
    var file := plan[n].file;
    CommitKeepsLedger(d, s.applied, r.allow, n);
    forall other | other in s.runners && other != id
      ensures RunnerInv(d, s.applied + [file], s.runners[other])
    {
      assert s.lock == Some(id);
      GrowthKeepsRunner(d, s.applied, file, s.runners[other]);
    }
    AppliedExtend(plan, n, s.applied + [file]);
  }

  lemma AdvanceKeepsInv(d: Directory, s: System, id: nat)
    requires Inv(d, s) && id in s.runners && s.runners[id].pc.Walking?
    ensures Inv(d, Next(d, s, Advance(id)))
  {
    var r := s.runners[id];
    var n, plan := r.pc.n, PlanOf(d, r);
    if n >= |plan| {
      assert plan[..n] == plan;
      EndedKeepsInv(d, s, id, Succeeded);
    } else {
      match Decide(d, s.applied, plan[n]) {
        case Reject => EndedKeepsInv(d, s, id, Failed);
        case Skip =>
          AppliedExtend(plan, n, s.applied);
          MovedKeepsInv(d, s, id, Walking(n + 1));
        case Execute => MovedKeepsInv(d, s, id, InTransaction(n));
      }
    }
  }

  lemma NextKeepsInv(d: Directory, s: System, act: Action)
    requires ValidDirectory(d) && Inv(d, s)
    ensures Inv(d, Next(d, s, act))
  {
    if !act.Launch? && act.id in s.runners {
      var pc := s.runners[act.id].pc;
      match act {
        case Launch(_, _) =>
        case Acquire(id) => if pc.Waiting? && s.lock.None? { AcquireKeepsInv(d, s, id); }
        case Advance(id) => if pc.Walking? { AdvanceKeepsInv(d, s, id); }
        case Commit(id) => if pc.InTransaction? { CommitKeepsInv(d, s, id); }
        case Abort(id) => EndedKeepsInv(d, s, id, Failed);
        case Crash(id) => EndedKeepsInv(d, s, id, Failed);
      }
    }
  }

  lemma {:induction false} RunInv(d: Directory, acts: seq<Action>)
    requires ValidDirectory(d)
    ensures Inv(d, Run(d, acts))
  {
    if acts != [] {
      RunInv(d, acts[..|acts| - 1]);
      NextKeepsInv(d, Run(d, acts[..|acts| - 1]), acts[|acts| - 1]);
    }
  }

  /** In every history every file commits at most once, what is applied of each phase is a prefix
      of the sorted files of that phase, and only files of the right scope are applied. */
  lemma HistorySafety(d: Directory, acts: seq<Action>)
    requires ValidDirectory(d)
    ensures var applied := Run(d, acts).applied;
            NoRepeats(applied) && PhasePrefixes(d, applied) && Known(d, applied)
  {
    RunInv(d, acts);
  }

  /** A run that succeeded with the opt-in leaves every file applied; one without it leaves
      every pre-deploy file applied. */
  lemma SuccessMeansApplied(d: Directory, acts: seq<Action>, id: nat, e: H.Entry)
    requires ValidDirectory(d)
    requires id in Run(d, acts).runners && Run(d, acts).runners[id].pc.Succeeded?
    requires e in d.entries && (Run(d, acts).runners[id].allow || e.phase.PreDeploy?)
    ensures e.file in Run(d, acts).applied
  {
    RunInv(d, acts);
    var r := Run(d, acts).runners[id];
    H.PlanPartitions(d.entries, r.allow, e);
  }

  // ---------- a run of its own ----------

  /** What a runner does, from plan entry n on, when nothing interferes: it aborts exactly the
      transaction of a broken file. */
  function LoneActs(d: Directory, applied: seq<string>, plan: seq<H.Entry>, id: nat, broken: set<string>): seq<Action>
    decreases |plan|
  {
    if plan == [] then [Advance(id)]
    else
      match Decide(d, applied, plan[0])
      case Reject => [Advance(id)]
      case Skip => [Advance(id)] + LoneActs(d, applied, plan[1..], id, broken)
      case Execute =>
        if plan[0].file in broken then [Advance(id)] + [Abort(id)]
        else [Advance(id)] + ([Commit(id)] + LoneActs(d, applied + [plan[0].file], plan[1..], id, broken))
  }

  function After(d: Directory, s: System, acts: seq<Action>): System
    decreases |acts|
  {
    if acts == [] then s else After(d, Next(d, s, acts[0]), acts[1..])
  }

  lemma {:induction false} AfterRun(d: Directory, acts: seq<Action>, more: seq<Action>)
    ensures Run(d, acts + more) == After(d, Run(d, acts), more)
    decreases |more|
  {
    if more == [] {
      assert acts + more == acts;
    } else {
      assert acts + more == (acts + [more[0]]) + more[1..];
      AfterRun(d, acts + [more[0]], more[1..]);
      assert (acts + [more[0]])[..|acts|] == acts;
    }
  }

  lemma AfterCons(d: Directory, s: System, act: Action, more: seq<Action>)
    ensures After(d, s, [act] + more) == After(d, Next(d, s, act), more)
  {
    assert ([act] + more)[1..] == more;
  }

  /** The state after a lone run: its table, its ending, the lock free, all other runners as before. */
  function Solved(s: System, id: nat, result: (seq<string>, bool)): System
    requires id in s.runners
  {
    System(result.0, None, s.runners[id := s.runners[id].(pc := if result.1 then Succeeded else Failed)])
  }

  lemma {:induction false} WalkIsSolo(d: Directory, s: System, id: nat, n: nat, broken: set<string>)
    requires id in s.runners && s.lock == Some(id) && s.runners[id].pc == Walking(n) && n <= |PlanOf(d, s.runners[id])|
    ensures var rest := PlanOf(d, s.runners[id])[n..];
            After(d, s, LoneActs(d, s.applied, rest, id, broken)) == Solved(s, id, SoloRun(d, s.applied, rest, broken))
    decreases |PlanOf(d, s.runners[id])| - n
  {
    var plan := PlanOf(d, s.runners[id]);
    var rest := plan[n..];
    if rest == [] {
      StepEnds(d, s, id, n);
    } else {
      assert rest[1..] == plan[n + 1..];
      match Decide(d, s.applied, rest[0]) {
        case Reject => StepEnds(d, s, id, n);
        case Skip =>
          AfterCons(d, s, Advance(id), LoneActs(d, s.applied, rest[1..], id, broken));
          var t := Moved(s, id, Walking(n + 1));
          WalkIsSolo(d, t, id, n + 1, broken);
          SolvedLater(s, t, id, SoloRun(d, s.applied, rest[1..], broken));
        case Execute => ExecuteIsSolo(d, s, id, n, broken);
      }
    }
  }

  lemma StepEnds(d: Directory, s: System, id: nat, n: nat)
    requires id in s.runners && s.lock == Some(id) && s.runners[id].pc == Walking(n) && n <= |PlanOf(d, s.runners[id])|
    requires var plan := PlanOf(d, s.runners[id]); n == |plan| || Decide(d, s.applied, plan[n]).Reject?
    ensures After(d, s, [Advance(id)]) == Solved(s, id, (s.applied, n == |PlanOf(d, s.runners[id])|))
  {
    AfterCons(d, s, Advance(id), []);
    assert [Advance(id)] + [] == [Advance(id)];
  }

  lemma SolvedLater(s: System, t: System, id: nat, result: (seq<string>, bool))
    requires id in s.runners && id in t.runners && t.runners == s.runners[id := t.runners[id]] && t.runners[id].allow == s.runners[id].allow
    ensures Solved(t, id, result) == Solved(s, id, result)
  {
  }

  lemma {:induction false} ExecuteIsSolo(d: Directory, s: System, id: nat, n: nat, broken: set<string>)
    requires id in s.runners && s.lock == Some(id) && s.runners[id].pc == Walking(n) && n < |PlanOf(d, s.runners[id])|
    requires Decide(d, s.applied, PlanOf(d, s.runners[id])[n]).Execute?
    ensures var rest := PlanOf(d, s.runners[id])[n..];
            After(d, s, LoneActs(d, s.applied, rest, id, broken)) == Solved(s, id, SoloRun(d, s.applied, rest, broken))
    decreases |PlanOf(d, s.runners[id])| - n, 0
  {
    var plan := PlanOf(d, s.runners[id]);
    var rest, file := plan[n..], plan[n].file;
    assert rest[0] == plan[n] && rest[1..] == plan[n + 1..];
    var t := Moved(s, id, InTransaction(n));
    assert Next(d, s, Advance(id)) == t;
    if file in broken {
      AfterCons(d, s, Advance(id), [Abort(id)]);
      AfterCons(d, t, Abort(id), []);
      assert [Abort(id)] + [] == [Abort(id)];
      SolvedLater(s, t, id, (s.applied, false));
    } else {
      var u := Moved(s, id, Walking(n + 1)).(applied := s.applied + [file]);
      var more := LoneActs(d, u.applied, rest[1..], id, broken);
      AfterCons(d, s, Advance(id), [Commit(id)] + more);
      AfterCons(d, t, Commit(id), more);
      CommitMoves(d, s, id, n);
      WalkIsSolo(d, u, id, n + 1, broken);
      SolvedLater(s, u, id, SoloRun(d, u.applied, rest[1..], broken));
    }
  }

  lemma CommitMoves(d: Directory, s: System, id: nat, n: nat)
    requires id in s.runners && n < |PlanOf(d, s.runners[id])| && PlanOf(d, s.runners[id])[n].file !in s.applied
    ensures Next(d, Moved(s, id, InTransaction(n)), Commit(id)) ==
            Moved(s, id, Walking(n + 1)).(applied := s.applied + [PlanOf(d, s.runners[id])[n].file])
  {
    var t := Moved(s, id, InTransaction(n));
    assert t.runners[id := t.runners[id].(pc := Walking(n + 1))] == s.runners[id := s.runners[id].(pc := Walking(n + 1))];
  }

  /** From every state of every history in which the lock is free, a waiting runner that is left
      alone takes the lock and ends with exactly the table and the ending of `SoloRun`. */
  lemma LoneRunIsSolo(d: Directory, acts: seq<Action>, id: nat, broken: set<string>)
    requires id in Run(d, acts).runners && Run(d, acts).runners[id].pc.Waiting? && Run(d, acts).lock.None?
    ensures var s := Run(d, acts); var plan := PlanOf(d, s.runners[id]);
            Run(d, acts + ([Acquire(id)] + LoneActs(d, s.applied, plan, id, broken)))
            == Solved(s, id, SoloRun(d, s.applied, plan, broken))
  {
    var s := Run(d, acts);
    var plan := PlanOf(d, s.runners[id]);
    var more := LoneActs(d, s.applied, plan, id, broken);
    var t := Moved(s, id, Walking(0)).(lock := Some(id));
    AfterRun(d, acts, [Acquire(id)] + more);
    AfterCons(d, s, Acquire(id), more);
    assert plan[0..] == plan;
    WalkIsSolo(d, t, id, 0, broken);
    SolvedLater(s, t, id, SoloRun(d, s.applied, plan, broken));
  }

  /** A run that dies with the lock, at whatever point of whatever history, leaves the table as it was
      and stands in nobody's way: the next one, with either opt-in, takes over and completes alone. */
  lemma CrashedRunIsReplaced(d: Directory, acts: seq<Action>, id: nat, next: nat, allow: bool, broken: set<string>)
    requires ValidDirectory(d) && Run(d, acts).lock == Some(id) && next !in Run(d, acts).runners
    ensures id in Run(d, acts).runners
    ensures var s := Run(d, acts); var plan := H.Selected(d.entries, allow);
            var t := System(s.applied, None, s.runners[id := s.runners[id].(pc := Failed)][next := Runner(allow, Waiting)]);
            && Run(d, acts + [Crash(id), Launch(next, allow)]) == t
            && Run(d, acts + [Crash(id), Launch(next, allow)] + ([Acquire(next)] + LoneActs(d, s.applied, plan, next, broken)))
               == Solved(t, next, SoloRun(d, s.applied, plan, broken))
  {
    RunInv(d, acts);
    var s := Run(d, acts);
    AfterRun(d, acts, [Crash(id), Launch(next, allow)]);
    CrashThenLaunch(d, s, id, next, allow);
    LoneRunIsSolo(d, acts + [Crash(id), Launch(next, allow)], next, broken);
  }

  lemma CrashThenLaunch(d: Directory, s: System, id: nat, next: nat, allow: bool)
    requires s.lock == Some(id) && id in s.runners && Holds(s.runners[id].pc) && next !in s.runners
    ensures After(d, s, [Crash(id), Launch(next, allow)])
            == System(s.applied, None, s.runners[id := s.runners[id].(pc := Failed)][next := Runner(allow, Waiting)])
  {
    AfterCons(d, s, Crash(id), [Launch(next, allow)]);
    AfterCons(d, Next(d, s, Crash(id)), Launch(next, allow), []);
    assert [Crash(id)] + [Launch(next, allow)] == [Crash(id), Launch(next, allow)];
    assert [Launch(next, allow)] + [] == [Launch(next, allow)];
  }

  /** All of these are steps of that runner, and only a broken file is aborted. */
  lemma {:induction false} LoneActsAreOwn(d: Directory, applied: seq<string>, plan: seq<H.Entry>, id: nat, broken: set<string>)
    ensures forall act :: act in LoneActs(d, applied, plan, id, broken) ==> act.id == id && !act.Crash?
    ensures Abort(id) in LoneActs(d, applied, plan, id, broken) ==> exists e :: e in plan && e.file in broken
    decreases |plan|
  {
    if plan != [] {
      assert plan[0] in plan;
      assert forall e :: e in plan[1..] ==> e in plan;
      LoneActsAreOwn(d, applied, plan[1..], id, broken);
      LoneActsAreOwn(d, applied + [plan[0].file], plan[1..], id, broken);
    }
  }

  /** At most one run is ever between acquiring and giving up the lock. */
  lemma RunsAreSerial(d: Directory, acts: seq<Action>, a: nat, b: nat)
    requires ValidDirectory(d)
    requires a in Run(d, acts).runners && b in Run(d, acts).runners
    requires Holds(Run(d, acts).runners[a].pc) && Holds(Run(d, acts).runners[b].pc)
    ensures a == b
  {
    RunInv(d, acts);
  }

  /** Nothing is ever unapplied. */
  lemma {:induction false} LedgerGrows(d: Directory, acts: seq<Action>, n: nat)
    requires n <= |acts|
    ensures Run(d, acts[..n]).applied <= Run(d, acts).applied
    decreases |acts|
  {
    if n == |acts| {
      assert acts[..n] == acts;
    } else {
      var init := acts[..|acts| - 1];
      assert init[..n] == acts[..n];
      LedgerGrows(d, init, n);
    }
  }

  /** The region runner's directories have one phase only: what is applied is a prefix of all files. */
  lemma SinglePhasePrefix(d: Directory, acts: seq<Action>, i: nat, j: nat)
    requires ValidDirectory(d) && forall e :: e in d.entries ==> e.phase.PreDeploy?
    requires i < j < |d.entries| && d.entries[j].file in Run(d, acts).applied
    ensures d.entries[i].file in Run(d, acts).applied
  {
    RunInv(d, acts);
    assert d.entries[i] in d.entries && d.entries[j] in d.entries;
  }

  /** A planned entry does not stop a run. */
  predicate Passable(d: Directory, applied: seq<string>, e: H.Entry, broken: set<string>) {
    e.scope == d.scope && (e.file in applied || e.file !in broken)
  }

  /** Entry n is the first that stops a run, or there is none. */
  predicate StopsAt(d: Directory, applied: seq<string>, plan: seq<H.Entry>, broken: set<string>, n: nat) {
    && n <= |plan| && (forall i :: 0 <= i < n ==> Passable(d, applied, plan[i], broken))
    && (n < |plan| ==> !Passable(d, applied, plan[n], broken))
  }

  /** One of the first n files of the plan. */
  ghost predicate Among(plan: seq<H.Entry>, n: nat, f: string)
    requires n <= |plan|
  {
    exists i :: 0 <= i < n && plan[i].file == f
  }

  /** The table after a lone run: what it held, and the files of the entries before the first that
      stopped it, no others. */
  lemma {:induction false} SoloRunApplies(d: Directory, applied: seq<string>, plan: seq<H.Entry>, broken: set<string>, n: nat)
    requires H.DistinctFiles(plan) && StopsAt(d, applied, plan, broken, n)
    ensures var r := SoloRun(d, applied, plan, broken);
            && (r.1 <==> n == |plan|)
            && forall f :: f in r.0 <==> f in applied || Among(plan, n, f)
    decreases |plan|
  {
    if plan != [] && n > 0 {
      var e, rest := plan[0], plan[1..];
      assert Passable(d, applied, e, broken);
      assert forall i :: 0 <= i < |rest| ==> rest[i] == plan[i + 1];
      var next := if e.file in applied then applied else applied + [e.file];
      forall i | 0 <= i < |rest| ensures Passable(d, next, rest[i], broken) <==> Passable(d, applied, rest[i], broken) {
        assert plan[i + 1].file != plan[0].file;
      }
      SoloRunApplies(d, next, rest, broken, n - 1);
      forall f ensures Among(plan, n, f) <==> f == e.file || Among(rest, n - 1, f) {
        AmongCons(plan, n, f);
      }
    }
  }

  lemma AmongCons(plan: seq<H.Entry>, n: nat, f: string)
    requires 0 < n <= |plan|
    ensures Among(plan, n, f) <==> f == plan[0].file || Among(plan[1..], n - 1, f)
  {
    if Among(plan[1..], n - 1, f) {
      var i :| 0 <= i < n - 1 && plan[1..][i].file == f;
      assert plan[i + 1].file == f;
    }
    if i :| 0 < i < n && plan[i].file == f {
      assert plan[1..][i - 1].file == f;
    }
  }

  /** A lone run succeeds exactly when each planned entry is of the right scope and is already
      applied or has working statements; then every planned file is applied. */
  lemma {:induction false} SoloRunMeaning(d: Directory, applied: seq<string>, plan: seq<H.Entry>, broken: set<string>)
    ensures var r := SoloRun(d, applied, plan, broken);
            && applied <= r.0
            && (r.1 ==> AllApplied(plan, r.0))
            && (r.1 <==> forall e :: e in plan ==> e.scope == d.scope && (e.file in applied || e.file !in broken))
    decreases |plan|
  {
    if plan != [] {
      var e := plan[0];
      assert plan == [e] + plan[1..] && plan[0] in plan;
      match Decide(d, applied, e) {
        case Reject =>
        case Skip => SoloRunMeaning(d, applied, plan[1..], broken);
        case Execute =>
          if e.file !in broken {
            SoloRunMeaning(d, applied + [e.file], plan[1..], broken);
            assert SoloRun(d, applied + [e.file], plan[1..], broken).0[|applied|] == e.file;
            assert forall x :: x in applied + [e.file] <==> x in applied || x == e.file;
          }
      }
    }
  }
}
