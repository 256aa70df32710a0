/**
 * Without new inserts and manual retries the queue can only change status finitely often, and it
 * is never stuck: workers and the reaper alone can always drive it until every task is terminal.
 */
module Termination {
  import opened Common
  import opened Tables
  import opened StoreInvariants
  import opened Protocol
  import opened Overrun
  import opened SharedIds

  // ---- Sums over the rows of a table ----

  ghost function Sum(m: map<TaskId, nat>): nat
    decreases |m|
  {
    if m == map[] then 0
    else
      var k :| k in m;
      m[k] + Sum(m - {k})
  }

  lemma {:induction false} SumSplit(m: map<TaskId, nat>, k: TaskId)
    requires k in m
    ensures Sum(m) == m[k] + Sum(m - {k})
    decreases |m|
  {
    var j :| j in m && Sum(m) == m[j] + Sum(m - {j});
    if j != k {
      SumSplit(m - {j}, k);
      SumSplit(m - {k}, j);
      assert m - {j} - {k} == m - {k} - {j};
    }
  }

  lemma SumUpdate(m: map<TaskId, nat>, k: TaskId, v: nat)
    requires k in m
    ensures Sum(m[k := v]) == Sum(m) - m[k] + v
  {
    SumSplit(m, k);
    SumSplit(m[k := v], k);
    assert m[k := v] - {k} == m - {k};
  }

  lemma {:induction false} SumMonotone(m: map<TaskId, nat>, n: map<TaskId, nat>)
    requires m.Keys <= n.Keys && forall k :: k in m ==> m[k] <= n[k]
    ensures Sum(m) <= Sum(n)
    decreases |m|
  {
    if m != map[] {
      var k :| k in m;
      SumSplit(m, k);
      SumSplit(n, k);
      SumMonotone(m - {k}, n - {k});
    }
  }

  // ---- The measure ----

  /** Attempts a row can get when its fleet has `spare` workers beyond one per id. */
  function Allowance(r: Row, spare: nat): nat {
    Max(1, r.maxRetries) + spare
  }

  /** Status changes still possible for a row that is within its allowance. */
  function Potential(r: Row, spare: nat): nat {
    match r.status
    case Pending => 2 * Max(0, Allowance(r, spare) - r.attempts)
    case Running => 2 * Max(0, Allowance(r, spare) - r.attempts) + 1
    case _ => 0
  }

  ghost function Potentials(db: Db, spare: nat): map<TaskId, nat> {
    map t | t in db.tasks :: Potential(db.tasks[t], spare)
  }

  ghost function Measure(db: Db, spare: nat): nat {
    Sum(Potentials(db, spare))
  }

  ghost function Allowances(db: Db, spare: nat): map<TaskId, nat> {
    map t | t in db.tasks :: 2 * Allowance(db.tasks[t], spare)
  }

  ghost function Spares(ids: seq<string>): nat {
    SlackBounds(ids, {});
    Excess(ids)
  }

  lemma MeasureBounded(db: Db, spare: nat)
    requires forall t :: t in db.tasks ==> RowOk(db.tasks[t])
    ensures Measure(db, spare) <= Sum(Allowances(db, spare))
  {
    SumMonotone(Potentials(db, spare), Allowances(db, spare));
  }

  lemma MeasureMove(db: Db, t: TaskId, r: Row, db': Db, spare: nat)
    requires t in db.tasks && db'.tasks == db.tasks[t := r]
    requires Potential(r, spare) + (if r.status == db.tasks[t].status then 0 else 1) <= Potential(db.tasks[t], spare)
    ensures Measure(db', spare) + |Changed(db, db')| <= Measure(db, spare)
  {
    PotentialsMove(db, t, r, db', spare);
    SumUpdate(Potentials(db, spare), t, Potential(r, spare));
    assert Changed(db, db') == if r.status == db.tasks[t].status then {} else {t};
  }

  lemma PotentialsMove(db: Db, t: TaskId, r: Row, db': Db, spare: nat)
    requires t in db.tasks && db'.tasks == db.tasks[t := r]
    ensures Potentials(db', spare) == Potentials(db, spare)[t := Potential(r, spare)]
  {
  }

  lemma SameRows(db: Db, db': Db, spare: nat)
    requires db'.tasks == db.tasks
    ensures Measure(db', spare) == Measure(db, spare) && Changed(db, db') == {}
  {
    assert Potentials(db', spare) == Potentials(db, spare);
  }

  lemma MeasureChain(a: Db, b: Db, c: Db, spare: nat)
    requires a.tasks.Keys == b.tasks.Keys
    requires Measure(b, spare) + |Changed(a, b)| <= Measure(a, spare)
    requires Measure(c, spare) + |Changed(b, c)| <= Measure(b, spare)
    ensures Measure(c, spare) + |Changed(a, c)| <= Measure(a, spare)
  {
    SubsetSize(Changed(a, c), Changed(a, b) + Changed(b, c));
  }

  lemma {:induction false} MeasureReap(db: Db, order: seq<TaskId>, at: Time, spare: nat)
    requires Distinct(order)
    requires forall t <- order :: t in db.tasks && db.tasks[t].status == Running
    ensures Measure(ReapEach(db, order, at), spare) + |Changed(db, ReapEach(db, order, at))| <= Measure(db, spare)
    decreases |order|
  {
    if order == [] {
      SameRows(db, ReapEach(db, order, at), spare);
    } else {
      var init, t := order[..|order| - 1], order[|order| - 1];
      var mid := ReapEach(db, init, at);
      MeasureReap(db, init, at, spare);
      ReapEachRows(db, init, at);
      assert t !in init;
      MeasureMove(mid, t, ReapRow(mid.tasks[t], at), ReapOne(mid, t, at), spare);
      MeasureChain(db, mid, ReapOne(mid, t, at), spare);
    }
  }

  lemma MeasureRetain(db: Db, cutoff: Time, spare: nat)
    ensures Measure(RetainTx(db, cutoff), spare) <= Measure(db, spare)
    ensures Changed(db, RetainTx(db, cutoff)) == {}
  {
    SumMonotone(Potentials(RetainTx(db, cutoff), spare), Potentials(db, spare));
  }

  /** Every closed step pays one unit of the measure for each status it changes, whatever the worker ids. */
  lemma StepDecreases(ids: seq<string>, s: Sys, step: Step)
    requires |s.held| == |ids| && Enabled(ids, s, step) && Closed(step) && Bounded(ids, s)
    ensures var db', spare := Next(ids, s, step).db, Spares(ids);
      Measure(db', spare) + |Changed(s.db, db')| <= Measure(s.db, spare)
  {
    var db', spare := Next(ids, s, step).db, Spares(ids);
    if db'.tasks == s.db.tasks {
      SameRows(s.db, db', spare);
    } else {
      match step
      case Claim(_, t, _) =>
        PendingHasAttempts(ids, s, t);
        MeasureMove(s.db, t, db'.tasks[t], db', spare);
      case Beat(_, t, _) => MeasureMove(s.db, t, db'.tasks[t], db', spare);
      case Finish(slot, _, _) =>
        var t := s.held[slot].value.task;
        MeasureMove(s.db, t, db'.tasks[t], db', spare);
      case Reap(order, _, at) => MeasureReap(s.db, order, at, spare);
      case Cancel(t, _) =>
        PendingHasAttempts(ids, s, t);
        MeasureMove(s.db, t, db'.tasks[t], db', spare);
      case Retain(cutoff) => MeasureRetain(s.db, cutoff, spare);
    }
  }

  /** A waiting row has an attempt of its allowance left. */
  lemma PendingHasAttempts(ids: seq<string>, s: Sys, t: TaskId)
    requires |s.held| == |ids| && Bounded(ids, s) && t in s.db.tasks && s.db.tasks[t].status == Pending
    ensures s.db.tasks[t].attempts < Allowance(s.db.tasks[t], Spares(ids))
  {
    assert RowBound(ids, s.db.tasks[t], Calm(s, t));
    SlackBounds(ids, Calm(s, t));
  }

  lemma {:induction false} RunDecreases(ids: seq<string>, s: Sys, steps: seq<Step>)
    requires |s.held| == |ids| && Run(ids, s, steps) && (forall x <- steps :: Closed(x)) && Bounded(ids, s)
    ensures Measure(Final(ids, s, steps).db, Spares(ids)) + Changes(ids, s, steps) <= Measure(s.db, Spares(ids))
    decreases |steps|
  {
    if steps != [] {
      assert steps[0] in steps;
      StepKeepsBounded(ids, s, steps[0]);
      StepDecreases(ids, s, steps[0]);
      RunDecreases(ids, Next(ids, s, steps[0]), steps[1..]);
    }
  }

  /**
   * From any reachable state of any fleet, a run of any length without inserts and manual retries
   * changes at most twice the sum of the rows' allowances in statuses.
   */
  lemma ChangesAreBounded(ids: seq<string>, s: Sys, steps: seq<Step>)
    requires Reachable(ids, s) && |s.held| == |ids|
    requires Run(ids, s, steps) && forall x <- steps :: Closed(x)
    ensures Changes(ids, s, steps) <= Sum(Allowances(s.db, Spares(ids)))
  {
    ReachableBounded(ids, s);
    ReachableOk(ids, s);
    RunDecreases(ids, s, steps);
    forall t | t in s.db.tasks
      ensures RowOk(s.db.tasks[t])
    {
      assert TaskOk(s.db, t);
    }
    MeasureBounded(s.db, Spares(ids));
  }

  lemma SumOfOne(db: Db, mr: int, spare: nat)
    requires db.tasks.Keys == {0} && db.tasks[0].maxRetries == mr >= 1
    ensures Sum(Allowances(db, spare)) == 2 * (mr + spare)
  {
    var m := Allowances(db, spare);
    SumSplit(m, 0);
    assert m - {0} == map[];
  }

  /** And that many changes do happen: for any worker ids and any budget of two or more. */
  lemma ChangesReached(ids: seq<string>, mr: int) returns (s: Sys, steps: seq<Step>)
    requires ids != [] && mr >= 2
    ensures Reachable(ids, s) && |s.held| == |ids| && Run(ids, s, steps) && forall x <- steps :: Closed(x)
    ensures s.db.tasks.Keys == {0} && s.db.tasks[0].maxRetries == mr
    ensures Changes(ids, s, steps) == Sum(Allowances(s.db, Spares(ids)))
  {
    var most, end;
    s, most, end := UsesEveryAttempt(ids, mr);
    FreshIsReachable(ids, s);
    SparesAreExcess(ids);
    SumOfOne(s.db, mr, Spares(ids));
    steps :|
      && Run(ids, s, steps) && Final(ids, s, steps) == end && (forall x <- steps :: Closed(x))
      && Changes(ids, s, steps) == 2 * (mr + SparesFrom(ids, 0));
  }

  predicate AllClosed(steps: seq<Step>) {
    forall x <- steps :: Closed(x)
  }

  /** Closed runs stay within twice the sum of the plain attempt budgets. */
  ghost predicate BudgetBoundsChanges(ids: seq<string>) {
    forall s, steps ::
      Reachable(ids, s) && |s.held| == |ids| && Run(ids, s, steps) && AllClosed(steps) ==>
      Changes(ids, s, steps) <= Sum(Allowances(s.db, 0))
  }

  /** The plain budgets bound the changes of every closed run exactly when worker ids are distinct. */
  lemma BudgetBoundsChangesIff(ids: seq<string>)
    ensures BudgetBoundsChanges(ids) <==> Distinct(ids)
  {
    ExcessIffShared(ids);
    if Distinct(ids) {
      forall s, steps | Reachable(ids, s) && |s.held| == |ids| && Run(ids, s, steps) && AllClosed(steps)
        ensures Changes(ids, s, steps) <= Sum(Allowances(s.db, 0))
      {
        ChangesAreBounded(ids, s, steps);
      }
    } else {
      var s, steps := ChangesReached(ids, 2);
      SumOfOne(s.db, 2, Spares(ids));
      SumOfOne(s.db, 2, 0);
      assert AllClosed(steps);
    }
  }

  // ---- Progress ----

  ghost predicate AllTerminal(db: Db) {
    forall t :: t in db.tasks ==> db.tasks[t].status in {Completed, Canceled, Dead}
  }

  /** Steps taken by workers and reapers alone, with the reaper at its configured threshold. */
  predicate WorkStep(step: Step, threshold: Time) {
    step.Tick? || step.Claim? || step.Finish? || (step.Reap? && step.threshold == threshold)
  }

  function Later(a: Time, b: Time): Time {
    if a < b then b else a
  }

  /** An idle worker waits for the task to be due and claims it. */
  lemma ClaimNext(ids: seq<string>, s: Sys, t: TaskId) returns (steps: seq<Step>, s': Sys)
    requires |ids| == |s.held| > 0 && Idle(s, 0) && t in s.db.tasks && s.db.tasks[t].status == Pending
    ensures Run(ids, s, steps) && Final(ids, s, steps) == s'
    ensures forall x <- steps :: x.Tick? || x.Claim?
    ensures Changes(ids, s, steps) >= 1
  {
    var at := Later(s.now, s.db.tasks[t].runAt);
    var s1 := Next(ids, s, Tick(at));
    s' := Next(ids, s1, Claim(0, t, at));
    steps := [Tick(at), Claim(0, t, at)];
    RunBack(ids, s1, [Claim(0, t, at)]);
    RunBack(ids, s, steps);
    assert steps[1..] == [Claim(0, t, at)] && [Claim(0, t, at)][1..] == [];
    assert t in Changed(s1.db, s'.db);
    assert Changes(ids, s1, steps[1..]) >= |Changed(s1.db, s'.db)|;
  }

  /** The reaper waits for the lease to go stale and reaps it. */
  lemma ReapNext(ids: seq<string>, s: Sys, t: TaskId, threshold: Time) returns (steps: seq<Step>, s': Sys)
    requires |ids| == |s.held| && t in s.db.tasks && s.db.tasks[t].status == Running && s.db.tasks[t].lockedAt.Some?
    ensures Run(ids, s, steps) && Final(ids, s, steps) == s'
    ensures forall x <- steps :: x.Tick? || (x.Reap? && x.threshold == threshold)
    ensures Changes(ids, s, steps) >= 1
  {
    var at := Later(s.now, s.db.tasks[t].lockedAt.value + threshold + 1.0);
    var s1 := Next(ids, s, Tick(at));
    var reap := Reap([t], threshold, at);
    s' := Next(ids, s1, reap);
    ReapEachRows(s1.db, [t], at);
    steps := [Tick(at), reap];
    RunBack(ids, s1, [reap]);
    RunBack(ids, s, steps);
    assert steps[1..] == [reap] && [reap][1..] == [];
    assert t in Changed(s1.db, s'.db);
    assert Changes(ids, s1, steps[1..]) >= |Changed(s1.db, s'.db)|;
  }

  lemma {:induction false} Drain(ids: seq<string>, s: Sys, threshold: Time) returns (steps: seq<Step>)
    requires |ids| == |s.held| > 0 && SysOk(s) && Bounded(ids, s)
    ensures Run(ids, s, steps) && AllTerminal(Final(ids, s, steps).db)
    ensures forall x <- steps :: WorkStep(x, threshold)
    decreases Measure(s.db, Spares(ids)), Busy(s, 0)
  {
    if AllTerminal(s.db) {
      return [];
    }
    var t :| t in s.db.tasks && s.db.tasks[t].status !in {Completed, Canceled, Dead};
    assert TaskOk(s.db, t);
    var first, s1;
    if s.db.tasks[t].status == Running {
      first, s1 := ReapNext(ids, s, t, threshold);
    } else if Busy(s, 0) {
      first := [Finish(0, Succeeded, s.now)];
      s1 := Next(ids, s, first[0]);
      RunBack(ids, s, first);
    } else {
      first, s1 := ClaimNext(ids, s, t);
    }
    RunKeeps(ids, s, first);
    RunKeepsBounded(ids, s, first);
    RunDecreases(ids, s, first);
    var rest := Drain(ids, s1, threshold);
    RunAppend(ids, s, first, rest);
    steps := first + rest;
  }

  ghost predicate Drainable(ids: seq<string>, s: Sys, threshold: Time)
    requires |s.held| == |ids|
  {
    exists steps ::
      && Run(ids, s, steps) && AllTerminal(Final(ids, s, steps).db)
      && forall x <- steps :: WorkStep(x, threshold)
  }

  /** No reachable state is stuck: with one worker and one reaper it can always be drained. */
  lemma CanAlwaysDrain(ids: seq<string>, s: Sys, threshold: Time)
    requires |ids| > 0 && Reachable(ids, s)
    ensures |s.held| == |ids| && Drainable(ids, s, threshold)
  {
    ReachableOk(ids, s);
    ReachableBounded(ids, s);
    var steps := Drain(ids, s, threshold);
  }
}
