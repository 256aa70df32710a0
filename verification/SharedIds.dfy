/**
 * What workers that share an id can do: runs in which one of them ends an execution of the other,
 * and hence exactly when fencing, late outcomes, retry decisions and the attempt budget are safe.
 */
module SharedIds {
  import opened Common
  import opened Json
  import opened Tables
  import opened StoreInvariants
  import opened Protocol
  import opened Fencing
  import opened Overrun

  // ---- Paths ----

  predicate NoInserts(steps: seq<Step>) {
    forall x <- steps :: !x.Insert?
  }

  ghost predicate Reaches(ids: seq<string>, s: Sys, s': Sys)
    requires |s.held| == |ids|
  {
    exists steps :: Run(ids, s, steps) && Final(ids, s, steps) == s' && NoInserts(steps)
  }

  lemma StepReaches(ids: seq<string>, s: Sys, step: Step)
    requires |s.held| == |ids| && Enabled(ids, s, step) && !step.Insert?
    ensures Reaches(ids, s, Next(ids, s, step))
  {
    RunBack(ids, s, [step]);
  }

  lemma ReachesThrough(ids: seq<string>, a: Sys, b: Sys, c: Sys)
    requires |a.held| == |ids| == |b.held| && Reaches(ids, a, b) && Reaches(ids, b, c)
    ensures Reaches(ids, a, c)
  {
    var first :| Run(ids, a, first) && Final(ids, a, first) == b && NoInserts(first);
    var rest :| Run(ids, b, rest) && Final(ids, b, rest) == c && NoInserts(rest);
    RunAppend(ids, a, first, rest);
    assert forall x <- first + rest :: x in first || x in rest;
  }

  /** A path of closed steps with `n` status changes. */
  ghost predicate Pays(ids: seq<string>, s: Sys, s': Sys, n: nat)
    requires |s.held| == |ids|
  {
    exists steps ::
      && Run(ids, s, steps) && Final(ids, s, steps) == s' && (forall x <- steps :: Closed(x))
      && Changes(ids, s, steps) == n
  }

  lemma PaysNothing(ids: seq<string>, s: Sys)
    requires |s.held| == |ids|
    ensures Pays(ids, s, s, 0)
  {
    assert Run(ids, s, []);
  }

  lemma StepPays(ids: seq<string>, s: Sys, step: Step)
    requires |s.held| == |ids| && Enabled(ids, s, step) && Closed(step)
    ensures Pays(ids, s, Next(ids, s, step), |Changed(s.db, Next(ids, s, step).db)|)
  {
    RunBack(ids, s, [step]);
    assert [step][1..] == [];
    assert Changes(ids, s, [step]) == |Changed(s.db, Next(ids, s, step).db)|;
  }

  lemma PaysThrough(ids: seq<string>, a: Sys, b: Sys, c: Sys, m: nat, n: nat)
    requires |a.held| == |ids| == |b.held| && Pays(ids, a, b, m) && Pays(ids, b, c, n)
    ensures Pays(ids, a, c, m + n)
  {
    var first :|
      && Run(ids, a, first) && Final(ids, a, first) == b && (forall x <- first :: Closed(x))
      && Changes(ids, a, first) == m;
    var rest :|
      && Run(ids, b, rest) && Final(ids, b, rest) == c && (forall x <- rest :: Closed(x))
      && Changes(ids, b, rest) == n;
    RunAppend(ids, a, first, rest);
    ChangesAppend(ids, a, first, rest);
    assert forall x <- first + rest :: x in first || x in rest;
  }

  lemma PaysReaches(ids: seq<string>, s: Sys, s': Sys, n: nat)
    requires |s.held| == |ids| && Pays(ids, s, s', n)
    ensures Reaches(ids, s, s')
  {
  }

  // ---- One task and its workers ----

  function Job(mr: int): Request {
    Request("echo", Null, None, 0, mr, 0.0)
  }

  ghost predicate Queued(s: Sys, mr: int, k: int) {
    && s.db.tasks.Keys == {0} && Ready(s.db, 0, s.now)
    && s.db.tasks[0].maxRetries == mr && s.db.tasks[0].attempts == k
  }

  ghost predicate RunningBy(s: Sys, w: string, mr: int, k: int) {
    && s.db.tasks.Keys == {0} && OwnedBy(s.db, 0, w) && s.db.tasks[0].lockedAt == Some(s.now)
    && s.db.tasks[0].maxRetries == mr && s.db.tasks[0].attempts == k
  }

  lemma Enqueued(ids: seq<string>, mr: int) returns (s: Sys)
    ensures |s.held| == |ids| && Queued(s, mr, 0) && forall i :: 0 <= i < |ids| ==> s.held[i].None?
    ensures forall s' :: Reaches(ids, s, s') ==> FreshlyReachable(ids, s')
  {
    var insert := Insert(Job(mr), "", 0, 0.0);
    s := Next(ids, Start(|ids|), insert);
    InsertMiss(EMPTY, Job(mr), "", 0, 0.0);
    forall s' | Reaches(ids, s, s')
      ensures FreshlyReachable(ids, s')
    {
      var steps :| Run(ids, s, steps) && Final(ids, s, steps) == s' && NoInserts(steps);
      NoInsertIsFresh({0}, steps);
      assert ([insert] + steps)[1..] == steps;
      RunBack(ids, Start(|ids|), [insert] + steps);
      assert {} + {0} == {0};
      assert FreshIds({}, [insert] + steps);
    }
  }

  lemma {:induction false} NoInsertIsFresh(used: set<TaskId>, steps: seq<Step>)
    requires NoInserts(steps)
    ensures FreshIds(used, steps)
    decreases |steps|
  {
    if steps != [] {
      assert steps[0] in steps;
      NoInsertIsFresh(used, steps[1..]);
    }
  }

  lemma FreshIsReachable(ids: seq<string>, s: Sys)
    requires FreshlyReachable(ids, s)
    ensures Reachable(ids, s)
  {
  }

  lemma Claimed(ids: seq<string>, s: Sys, i: nat, mr: int, k: int) returns (s': Sys)
    requires |s.held| == |ids| && Idle(s, i) && Queued(s, mr, k)
    ensures Pays(ids, s, s', 1) && RunningBy(s', ids[i], mr, k + 1)
    ensures s'.held == s.held[i := Some(Snapshot(0, k + 1, mr, s.claims))]
  {
    s' := ClaimedState(ids, s, i, mr, k);
    assert Changed(s.db, s'.db) == {0};
    StepPays(ids, s, Claim(i, 0, s.now));
  }

  lemma ClaimedState(ids: seq<string>, s: Sys, i: nat, mr: int, k: int) returns (s': Sys)
    requires |s.held| == |ids| && Idle(s, i) && Queued(s, mr, k)
    ensures Enabled(ids, s, Claim(i, 0, s.now)) && s' == Next(ids, s, Claim(i, 0, s.now))
    ensures RunningBy(s', ids[i], mr, k + 1) && s'.held == s.held[i := Some(Snapshot(0, k + 1, mr, s.claims))]
  {
    s' := Next(ids, s, Claim(i, 0, s.now));
  }

  lemma Requeued(ids: seq<string>, s: Sys, i: nat, mr: int, k: int) returns (s': Sys)
    requires |s.held| == |ids| && WouldRetry(s, i, 0) && RunningBy(s, ids[i], mr, k)
    ensures Pays(ids, s, s', 1) && Queued(s', mr, k) && s'.held == s.held[i := None]
  {
    var step := Finish(i, Failed("", s.now), s.now);
    StepPays(ids, s, step);
    s' := Next(ids, s, step);
    assert Changed(s.db, s'.db) == {0};
  }

  lemma Ended(ids: seq<string>, s: Sys, i: nat, mr: int, k: int) returns (s': Sys)
    requires |s.held| == |ids| && Busy(s, i) && s.held[i].value.task == 0 && RunningBy(s, ids[i], mr, k)
    ensures Pays(ids, s, s', 1)
  {
    var step := Finish(i, Succeeded, s.now);
    StepPays(ids, s, step);
    s' := Next(ids, s, step);
    assert Changed(s.db, s'.db) == {0};
  }

  ghost predicate StaleRunning(s: Sys, mr: int, k: int) {
    && s.db.tasks.Keys == {0} && Stale(s.db.tasks[0], 1.0, s.now)
    && s.db.tasks[0].maxRetries == mr && s.db.tasks[0].attempts == k
  }

  /** A lease once stale is reaped and the task, with attempts left, queued again. */
  lemma ReapedState(ids: seq<string>, s: Sys, mr: int, k: int) returns (s': Sys)
    requires |s.held| == |ids| && StaleRunning(s, mr, k) && k < mr
    ensures Enabled(ids, s, Reap([0], 1.0, s.now)) && s' == Next(ids, s, Reap([0], 1.0, s.now))
    ensures Queued(s', mr, k) && s'.held == s.held && s'.now == s.now
  {
    ReapEachRows(s.db, [0], s.now);
    s' := Next(ids, s, Reap([0], 1.0, s.now));
  }

  lemma Lost(ids: seq<string>, s: Sys, w: string, mr: int, k: int) returns (late: Sys, s': Sys)
    requires |s.held| == |ids| && RunningBy(s, w, mr, k) && k < mr
    ensures late.held == s.held && Reaches(ids, s, late) && StaleRunning(late, mr, k)
    ensures Enabled(ids, late, Reap([0], 1.0, late.now)) && s' == Next(ids, late, Reap([0], 1.0, late.now))
    ensures Reaches(ids, s, s') && Queued(s', mr, k) && s'.held == s.held && s'.now == late.now
  {
    StepReaches(ids, s, Tick(s.now + 2.0));
    late := Next(ids, s, Tick(s.now + 2.0));
    s' := ReapedState(ids, late, mr, k);
    StepReaches(ids, late, Reap([0], 1.0, late.now));
    ReachesThrough(ids, s, late, s');
  }

  lemma Restarted(ids: seq<string>, s: Sys, i: nat, mr: int, k: int) returns (s': Sys)
    requires |s.held| == |ids| && Busy(s, i) && s.held[i].value.task == 0 && RunningBy(s, ids[i], mr, k)
    ensures Reaches(ids, s, s') && Queued(s', mr, 0) && s'.held == s.held[i := None]
  {
    StepReaches(ids, s, Finish(i, NoHandler(""), s.now));
    var dead := Next(ids, s, Finish(i, NoHandler(""), s.now));
    StepReaches(ids, dead, RetryDead(0, dead.now));
    s' := Next(ids, dead, RetryDead(0, dead.now));
    ReachesThrough(ids, s, dead, s');
  }

  // ---- Spare workers waiting with an attempt they would retry ----

  /** A later slot runs under the same id. */
  predicate Spare(ids: seq<string>, i: nat) {
    i < |ids| && ids[i] in ids[i + 1..]
  }

  function SparesFrom(ids: seq<string>, n: nat): nat
    decreases |ids| - n
  {
    if n >= |ids| then 0 else (if Spare(ids, n) then 1 else 0) + SparesFrom(ids, n + 1)
  }

  lemma ExcessCons(id: string, rest: seq<string>)
    ensures Excess([id] + rest) == Excess(rest) + if id in rest then 1 else 0
  {
    if id in rest {
      assert Elems([id] + rest) == Elems(rest);
    } else {
      assert Elems([id] + rest) == Elems(rest) + {id} && id !in Elems(rest);
    }
  }

  lemma {:induction false} SparesAre(ids: seq<string>, n: nat)
    requires n <= |ids|
    ensures SparesFrom(ids, n) == Excess(ids[n..])
    decreases |ids| - n
  {
    if n < |ids| {
      SparesAre(ids, n + 1);
      ExcessCons(ids[n], ids[n + 1..]);
      assert ids[n..] == [ids[n]] + ids[n + 1..];
    }
  }

  lemma {:induction false} LastOfId(ids: seq<string>, i: nat) returns (j: nat)
    requires Spare(ids, i)
    ensures i < j < |ids| && ids[j] == ids[i] && !Spare(ids, j)
    decreases |ids| - i
  {
    j :| 0 <= j < |ids[i + 1..]| && ids[i + 1..][j] == ids[i];
    j := j + i + 1;
    if Spare(ids, j) {
      j := LastOfId(ids, j);
    }
  }

  /** Exactly the spare slots in `lo..hi` execute an attempt they would retry; the rest are idle. */
  ghost predicate Parked(ids: seq<string>, s: Sys, lo: nat, hi: nat) {
    && |s.held| == |ids|
    && forall i {:trigger s.held[i]} :: 0 <= i < |ids| ==>
      if lo <= i < hi && Spare(ids, i) then Retries(s.held[i], 0) else s.held[i].None?
  }

  lemma ParkedMore(ids: seq<string>, s: Sys, s': Sys, n: nat)
    requires Parked(ids, s, 0, n) && Spare(ids, n) && |s'.held| == |ids|
    requires Retries(s'.held[n], 0) && s'.held == s.held[n := s'.held[n]]
    ensures Parked(ids, s', 0, n + 1)
  {
  }

  lemma ParkedLess(ids: seq<string>, s: Sys, s': Sys, n: nat)
    requires Parked(ids, s, n, |ids|) && Spare(ids, n) && s'.held == s.held[n := None]
    ensures Parked(ids, s', n + 1, |ids|)
  {
  }

  lemma ParkedSkip(ids: seq<string>, s: Sys, n: nat)
    requires Parked(ids, s, n, |ids|) && !Spare(ids, n)
    ensures Parked(ids, s, n + 1, |ids|)
  {
  }

  /** Slot `n` takes a first attempt and loses it to the reaper; the last slot restarts the task. */
  lemma ParkOne(ids: seq<string>, s: Sys, n: nat, mr: int) returns (s': Sys)
    requires Spare(ids, n) && mr >= 2 && Parked(ids, s, 0, n) && Queued(s, mr, 0)
    ensures Reaches(ids, s, s') && Parked(ids, s', 0, n + 1) && Queued(s', mr, 0)
  {
    var last := |ids| - 1;
    assert !Spare(ids, last);
    var s1 := Claimed(ids, s, n, mr, 0);
    var _, s2 := Lost(ids, s1, ids[n], mr, 1);
    var s3 := Claimed(ids, s2, last, mr, 1);
    s' := Restarted(ids, s3, last, mr, 2);
    ParkedMore(ids, s, s', n);
    PaysReaches(ids, s, s1, 1);
    PaysReaches(ids, s2, s3, 1);
    ReachesThrough(ids, s, s1, s2);
    ReachesThrough(ids, s, s2, s3);
    ReachesThrough(ids, s, s3, s');
  }

  lemma {:induction false} ParkAll(ids: seq<string>, s: Sys, n: nat, mr: int) returns (s': Sys)
    requires n <= |ids| && mr >= 2 && Parked(ids, s, 0, n) && Queued(s, mr, 0)
    ensures Reaches(ids, s, s') && Parked(ids, s', 0, |ids|) && Queued(s', mr, 0)
    decreases |ids| - n
  {
    if n == |ids| {
      PaysNothing(ids, s);
      s' := s;
    } else if Spare(ids, n) {
      var s1 := ParkOne(ids, s, n, mr);
      s' := ParkAll(ids, s1, n + 1, mr);
      ReachesThrough(ids, s, s1, s');
    } else {
      s' := ParkAll(ids, s, n + 1, mr);
    }
  }

  /** The last slot spends the regular attempts one short of the budget. */
  lemma {:induction false} SpendBudget(ids: seq<string>, s: Sys, mr: int, k: int) returns (s': Sys)
    requires ids != [] && 0 <= k < mr && Parked(ids, s, 0, |ids|) && Queued(s, mr, k)
    ensures Pays(ids, s, s', 2 * (mr - 1 - k)) && Parked(ids, s', 0, |ids|) && Queued(s', mr, mr - 1)
    decreases mr - k
  {
    if k == mr - 1 {
      PaysNothing(ids, s);
      s' := s;
    } else {
      var last := |ids| - 1;
      assert !Spare(ids, last);
      var s1 := Claimed(ids, s, last, mr, k);
      var s2 := Requeued(ids, s1, last, mr, k + 1);
      s' := SpendBudget(ids, s2, mr, k + 1);
      PaysThrough(ids, s, s1, s2, 1, 1);
      PaysThrough(ids, s, s2, s', 2, 2 * (mr - 2 - k));
    }
  }

  /** A worker of the same id claims past the budget; parked slot `n` requeues that claim. */
  lemma OverrunOne(ids: seq<string>, s: Sys, n: nat, mr: int, k: int) returns (s': Sys)
    requires Spare(ids, n) && Parked(ids, s, n, |ids|) && Queued(s, mr, k)
    ensures Pays(ids, s, s', 2) && Parked(ids, s', n + 1, |ids|) && Queued(s', mr, k + 1)
  {
    var j := LastOfId(ids, n);
    var s1 := Claimed(ids, s, j, mr, k);
    var s2 := Requeued(ids, s1, n, mr, k + 1);
    StepPays(ids, s2, Abandon(j));
    s' := Next(ids, s2, Abandon(j));
    assert Changed(s2.db, s'.db) == {};
    assert s'.held == s.held[n := None];
    ParkedLess(ids, s, s', n);
    PaysThrough(ids, s, s1, s2, 1, 1);
    PaysThrough(ids, s, s2, s', 2, 0);
  }

  lemma {:induction false} OverrunAll(ids: seq<string>, s: Sys, n: nat, mr: int, k: int, spares: nat)
    returns (s': Sys)
    requires n <= |ids| && Parked(ids, s, n, |ids|) && Queued(s, mr, k) && spares == SparesFrom(ids, n)
    ensures |s'.held| == |ids| && Pays(ids, s, s', 2 * spares)
    ensures Parked(ids, s', |ids|, |ids|) && Queued(s', mr, k + spares)
    decreases |ids| - n
  {
    if n == |ids| {
      PaysNothing(ids, s);
      s' := s;
    } else if Spare(ids, n) {
      var s1 := OverrunOne(ids, s, n, mr, k);
      s' := OverrunAll(ids, s1, n + 1, mr, k + 1, spares - 1);
      PaysThrough(ids, s, s1, s', 2, 2 * (spares - 1));
    } else {
      ParkedSkip(ids, s, n);
      s' := OverrunAll(ids, s, n + 1, mr, k, spares);
    }
  }

  lemma SparesAreExcess(ids: seq<string>)
    ensures SparesFrom(ids, 0) == Excess(ids)
  {
    SparesAre(ids, 0);
    assert ids[0..] == ids;
  }

  /** From a state with all spare workers parked, a closed run uses all attempts but one. */
  lemma UsesSpares(ids: seq<string>, mr: int) returns (start: Sys, s': Sys)
    requires ids != [] && mr >= 2
    ensures |start.held| == |ids| == |s'.held| && Queued(start, mr, 0) && Idle(s', |ids| - 1)
    ensures forall x :: Reaches(ids, start, x) ==> FreshlyReachable(ids, x)
    ensures Queued(s', mr, mr - 1 + SparesFrom(ids, 0)) && Pays(ids, start, s', 2 * (mr - 1 + SparesFrom(ids, 0)))
  {
    assert !Spare(ids, |ids| - 1);
    var s1 := Enqueued(ids, mr);
    start := ParkAll(ids, s1, 0, mr);
    var s3 := SpendBudget(ids, start, mr, 0);
    s' := OverrunAll(ids, s3, 0, mr, mr - 1, SparesFrom(ids, 0));
    PaysThrough(ids, start, s3, s', 2 * (mr - 1), 2 * SparesFrom(ids, 0));
    forall x | Reaches(ids, start, x)
      ensures FreshlyReachable(ids, x)
    {
      ReachesThrough(ids, s1, start, x);
    }
  }

  /** The last slot then takes and ends the last attempt. */
  lemma UsesEveryAttempt(ids: seq<string>, mr: int) returns (start: Sys, most: Sys, end: Sys)
    requires ids != [] && mr >= 2
    ensures |start.held| == |ids| == |most.held| && FreshlyReachable(ids, start) && FreshlyReachable(ids, most)
    ensures Queued(start, mr, 0) && Pays(ids, start, end, 2 * (mr + SparesFrom(ids, 0)))
    ensures RunningBy(most, ids[|ids| - 1], mr, mr + SparesFrom(ids, 0))
  {
    var last, k := |ids| - 1, mr - 1 + SparesFrom(ids, 0);
    var s';
    start, s' := UsesSpares(ids, mr);
    most := Claimed(ids, s', last, mr, k);
    end := Ended(ids, most, last, mr, k + 1);
    PaysNothing(ids, start);
    PaysReaches(ids, start, start, 0);
    PaysThrough(ids, start, s', most, 2 * k, 1);
    PaysReaches(ids, start, most, 2 * k + 1);
    PaysThrough(ids, start, most, end, 2 * k + 1, 1);
  }

  /** For any worker ids and any budget of two or more, the bound on attempts is reached. */
  lemma OverrunReached(ids: seq<string>, mr: int)
    requires ids != [] && mr >= 2
    ensures exists s ::
      FreshlyReachable(ids, s) && 0 in s.db.tasks && s.db.tasks[0].maxRetries == mr
      && s.db.tasks[0].attempts == mr + |ids| - |Elems(ids)|
  {
    var _, most, _ := UsesEveryAttempt(ids, mr);
    SparesAreExcess(ids);
  }

  // ---- A claim ended by another worker ----

  /** Slot `i` loses its first claim to the reaper and `j`, under the same id, claims the task again. */
  lemma Stolen(ids: seq<string>, i: nat, j: nat) returns (s: Sys, s': Sys)
    requires i < j < |ids| && ids[i] == ids[j]
    ensures |s.held| == |ids| == |s'.held| && Reachable(ids, s) && Reachable(ids, s')
    ensures Busy(s, i) && s.held[i].value.task == 0 && s.held[i].value.attempts == 1 && s.held[i].value.maxRetries == 2
    ensures Enabled(ids, s, Reap([0], 1.0, s.now))
    ensures var taken := Next(ids, s, Reap([0], 1.0, s.now));
      Run(ids, taken, [Claim(j, 0, s.now)]) && Final(ids, taken, [Claim(j, 0, s.now)]) == s'
    ensures s'.held[i] == s.held[i] && RunningBy(s', ids[i], 2, 2)
  {
    var s1 := Enqueued(ids, 2);
    var s2 := Claimed(ids, s1, i, 2, 0);
    PaysReaches(ids, s1, s2, 1);
    var taken;
    s, taken := Lost(ids, s2, ids[i], 2, 1);
    ReachesThrough(ids, s1, s2, s);
    ReachesThrough(ids, s1, s2, taken);
    s' := ClaimedState(ids, taken, j, 2, 1);
    StepReaches(ids, taken, Claim(j, 0, taken.now));
    RunBack(ids, taken, [Claim(j, 0, taken.now)]);
    ReachesThrough(ids, s1, taken, s');
    FreshIsReachable(ids, s);
    FreshIsReachable(ids, s');
  }

  // ---- Exactly when it is safe ----

  ghost predicate BudgetAlwaysHolds(ids: seq<string>) {
    forall s :: Reachable(ids, s) ==> Budget(s.db)
  }

  ghost predicate AlwaysFenced(ids: seq<string>) {
    forall s :: Reachable(ids, s) ==> |s.held| == |ids| && Fenced(ids, s)
  }

  /** A recorded failure leaves the row as its current attempts and budget require. */
  ghost predicate DecidedAsCurrent(ids: seq<string>, s: Sys, i: nat, err: string, next: Time, at: Time)
    requires |s.held| == |ids| && i < |ids| && s.held[i].Some? && OwnedBy(s.db, s.held[i].value.task, ids[i])
  {
    var t := s.held[i].value.task;
    var r := s.db.tasks[t];
    OutcomeTx(s.db, s.held[i].value, ids[i], Failed(err, next), at).tasks ==
    s.db.tasks[t := if r.attempts >= r.maxRetries then DeadRow(r, err, at) else RequeueRow(r, err, next, at)]
  }

  ghost predicate AlwaysDecidedAsCurrent(ids: seq<string>) {
    forall s, i: nat, err, next, at ::
      && Reachable(ids, s) && |s.held| == |ids| && i < |ids| && s.held[i].Some?
      && OwnedBy(s.db, s.held[i].value.task, ids[i]) ==>
      DecidedAsCurrent(ids, s, i, err, next, at)
  }

  /** `reap` takes the task that slot `i` executes a claim of. */
  ghost predicate TakesFrom(ids: seq<string>, s: Sys, i: nat, reap: Step) {
    && |s.held| == |ids| && i < |ids| && s.held[i].Some?
    && reap.Reap? && Enabled(ids, s, reap) && s.held[i].value.task in reap.order
  }

  /** If slot `i` still executes that claim after the run, writing its outcome changes no table. */
  ghost predicate OutcomeIgnored(ids: seq<string>, s: Sys, i: nat, reap: Step, later: seq<Step>, outcome: Outcome)
    requires TakesFrom(ids, s, i, reap) && Run(ids, Next(ids, s, reap), later)
  {
    var s' := Final(ids, Next(ids, s, reap), later);
    s'.held[i] == s.held[i] ==> Next(ids, s', Finish(i, outcome, s'.now)).db == s'.db
  }

  ghost predicate LateOutcomesIgnored(ids: seq<string>) {
    forall s, i: nat, reap, later, outcome ::
      Reachable(ids, s) && TakesFrom(ids, s, i, reap) && Run(ids, Next(ids, s, reap), later) ==>
      OutcomeIgnored(ids, s, i, reap, later, outcome)
  }

  /** The attempt budget is safe over all runs exactly when worker ids are pairwise distinct. */
  lemma BudgetIffDistinctIds(ids: seq<string>)
    ensures BudgetAlwaysHolds(ids) <==> Distinct(ids)
  {
    if Distinct(ids) {
      forall s | Reachable(ids, s)
        ensures Budget(s.db)
      {
        ReachableWithinBudget(ids, s);
      }
    } else {
      ExcessIffShared(ids);
      SlackBounds(ids, {});
      OverrunReached(ids, 2);
      var s :|
        && FreshlyReachable(ids, s) && 0 in s.db.tasks
        && s.db.tasks[0].attempts == 2 + Excess(ids) && s.db.tasks[0].maxRetries == 2;
      FreshIsReachable(ids, s);
      assert !WithinBudget(s.db.tasks[0]);
    }
  }

  /** And exactly then a worker only ever owns rows under the claim it executes. */
  lemma FencedIffDistinctIds(ids: seq<string>)
    ensures AlwaysFenced(ids) <==> Distinct(ids)
  {
    if Distinct(ids) {
      forall s | Reachable(ids, s)
        ensures |s.held| == |ids| && Fenced(ids, s)
      {
        ReachableWithinBudget(ids, s);
      }
    } else {
      var i, j :| 0 <= i < j < |ids| && ids[i] == ids[j];
      var _, s := Stolen(ids, i, j);
      assert !Fenced(ids, s);
    }
  }

  /** And exactly then every recorded failure is decided as the current row requires. */
  lemma DecisionsIffDistinctIds(ids: seq<string>)
    ensures AlwaysDecidedAsCurrent(ids) <==> Distinct(ids)
  {
    if Distinct(ids) {
      forall s, i: nat, err, next, at |
        && Reachable(ids, s) && |s.held| == |ids| && i < |ids| && s.held[i].Some?
        && OwnedBy(s.db, s.held[i].value.task, ids[i])
        ensures DecidedAsCurrent(ids, s, i, err, next, at)
      {
        StaleDecisionIsCurrent(ids, s, i, err, next, at);
      }
    } else {
      var i, j :| 0 <= i < j < |ids| && ids[i] == ids[j];
      var _, s := Stolen(ids, i, j);
      var r := s.db.tasks[0];
      assert OutcomeTx(s.db, s.held[i].value, ids[i], Failed("", s.now), s.now).tasks[0].status == Pending;
      assert DeadRow(r, "", s.now).status == Dead;
      assert !DecidedAsCurrent(ids, s, i, "", s.now, s.now);
    }
  }

  /** And exactly then no outcome written for a reaped claim ever changes a table. */
  lemma LateOutcomesIffDistinctIds(ids: seq<string>)
    ensures LateOutcomesIgnored(ids) <==> Distinct(ids)
  {
    if Distinct(ids) {
      forall s, i: nat, reap, later, outcome |
        Reachable(ids, s) && TakesFrom(ids, s, i, reap) && Run(ids, Next(ids, s, reap), later)
        ensures OutcomeIgnored(ids, s, i, reap, later, outcome)
      {
        var s' := Final(ids, Next(ids, s, reap), later);
        if s'.held[i] == s.held[i] {
          ReapedOutcomeIsIgnored(ids, s, i, reap.order, reap.threshold, reap.at, later, outcome, s'.now);
        }
      }
    } else {
      var i, j :| 0 <= i < j < |ids| && ids[i] == ids[j];
      var s, s' := Stolen(ids, i, j);
      assert TakesFrom(ids, s, i, Reap([0], 1.0, s.now));
      assert Next(ids, s', Finish(i, Succeeded, s'.now)).db.tasks[0].status == Completed;
      assert !OutcomeIgnored(ids, s, i, Reap([0], 1.0, s.now), [Claim(j, 0, s.now)], Succeeded);
    }
  }
}
