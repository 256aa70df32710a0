/** Claiming: the order in which tasks are handed out, and why claims never collide. */
module Claims {
  import opened Common
  import opened Tables
  import opened Protocol
  import opened TaskStore

  // ---- Order of uncontended claims ----

  /** `picks` are what repeated claims at one time return, and then none is available. */
  ghost predicate Drains(db: Db, picks: seq<TaskId>, ws: seq<string>, at: Time)
    requires |ws| == |picks|
    decreases |picks|
  {
    if picks == [] then forall t :: !Ready(db, t, at)
    else First(db, picks[0], at, {}) && Drains(ClaimTx(db, picks[0], ws[0], at), picks[1..], ws[1..], at)
  }

  ghost predicate InClaimOrder(db: Db, picks: seq<TaskId>)
    requires forall t <- picks :: t in db.tasks
  {
    forall i, j :: 0 <= i < j < |picks| ==>
      && db.tasks[picks[i]].priority >= db.tasks[picks[j]].priority
      && (db.tasks[picks[i]].priority == db.tasks[picks[j]].priority ==>
            db.tasks[picks[i]].runAt <= db.tasks[picks[j]].runAt)
  }

  /** Every ready task once, by falling priority and then rising run time. */
  ghost predicate SortedReady(db: Db, picks: seq<TaskId>, at: Time) {
    && Distinct(picks)
    && (forall t :: t in picks <==> Ready(db, t, at))
    && InClaimOrder(db, picks)
  }

  /** Repeated claims return exactly the sorted listings of the ready tasks. */
  lemma {:induction false} DrainsIffSorted(db: Db, picks: seq<TaskId>, ws: seq<string>, at: Time)
    requires |ws| == |picks|
    ensures Drains(db, picks, ws, at) <==> SortedReady(db, picks, at)
    decreases |picks|
  {
    if picks != [] {
      var t, rest := picks[0], picks[1..];
      assert picks == [t] + rest;
      if Ready(db, t, at) {
        var db' := ClaimTx(db, t, ws[0], at);
        DrainsIffSorted(db', rest, ws[1..], at);
        ClaimShrinksReady(db, t, ws[0], at);
        if Drains(db, picks, ws, at) {
          SortedExtends(db, picks, ws[0], at);
        }
        if SortedReady(db, picks, at) {
          SortedShrinks(db, picks, ws[0], at);
        }
      } else {
        assert t in picks;
      }
    }
  }

  lemma ClaimShrinksReady(db: Db, t: TaskId, w: string, at: Time)
    requires Ready(db, t, at)
    ensures forall u :: Ready(ClaimTx(db, t, w, at), u, at) <==> Ready(db, u, at) && u != t
    ensures forall u :: u in db.tasks && u != t ==> ClaimTx(db, t, w, at).tasks[u] == db.tasks[u]
  {
  }

  lemma SortedExtends(db: Db, picks: seq<TaskId>, w: string, at: Time)
    requires picks != [] && First(db, picks[0], at, {})
    requires SortedReady(ClaimTx(db, picks[0], w, at), picks[1..], at)
    ensures SortedReady(db, picks, at)
  {
    var t, rest := picks[0], picks[1..];
    ClaimShrinksReady(db, t, w, at);
    assert picks == [t] + rest;
    forall u | u in rest
      ensures u != t && Ready(db, u, at) && db.tasks[u].priority <= db.tasks[t].priority
      ensures db.tasks[u].priority == db.tasks[t].priority ==> db.tasks[t].runAt <= db.tasks[u].runAt
    {
      assert Ready(ClaimTx(db, t, w, at), u, at);
    }
  }

  lemma SortedShrinks(db: Db, picks: seq<TaskId>, w: string, at: Time)
    requires picks != [] && SortedReady(db, picks, at)
    ensures First(db, picks[0], at, {}) && SortedReady(ClaimTx(db, picks[0], w, at), picks[1..], at)
  {
    var t, rest := picks[0], picks[1..];
    assert t in picks;
    ClaimShrinksReady(db, t, w, at);
    assert picks == [t] + rest;
    assert t !in rest;
    forall u | Ready(db, u, at) && u !in {}
      ensures db.tasks[u].priority <= db.tasks[t].priority
      ensures db.tasks[u].priority == db.tasks[t].priority ==> db.tasks[t].runAt <= db.tasks[u].runAt
    {
      assert u in picks;
    }
  }

  // ---- When a task that left RUNNING is handed out again ----

  /** Steps that leave a waiting task waiting: not its cancel, its claim once due, or its retention. */
  predicate LeavesWaiting(step: Step, t: TaskId, due: Time, created: Time) {
    && (step.Retain? ==> step.cutoff <= created)
    && !(step.Cancel? && step.task == t)
    && (step.Claim? && step.task == t ==> step.at < due)
  }

  lemma StepLeavesWaiting(ids: seq<string>, s: Sys, step: Step, t: TaskId)
    requires |s.held| == |ids| && Enabled(ids, s, step) && t in s.db.tasks && s.db.tasks[t].status == Pending
    requires LeavesWaiting(step, t, s.db.tasks[t].runAt, s.db.tasks[t].createdAt)
    ensures t in Next(ids, s, step).db.tasks && Next(ids, s, step).db.tasks[t] == s.db.tasks[t]
  {
    match step
    case Reap(order, _, at) => ReapEachRows(s.db, order, at);
    case _ =>
  }

  /** Until its run time a PENDING task stays exactly as it is: no early claim, late write or reap reaches it. */
  lemma {:induction false} WaitsUntilDue(ids: seq<string>, s: Sys, steps: seq<Step>, t: TaskId)
    requires |s.held| == |ids| && Run(ids, s, steps) && t in s.db.tasks && s.db.tasks[t].status == Pending
    requires forall x <- steps :: LeavesWaiting(x, t, s.db.tasks[t].runAt, s.db.tasks[t].createdAt)
    ensures t in Final(ids, s, steps).db.tasks && Final(ids, s, steps).db.tasks[t] == s.db.tasks[t]
    ensures forall x <- steps :: !(x.Claim? && x.task == t)
    decreases |steps|
  {
    if steps != [] {
      assert steps[0] in steps;
      StepLeavesWaiting(ids, s, steps[0], t);
      WaitsUntilDue(ids, Next(ids, s, steps[0]), steps[1..], t);
    }
  }

  /** The task of a recorded failure: an outcome write that found its row owned and attempts left. */
  ghost predicate RecordsFailure(ids: seq<string>, s: Sys, step: Step, t: TaskId, due: Time)
    requires |s.held| == |ids|
  {
    && step.Finish? && Enabled(ids, s, step) && step.outcome.Failed? && step.outcome.nextRunAt == due
    && s.held[step.slot].value.task == t && OwnedBy(s.db, t, ids[step.slot])
    && s.held[step.slot].value.attempts < s.held[step.slot].value.maxRetries
  }

  /** The steps that put a task into the queue, with the run time they give it. */
  ghost predicate Enqueues(ids: seq<string>, s: Sys, step: Step, t: TaskId, due: Time)
    requires |s.held| == |ids|
  {
    || RecordsFailure(ids, s, step, t, due)
    || (step.Reap? && Enabled(ids, s, step) && t in step.order && step.at == due
        && s.db.tasks[t].attempts < s.db.tasks[t].maxRetries)
    || (step.RetryDead? && Enabled(ids, s, step) && step.task == t && step.at == due
        && t in s.db.tasks && s.db.tasks[t].status == Dead)
    || (step.Insert? && Enabled(ids, s, step) && step.id == t && step.q.runAt == due
        && InsertTx(s.db, step.q, step.hash, t, step.at).1 == Inserted)
  }

  lemma EnqueuedWaits(ids: seq<string>, s: Sys, step: Step, t: TaskId, due: Time)
    requires |s.held| == |ids| && Enqueues(ids, s, step, t, due)
    ensures Enabled(ids, s, step) && t in Next(ids, s, step).db.tasks
    ensures var r := Next(ids, s, step).db.tasks[t]; r.status == Pending && r.runAt == due
  {
    match step
    case Reap(order, _, at) => ReapEachRows(s.db, order, at);
    case _ =>
  }

  /**
   * After an insert, a recorded failure, a reap or a revival, over every run: until a step cancels,
   * expires or, once due, claims the task, no step claims it, its row does not change, and any idle
   * worker can claim it at exactly the times from its run time on.
   */
  lemma EnqueuedIsClaimable(
    ids: seq<string>, s: Sys, step: Step, t: TaskId, due: Time, s1: Sys, steps: seq<Step>, slot: nat, at: Time)
    requires |s.held| == |ids| && Enqueues(ids, s, step, t, due)
    requires Enabled(ids, s, step) && s1 == Next(ids, s, step) && Run(ids, s1, steps)
    requires t in s1.db.tasks && forall x <- steps :: LeavesWaiting(x, t, due, s1.db.tasks[t].createdAt)
    ensures var s2 := Final(ids, s1, steps);
      && t in s2.db.tasks && s2.db.tasks[t] == s1.db.tasks[t]
      && (forall x <- steps :: !(x.Claim? && x.task == t))
      && (Idle(s2, slot) && at <= s2.now ==> (Enabled(ids, s2, Step.Claim(slot, t, at)) <==> due <= at))
  {
    EnqueuedWaits(ids, s, step, t, due);
    WaitsUntilDue(ids, s1, steps, t);
  }

  // ---- Claims as lock-then-commit transactions ----

  /** `open` holds, per worker, the row its claim has locked and when that transaction began. */
  datatype LockSys = LockSys(sys: Sys, open: map<nat, (TaskId, Time)>)

  datatype LockStep = Begin(slot: nat, task: TaskId) | Commit(slot: nat) | Rollback(slot: nat) | Other(step: Step)

  predicate Locked(s: LockSys, t: TaskId) {
    exists slot :: slot in s.open && s.open[slot].0 == t
  }

  /** A transaction that would change a locked row has to wait. */
  ghost predicate LockEnabled(ids: seq<string>, s: LockSys, step: LockStep)
    requires |s.sys.held| == |ids|
  {
    match step
    case Begin(slot, t) =>
      Idle(s.sys, slot) && slot !in s.open && Ready(s.sys.db, t, s.sys.now) && !Locked(s, t)
    case Commit(slot) => slot in s.open
    case Rollback(slot) => slot in s.open
    case Other(x) =>
      && Enabled(ids, s.sys, x) && !x.Claim?
      && forall t :: Locked(s, t) && t in s.sys.db.tasks ==>
           t in Next(ids, s.sys, x).db.tasks && Next(ids, s.sys, x).db.tasks[t] == s.sys.db.tasks[t]
  }

  /** Each open claim can commit, and no two hold the same row. */
  ghost predicate LocksOk(ids: seq<string>, s: LockSys)
    requires |s.sys.held| == |ids|
  {
    && (forall i :: i in s.open ==> Enabled(ids, s.sys, Protocol.Claim(i, s.open[i].0, s.open[i].1)))
    && (forall i, j :: i in s.open && j in s.open && i != j ==> s.open[i].0 != s.open[j].0)
  }

  ghost function LockNext(ids: seq<string>, s: LockSys, step: LockStep): (s': LockSys)
    requires |s.sys.held| == |ids| && LocksOk(ids, s) && LockEnabled(ids, s, step)
    ensures |s'.sys.held| == |ids|
  {
    match step
    case Begin(slot, t) => s.(open := s.open[slot := (t, s.sys.now)])
    case Commit(slot) =>
      LockSys(Next(ids, s.sys, Protocol.Claim(slot, s.open[slot].0, s.open[slot].1)), s.open - {slot})
    case Rollback(slot) => s.(open := s.open - {slot})
    case Other(x) => s.(sys := Next(ids, s.sys, x))
  }

  lemma LockStepKeeps(ids: seq<string>, s: LockSys, step: LockStep)
    requires |s.sys.held| == |ids| && LocksOk(ids, s) && LockEnabled(ids, s, step)
    ensures LocksOk(ids, LockNext(ids, s, step))
  {
    match step
    case Begin(slot, t) => BeginKeeps(ids, s, slot, t);
    case Commit(slot) => CommitKeeps(ids, s, slot);
    case Rollback(_) =>
    case Other(x) => OtherKeeps(ids, s, x);
  }

  lemma BeginKeeps(ids: seq<string>, s: LockSys, slot: nat, t: TaskId)
    requires |s.sys.held| == |ids| && LocksOk(ids, s) && LockEnabled(ids, s, Begin(slot, t))
    ensures LocksOk(ids, LockNext(ids, s, Begin(slot, t)))
  {
    forall i | i in s.open
      ensures s.open[i].0 != t
    {
      assert !Locked(s, t);
    }
  }

  /** Committing one claim leaves the rows of the others alone, because they differ. */
  lemma CommitKeeps(ids: seq<string>, s: LockSys, slot: nat)
    requires |s.sys.held| == |ids| && LocksOk(ids, s) && LockEnabled(ids, s, Commit(slot))
    ensures LocksOk(ids, LockNext(ids, s, Commit(slot)))
  {
  }

  lemma OtherKeeps(ids: seq<string>, s: LockSys, x: Step)
    requires |s.sys.held| == |ids| && LocksOk(ids, s) && LockEnabled(ids, s, Other(x))
    ensures LocksOk(ids, LockNext(ids, s, Other(x)))
  {
    var s' := LockNext(ids, s, Other(x));
    IdleStays(ids, s.sys, x);
    forall i | i in s.open
      ensures Enabled(ids, s'.sys, Protocol.Claim(i, s.open[i].0, s.open[i].1))
    {
      assert Enabled(ids, s.sys, Protocol.Claim(i, s.open[i].0, s.open[i].1));
      assert Locked(s, s.open[i].0);
    }
  }

  lemma IdleStays(ids: seq<string>, s: Sys, x: Step)
    requires |s.held| == |ids| && Enabled(ids, s, x) && !x.Claim?
    ensures s.now <= Next(ids, s, x).now && forall i :: Idle(s, i) ==> Idle(Next(ids, s, x), i)
  {
  }

  ghost predicate LockRun(ids: seq<string>, s: LockSys, steps: seq<LockStep>)
    requires |s.sys.held| == |ids| && LocksOk(ids, s)
    decreases |steps|
  {
    steps == [] ||
    (LockEnabled(ids, s, steps[0]) &&
     (LockStepKeeps(ids, s, steps[0]); LockRun(ids, LockNext(ids, s, steps[0]), steps[1..])))
  }

  ghost function LockFinal(ids: seq<string>, s: LockSys, steps: seq<LockStep>): (s': LockSys)
    requires |s.sys.held| == |ids| && LocksOk(ids, s) && LockRun(ids, s, steps)
    ensures |s'.sys.held| == |ids| && LocksOk(ids, s')
    decreases |steps|
  {
    if steps == [] then s
    else
      LockStepKeeps(ids, s, steps[0]);
      LockFinal(ids, LockNext(ids, s, steps[0]), steps[1..])
  }

  /**
   * Split claims refine atomic ones: for every run with open claim transactions there is a run of
   * atomic steps with the same committed state, so begun and rolled-back claims leave no trace.
   */
  lemma {:induction false} LocksRefine(ids: seq<string>, s: LockSys, steps: seq<LockStep>) returns (atomic: seq<Step>)
    requires |s.sys.held| == |ids| && LocksOk(ids, s) && LockRun(ids, s, steps)
    ensures Run(ids, s.sys, atomic) && Final(ids, s.sys, atomic) == LockFinal(ids, s, steps).sys
    decreases |steps|
  {
    if steps == [] {
      return [];
    }
    LockStepKeeps(ids, s, steps[0]);
    var rest := LocksRefine(ids, LockNext(ids, s, steps[0]), steps[1..]);
    match steps[0]
    case Begin(_, _) => atomic := rest;
    case Rollback(_) => atomic := rest;
    case Commit(slot) =>
      atomic := [Protocol.Claim(slot, s.open[slot].0, s.open[slot].1)] + rest;
      RunBack(ids, s.sys, atomic);
    case Other(x) =>
      atomic := [x] + rest;
      RunBack(ids, s.sys, atomic);
  }

  /** Whatever holds in every state of the atomic machine holds while claims are split. */
  lemma LocksReachable(ids: seq<string>, steps: seq<LockStep>)
    requires LockRun(ids, LockSys(Start(|ids|), map[]), steps)
    ensures Reachable(ids, LockFinal(ids, LockSys(Start(|ids|), map[]), steps).sys)
  {
    var atomic := LocksRefine(ids, LockSys(Start(|ids|), map[]), steps);
  }

  // ---- Exclusive execution ----

  predicate Held(s: LockSys, t: TaskId) {
    t in s.sys.db.tasks && s.sys.db.tasks[t].status != Pending
  }

  /** Some step of the run returns `t` to PENDING or removes it. */
  ghost predicate LetsGo(ids: seq<string>, s: LockSys, steps: seq<LockStep>, t: TaskId)
    requires |s.sys.held| == |ids| && LocksOk(ids, s) && LockRun(ids, s, steps)
    decreases |steps|
  {
    && steps != []
    && (LockStepKeeps(ids, s, steps[0]);
        var s' := LockNext(ids, s, steps[0]);
        (Held(s, t) && !Held(s', t)) || LetsGo(ids, s', steps[1..], t))
  }

  lemma {:induction false} HeldUntilLetGo(ids: seq<string>, s: LockSys, steps: seq<LockStep>, t: TaskId)
    requires |s.sys.held| == |ids| && LocksOk(ids, s) && LockRun(ids, s, steps) && Held(s, t)
    ensures Held(LockFinal(ids, s, steps), t) || LetsGo(ids, s, steps, t)
    decreases |steps|
  {
    if steps != [] {
      LockStepKeeps(ids, s, steps[0]);
      var s' := LockNext(ids, s, steps[0]);
      if Held(s', t) {
        HeldUntilLetGo(ids, s', steps[1..], t);
      }
    }
  }

  /**
   * Between two commits of claims of one task, in any run, some step returned the task to PENDING
   * or removed it; a commit never overtakes an execution in progress.
   */
  lemma ClaimsAreExclusive(
    ids: seq<string>, s: LockSys, first: nat, between: seq<LockStep>, second: nat)
    requires |s.sys.held| == |ids| && LocksOk(ids, s) && first in s.open
    requires LocksOk(ids, LockNext(ids, s, Commit(first))) && LockRun(ids, LockNext(ids, s, Commit(first)), between)
    requires var s2 := LockFinal(ids, LockNext(ids, s, Commit(first)), between);
      second in s2.open && s2.open[second].0 == s.open[first].0
    ensures LetsGo(ids, LockNext(ids, s, Commit(first)), between, s.open[first].0)
  {
    var t := s.open[first].0;
    var s1 := LockNext(ids, s, Commit(first));
    assert Enabled(ids, s.sys, Protocol.Claim(first, t, s.open[first].1));
    assert Held(s1, t);
    HeldUntilLetGo(ids, s1, between, t);
    var s2 := LockFinal(ids, s1, between);
    assert Enabled(ids, s2.sys, Protocol.Claim(second, t, s2.open[second].1));
  }
}
