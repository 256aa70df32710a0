/**
 * Any number of workers, reapers and clients driving one store. A worker is a slot that either
 * is idle or holds the in-memory snapshot of the claim it is executing; its writes carry that
 * snapshot and its configured id, never the current row.
 */
module Protocol {
  import opened Common
  import opened Tables
  import opened StoreInvariants

  /** What `Claim` returned to the worker, plus the serial number of that claim. */
  datatype Snapshot = Snapshot(task: TaskId, attempts: int, maxRetries: int, claimNo: nat)

  /**
   * `claims` counts committed claims and `lease[t]` is the serial number of the latest claim of
   * `t`; both only record history, no step reads them to decide anything.
   */
  datatype Sys = Sys(
    db: Db, now: Time, held: seq<Option<Snapshot>>, claims: nat, lease: map<TaskId, nat>)

  datatype Outcome = Succeeded | Failed(err: string, nextRunAt: Time) | NoHandler(err: string)

  datatype Step =
    | Tick(to: Time)
    | Insert(q: Request, hash: string, id: TaskId, at: Time)
    | Claim(slot: nat, task: TaskId, at: Time)
    | Beat(slot: nat, task: TaskId, at: Time)
    | Finish(slot: nat, outcome: Outcome, at: Time)
    | Abandon(slot: nat)  // crash, or an outcome write that failed
    | Reap(order: seq<TaskId>, threshold: Time, at: Time)
    | Cancel(task: TaskId, at: Time)
    | RetryDead(task: TaskId, at: Time)
    | Retain(cutoff: Time)

  function Start(workers: nat): Sys {
    Sys(EMPTY, 0.0, seq(workers, _ => None), 0, map[])
  }

  predicate Idle(s: Sys, slot: nat) {
    slot < |s.held| && s.held[slot].None?
  }

  predicate Busy(s: Sys, slot: nat) {
    slot < |s.held| && s.held[slot].Some?
  }

  /** A transaction's `now()` is its start, so it may lag the clock but never lead it. */
  ghost predicate Enabled(ids: seq<string>, s: Sys, step: Step)
    requires |s.held| == |ids|
  {
    match step
    case Tick(to) => s.now <= to
    case Insert(_, _, id, at) => id !in s.db.tasks && at <= s.now
    case Claim(slot, t, at) => Idle(s, slot) && Ready(s.db, t, at) && at <= s.now
    case Beat(slot, _, at) => slot < |ids| && at <= s.now
    case Finish(slot, _, at) => Busy(s, slot) && at <= s.now
    case Abandon(slot) => Busy(s, slot)
    case Reap(order, threshold, at) =>
      && at <= s.now && Distinct(order)
      && forall t <- order :: t in s.db.tasks && Stale(s.db.tasks[t], threshold, at)
    case Cancel(_, at) => at <= s.now
    case RetryDead(_, at) => at <= s.now
    case Retain(_) => true
  }

  /** `execute` and `handleFailure`: retry or die is decided from the snapshot alone. */
  function OutcomeTx(db: Db, snap: Snapshot, w: string, outcome: Outcome, at: Time): Db {
    match outcome
    case Succeeded => CompleteTx(db, snap.task, w, at)
    case NoHandler(err) => DeadTx(db, snap.task, w, err, at)
    case Failed(err, nextRunAt) =>
      if snap.attempts >= snap.maxRetries then DeadTx(db, snap.task, w, err, at)
      else PendingTx(db, snap.task, w, err, nextRunAt, at)
  }

  ghost function Next(ids: seq<string>, s: Sys, step: Step): (s': Sys)
    requires |s.held| == |ids| && Enabled(ids, s, step)
    ensures |s'.held| == |s.held|
  {
    match step
    case Tick(to) => s.(now := to)
    case Insert(q, hash, id, at) => s.(db := InsertTx(s.db, q, hash, id, at).0)
    case Claim(slot, t, at) =>
      var r := s.db.tasks[t];
      s.(db := ClaimTx(s.db, t, ids[slot], at),
         held := s.held[slot := Some(Snapshot(t, r.attempts + 1, r.maxRetries, s.claims))],
         claims := s.claims + 1,
         lease := s.lease[t := s.claims])
    case Beat(slot, t, at) => s.(db := HeartbeatTx(s.db, t, ids[slot], at))
    case Finish(slot, outcome, at) =>
      s.(db := OutcomeTx(s.db, s.held[slot].value, ids[slot], outcome, at), held := s.held[slot := None])
    case Abandon(slot) => s.(held := s.held[slot := None])
    case Reap(order, _, at) => s.(db := ReapEach(s.db, order, at))
    case Cancel(t, at) => s.(db := CancelTx(s.db, t, at))
    case RetryDead(t, at) => s.(db := RetryDeadTx(s.db, t, at))
    case Retain(cutoff) => s.(db := RetainTx(s.db, cutoff))
  }

  /** A finite run: every step enabled where it happens. */
  ghost predicate Run(ids: seq<string>, s: Sys, steps: seq<Step>)
    requires |s.held| == |ids|
    decreases |steps|
  {
    steps == [] || (Enabled(ids, s, steps[0]) && Run(ids, Next(ids, s, steps[0]), steps[1..]))
  }

  ghost function Final(ids: seq<string>, s: Sys, steps: seq<Step>): (s': Sys)
    requires |s.held| == |ids| && Run(ids, s, steps)
    ensures |s'.held| == |ids|
    decreases |steps|
  {
    if steps == [] then s else Final(ids, Next(ids, s, steps[0]), steps[1..])
  }

  ghost predicate Reachable(ids: seq<string>, s: Sys) {
    exists steps :: Run(ids, Start(|ids|), steps) && Final(ids, Start(|ids|), steps) == s
  }

  lemma RunBack(ids: seq<string>, s: Sys, steps: seq<Step>)
    requires |s.held| == |ids| && steps != [] && Enabled(ids, s, steps[0])
    requires Run(ids, Next(ids, s, steps[0]), steps[1..])
    ensures Run(ids, s, steps) && Final(ids, s, steps) == Final(ids, Next(ids, s, steps[0]), steps[1..])
  {
  }

  /** Runs compose. */
  lemma {:induction false} RunAppend(ids: seq<string>, s: Sys, a: seq<Step>, b: seq<Step>)
    requires |s.held| == |ids| && Run(ids, s, a) && Run(ids, Final(ids, s, a), b)
    ensures Run(ids, s, a + b) && Final(ids, s, a + b) == Final(ids, Final(ids, s, a), b)
    decreases |a|
  {
    if a == [] {
      assert a + b == b;
    } else {
      RunAppend(ids, Next(ids, s, a[0]), a[1..], b);
      assert (a + b)[1..] == a[1..] + b;
    }
  }

  // ---- Status changes ----

  /** The rows whose status differs between two states of the table. */
  ghost function Changed(db: Db, db': Db): set<TaskId> {
    set t | t in db.tasks && t in db'.tasks && db.tasks[t].status != db'.tasks[t].status
  }

  /** Status changes along a run. */
  ghost function Changes(ids: seq<string>, s: Sys, steps: seq<Step>): nat
    requires |s.held| == |ids| && Run(ids, s, steps)
    decreases |steps|
  {
    if steps == [] then 0
    else
      var s' := Next(ids, s, steps[0]);
      |Changed(s.db, s'.db)| + Changes(ids, s', steps[1..])
  }

  lemma {:induction false} ChangesAppend(ids: seq<string>, s: Sys, a: seq<Step>, b: seq<Step>)
    requires |s.held| == |ids| && Run(ids, s, a) && Run(ids, Final(ids, s, a), b) && Run(ids, s, a + b)
    ensures Changes(ids, s, a + b) == Changes(ids, s, a) + Changes(ids, Final(ids, s, a), b)
    decreases |a|
  {
    if a == [] {
      assert a + b == b;
    } else {
      assert (a + b)[0] == a[0] && (a + b)[1..] == a[1..] + b;
      ChangesAppend(ids, Next(ids, s, a[0]), a[1..], b);
    }
  }

  /** Steps of a queue that gets no new inserts and no manual retries. */
  predicate Closed(step: Step) {
    !step.Insert? && !step.RetryDead?
  }

  // ---- Invariants that hold for any worker ids ----

  ghost function RunningSet(db: Db): set<TaskId> {
    set t | t in db.tasks && db.tasks[t].status == Running
  }

  /**
   * Conservation: each committed claim is a row still RUNNING or was ended by exactly one counted
   * completion, retry, death or reap.
   */
  ghost predicate Conserved(s: Sys) {
    var c := s.db.counters;
    && s.claims == c.completed + c.retried + c.dead + c.reaped + |RunningSet(s.db)|
    && c.failures == c.retried + c.dead
  }

  ghost predicate LeasesOk(s: Sys) {
    && (forall t :: t in RunningSet(s.db) ==> t in s.lease && s.lease[t] < s.claims)
    && (forall i :: 0 <= i < |s.held| && s.held[i].Some? ==> s.held[i].value.claimNo < s.claims)
  }

  ghost predicate SysOk(s: Sys) {
    DbOk(s.db) && LeasesOk(s) && Conserved(s)
  }

  lemma StartOk(workers: nat)
    ensures SysOk(Start(workers))
  {
    assert RunningSet(EMPTY) == {};
  }

  /** What a reap leaves: exactly the listed rows moved, each by the one-row rule. */
  lemma {:induction false} ReapEachRows(db: Db, order: seq<TaskId>, at: Time)
    requires Distinct(order) && forall t <- order :: t in db.tasks
    ensures forall t :: t in db.tasks ==>
      ReapEach(db, order, at).tasks[t] == if t in order then ReapRow(db.tasks[t], at) else db.tasks[t]
    ensures ReapEach(db, order, at).counters == db.counters.(reaped := db.counters.reaped + |order|)
    decreases |order|
  {
    if order != [] {
      var init, t := order[..|order| - 1], order[|order| - 1];
      ReapEachRows(db, init, at);
      assert order == init + [t];
      assert t !in init;
    }
  }

  /** Reaping is a sequence of one-row moves out of RUNNING. */
  lemma {:induction false} ReapEachKeeps(db: Db, order: seq<TaskId>, at: Time)
    requires DbOk(db) && Distinct(order)
    requires forall t <- order :: t in db.tasks && db.tasks[t].status == Running
    ensures DbOk(ReapEach(db, order, at))
    decreases |order|
  {
    if order != [] {
      var init, t := order[..|order| - 1], order[|order| - 1];
      ReapEachKeeps(db, init, at);
      ReapEachRows(db, init, at);
      assert t !in init;
      ReapOneKeeps(ReapEach(db, init, at), t, at);
    }
  }

  lemma ReapEachRunning(db: Db, order: seq<TaskId>, at: Time)
    requires Distinct(order)
    requires forall t <- order :: t in db.tasks && db.tasks[t].status == Running
    ensures RunningSet(ReapEach(db, order, at)) <= RunningSet(db)
    ensures |RunningSet(ReapEach(db, order, at))| + |order| == |RunningSet(db)|
  {
    ReapEachRows(db, order, at);
    DistinctSize(order);
    assert RunningSet(ReapEach(db, order, at)) == RunningSet(db) - Elems(order);
  }

  lemma StepKeepsDb(ids: seq<string>, s: Sys, step: Step)
    requires |s.held| == |ids| && Enabled(ids, s, step) && DbOk(s.db)
    ensures DbOk(Next(ids, s, step).db)
  {
    match step
    case Insert(q, hash, id, at) => InsertKeeps(s.db, q, hash, id, at);
    case Claim(slot, t, at) => ClaimKeeps(s.db, t, ids[slot], at);
    case Beat(slot, t, at) => HeartbeatKeeps(s.db, t, ids[slot], at);
    case Finish(slot, outcome, at) =>
      var snap := s.held[slot].value;
      match outcome {
        case Succeeded => CompleteKeeps(s.db, snap.task, ids[slot], at);
        case NoHandler(err) => DeadKeeps(s.db, snap.task, ids[slot], err, at);
        case Failed(err, next) =>
          DeadKeeps(s.db, snap.task, ids[slot], err, at);
          PendingKeeps(s.db, snap.task, ids[slot], err, next, at);
      }
    case Reap(order, _, at) => ReapEachKeeps(s.db, order, at);
    case Cancel(t, at) => CancelKeeps(s.db, t, at);
    case RetryDead(t, at) => RetryDeadKeeps(s.db, t, at);
    case Retain(cutoff) => RetainKeeps(s.db, cutoff);
    case _ =>
  }

  /** An outcome ends the lease of the row it owns and touches no other. */
  lemma OutcomeConserves(db: Db, snap: Snapshot, w: string, outcome: Outcome, at: Time)
    ensures var db' := OutcomeTx(db, snap, w, outcome, at);
      var c, c' := db.counters, db'.counters;
      && RunningSet(db') == (if OwnedBy(db, snap.task, w) then RunningSet(db) - {snap.task} else RunningSet(db))
      && c.completed + c.retried + c.dead + c.reaped + |RunningSet(db)|
        == c'.completed + c'.retried + c'.dead + c'.reaped + |RunningSet(db')|
      && c'.failures - c'.retried - c'.dead == c.failures - c.retried - c.dead
  {
    var db' := OutcomeTx(db, snap, w, outcome, at);
    assert RunningSet(db') == if OwnedBy(db, snap.task, w) then RunningSet(db) - {snap.task} else RunningSet(db);
  }

  /** No client transaction starts or ends a lease. */
  lemma ClientsKeepRunning(db: Db, t: TaskId, w: string, at: Time, cutoff: Time)
    ensures RunningSet(HeartbeatTx(db, t, w, at)) == RunningSet(db)
    ensures RunningSet(CancelTx(db, t, at)) == RunningSet(db)
    ensures RunningSet(RetryDeadTx(db, t, at)) == RunningSet(db)
    ensures RunningSet(RetainTx(db, cutoff)) == RunningSet(db)
  {
  }

  lemma InsertKeepsRunning(db: Db, q: Request, hash: string, id: TaskId, at: Time)
    requires id !in db.tasks
    ensures RunningSet(InsertTx(db, q, hash, id, at).0) == RunningSet(db)
  {
  }

  lemma StepConserves(ids: seq<string>, s: Sys, step: Step)
    requires |s.held| == |ids| && Enabled(ids, s, step) && Conserved(s)
    ensures Conserved(Next(ids, s, step))
  {
    var s' := Next(ids, s, step);
    match step
    case Claim(_, t, _) => assert RunningSet(s'.db) == RunningSet(s.db) + {t};
    case Finish(slot, outcome, at) => OutcomeConserves(s.db, s.held[slot].value, ids[slot], outcome, at);
    case Reap(order, _, at) =>
      ReapEachRows(s.db, order, at);
      ReapEachRunning(s.db, order, at);
    case Tick(_) =>
    case Abandon(_) =>
    case Insert(q, hash, id, at) => InsertKeepsRunning(s.db, q, hash, id, at);
    case Beat(slot, t, at) => ClientsKeepRunning(s.db, t, ids[slot], at, 0.0);
    case Cancel(t, at) => ClientsKeepRunning(s.db, t, "", at, 0.0);
    case RetryDead(t, at) => ClientsKeepRunning(s.db, t, "", at, 0.0);
    case Retain(cutoff) => ClientsKeepRunning(s.db, 0, "", 0.0, cutoff);
  }

  lemma StepKeepsLeases(ids: seq<string>, s: Sys, step: Step)
    requires |s.held| == |ids| && Enabled(ids, s, step) && LeasesOk(s)
    ensures LeasesOk(Next(ids, s, step))
  {
    match step
    case Reap(order, _, at) => ReapEachRunning(s.db, order, at);
    case _ =>
  }

  lemma StepKeeps(ids: seq<string>, s: Sys, step: Step)
    requires |s.held| == |ids| && Enabled(ids, s, step) && SysOk(s)
    ensures SysOk(Next(ids, s, step))
  {
    StepKeepsDb(ids, s, step);
    StepKeepsLeases(ids, s, step);
    StepConserves(ids, s, step);
  }

  lemma {:induction false} RunKeeps(ids: seq<string>, s: Sys, steps: seq<Step>)
    requires |s.held| == |ids| && Run(ids, s, steps) && SysOk(s)
    ensures SysOk(Final(ids, s, steps))
    decreases |steps|
  {
    if steps != [] {
      StepKeeps(ids, s, steps[0]);
      RunKeeps(ids, Next(ids, s, steps[0]), steps[1..]);
    }
  }

  lemma ReachableOk(ids: seq<string>, s: Sys)
    requires Reachable(ids, s)
    ensures |s.held| == |ids| && SysOk(s)
  {
    var steps :| Run(ids, Start(|ids|), steps) && Final(ids, Start(|ids|), steps) == s;
    StartOk(|ids|);
    RunKeeps(ids, Start(|ids|), steps);
  }

  /**
   * Conservation in every reachable state: claims are exactly the completions, retries, deaths and
   * reaps counted so far plus the rows now RUNNING, and failed attempts are the retries and deaths.
   */
  lemma ReachableConserved(ids: seq<string>, s: Sys)
    requires Reachable(ids, s)
    ensures var c := s.db.counters;
      && s.claims == c.completed + c.retried + c.dead + c.reaped + |RunningSet(s.db)|
      && c.failures == c.retried + c.dead
  {
    ReachableOk(ids, s);
  }

  /** Column shapes in every reachable state. */
  lemma ReachableRow(ids: seq<string>, s: Sys, t: TaskId)
    requires Reachable(ids, s) && t in s.db.tasks
    ensures var r := s.db.tasks[t];
      && (r.lockedBy.Some? <==> r.status == Running) && (r.lockedAt.Some? <==> r.status == Running)
      && (r.completedAt.Some? <==> r.status == Completed)
      && (r.startedAt.Some? <==> r.attempts > 0)
      && (r.status == Pending ==> (r.lastError.Some? <==> r.attempts > 0))
      && (r.status == Running ==> r.lockedAt == Some(r.updatedAt))
  {
    ReachableOk(ids, s);
    assert TaskOk(s.db, t);
  }
}
