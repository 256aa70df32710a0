/** What a recorded outcome, a cancel or an insert leaves behind, now and over every later run. */
module Endings {
  import opened Common
  import opened Json
  import opened Tables
  import opened StoreInvariants
  import opened Effects
  import opened Protocol
  import opened Idempotency

  // ---- Outcomes ----

  /** What recording an outcome does to the tables of a worker that still owns the task. */
  ghost predicate Records(db: Db, snap: Snapshot, outcome: Outcome, at: Time, db': Db) {
    match outcome
    case Succeeded => Completes(db, snap.task, at, db')
    case NoHandler(err) => Dies(db, snap.task, err, at, ZERO.(failures := 1, dead := 1), db')
    case Failed(err, nextRunAt) =>
      if snap.attempts < snap.maxRetries
      then Requeues(db, snap.task, err, nextRunAt, at, ZERO.(failures := 1, retried := 1), db')
      else Dies(db, snap.task, err, at, ZERO.(failures := 1, dead := 1), db')
  }

  /** Success completes, a missing handler kills, a failure does either; without ownership nothing happens. */
  lemma OutcomeIs(db: Db, snap: Snapshot, w: string, outcome: Outcome, at: Time, db': Db)
    ensures db' == OutcomeTx(db, snap, w, outcome, at) <==>
      if OwnedBy(db, snap.task, w) then Records(db, snap, outcome, at, db') else db' == db
  {
    match outcome
    case Succeeded => CompleteIs(db, snap.task, w, at, db');
    case NoHandler(err) => DeadIs(db, snap.task, w, err, at, db');
    case Failed(err, nextRunAt) =>
      PendingIs(db, snap.task, w, err, nextRunAt, at, db');
      DeadIs(db, snap.task, w, err, at, db');
  }

  /**
   * A success recorded by an owner is final: until retention takes the row it stays COMPLETED with
   * that completion time, its attempts and what was asked for, and has no dead letter.
   */
  lemma SuccessLasts(ids: seq<string>, s: Sys, slot: nat, at: Time, s1: Sys, later: seq<Step>)
    requires Reachable(ids, s) && |s.held| == |ids| && Enabled(ids, s, Finish(slot, Succeeded, at))
    requires OwnedBy(s.db, s.held[slot].value.task, ids[slot]) && s1 == Next(ids, s, Finish(slot, Succeeded, at))
    requires Run(ids, s1, later) && Survives(ids, s1, later, s.held[slot].value.task)
    ensures var t, db := s.held[slot].value.task, Final(ids, s1, later).db;
      && t in db.tasks && SameIdentity(db.tasks[t], s.db.tasks[t]) && SameAttempts(db.tasks[t], s.db.tasks[t])
      && db.tasks[t].status == Completed && db.tasks[t].completedAt == Some(at)
      && ForTask(db.letters, t) == []
  {
    var t := s.held[slot].value.task;
    OutcomeIs(s.db, s.held[slot].value, ids[slot], Succeeded, at, s1.db);
    RunKeepsRow(ids, s1, later, t);
    ReachableOk(ids, s);
    StepKeeps(ids, s, Finish(slot, Succeeded, at));
    RunKeeps(ids, s1, later);
    assert TaskOk(Final(ids, s1, later).db, t);
  }

  /** Steps that can touch a DEAD row: its manual retry, and retention that takes it. */
  predicate LeavesDead(step: Step, t: TaskId, created: Time) {
    !(step.RetryDead? && step.task == t) && (step.Retain? ==> step.cutoff <= created)
  }

  lemma StepLeavesDead(ids: seq<string>, s: Sys, step: Step, t: TaskId)
    requires |s.held| == |ids| && Enabled(ids, s, step) && t in s.db.tasks && s.db.tasks[t].status == Dead
    requires LeavesDead(step, t, s.db.tasks[t].createdAt)
    ensures t in Next(ids, s, step).db.tasks && Next(ids, s, step).db.tasks[t] == s.db.tasks[t]
  {
    match step
    case Reap(order, _, at) => ReapEachRows(s.db, order, at);
    case _ =>
  }

  lemma {:induction false} RunLeavesDead(ids: seq<string>, s: Sys, steps: seq<Step>, t: TaskId)
    requires |s.held| == |ids| && Run(ids, s, steps) && t in s.db.tasks && s.db.tasks[t].status == Dead
    requires forall x <- steps :: LeavesDead(x, t, s.db.tasks[t].createdAt)
    ensures t in Final(ids, s, steps).db.tasks && Final(ids, s, steps).db.tasks[t] == s.db.tasks[t]
    decreases |steps|
  {
    if steps != [] {
      assert steps[0] in steps;
      StepLeavesDead(ids, s, steps[0], t);
      RunLeavesDead(ids, Next(ids, s, steps[0]), steps[1..], t);
    }
  }

  /**
   * A task whose handler is missing is dead at once, whatever attempts it has left, and stays so,
   * with that error in its row and in its one dead letter, until it is retried by hand or expires.
   */
  lemma MissingHandlerKills(ids: seq<string>, s: Sys, slot: nat, err: string, at: Time, s1: Sys, later: seq<Step>)
    requires Reachable(ids, s) && |s.held| == |ids| && Enabled(ids, s, Finish(slot, NoHandler(err), at))
    requires OwnedBy(s.db, s.held[slot].value.task, ids[slot]) && s1 == Next(ids, s, Finish(slot, NoHandler(err), at))
    requires Run(ids, s1, later)
    requires forall x <- later :: LeavesDead(x, s.held[slot].value.task, s.db.tasks[s.held[slot].value.task].createdAt)
    ensures var t, db := s.held[slot].value.task, Final(ids, s1, later).db;
      && t in db.tasks && SameIdentity(db.tasks[t], s.db.tasks[t]) && SameAttempts(db.tasks[t], s.db.tasks[t])
      && db.tasks[t].status == Dead && db.tasks[t].lastError == Some(err) && ForTask(db.letters, t) == [err]
  {
    var t := s.held[slot].value.task;
    OutcomeIs(s.db, s.held[slot].value, ids[slot], NoHandler(err), at, s1.db);
    RunLeavesDead(ids, s1, later, t);
    ReachableOk(ids, s);
    StepKeeps(ids, s, Finish(slot, NoHandler(err), at));
    RunKeeps(ids, s1, later);
    assert TaskOk(Final(ids, s1, later).db, t);
  }

  // ---- Cancels ----

  lemma {:induction false} SettledIsNotClaimed(ids: seq<string>, s: Sys, steps: seq<Step>, t: TaskId)
    requires |s.held| == |ids| && Run(ids, s, steps) && Survives(ids, s, steps, t) && Settled(s.db.tasks[t])
    ensures forall x <- steps :: !(x.Claim? && x.task == t)
    decreases |steps|
  {
    if steps != [] {
      StepFreezes(ids, s, steps[0], t);
      SettledIsNotClaimed(ids, Next(ids, s, steps[0]), steps[1..], t);
    }
  }

  /** A canceled task stays CANCELED, and no step claims it, until retention takes it. */
  lemma CancelLasts(ids: seq<string>, s: Sys, t: TaskId, at: Time, s1: Sys, later: seq<Step>)
    requires |s.held| == |ids| && Enabled(ids, s, Step.Cancel(t, at)) && s1 == Next(ids, s, Step.Cancel(t, at))
    requires t in s.db.tasks && s.db.tasks[t].status == Pending
    requires Run(ids, s1, later) && Survives(ids, s1, later, t)
    ensures Cancels(s.db, t, at, s1.db)
    ensures var db := Final(ids, s1, later).db;
      && t in db.tasks && db.tasks[t] == s1.db.tasks[t] && db.tasks[t].status == Canceled
      && forall x <- later :: !(x.Claim? && x.task == t)
  {
    CancelIs(s.db, t, at, s1.db);
    RunKeepsRow(ids, s1, later, t);
    SettledIsNotClaimed(ids, s1, later, t);
  }

  // ---- Inserts ----

  /**
   * Once an insert of a (type, key) was answered with a new task, every later insert of that pair,
   * until retention takes that task, changes no table and answers with that task if the payload
   * decodes to the same value, and with a conflict otherwise.
   */
  lemma InsertThenReplay(
    ids: seq<string>, before: seq<Step>, s: Sys, q: Request, id: TaskId, at: Time, s1: Sys, after: seq<Step>,
    q': Request, id': TaskId, at': Time, hash: Value -> string, sha256: string -> string)
    requires DigestOfCanonical(hash, sha256) && Injective(sha256)
    requires Run(ids, Start(|ids|), before) && s == Final(ids, Start(|ids|), before)
    requires Enabled(ids, s, Insert(q, hash(q.payload), id, at))
    requires s1 == Next(ids, s, Insert(q, hash(q.payload), id, at))
    requires InsertTx(s.db, q, hash(q.payload), id, at).1 == Inserted
    requires Run(ids, s1, after) && Survives(ids, s1, after, id) && forall x <- before + after :: Hashed(x, hash)
    requires q.key.Some? && q'.kind == q.kind && q'.key == q.key
    ensures var db := Final(ids, s1, after).db;
      InsertTx(db, q', hash(q'.payload), id', at') == (db, if q'.payload == q.payload then Replayed(id) else Conflict)
  {
    var insert := Insert(q, hash(q.payload), id, at);
    var first := before + [insert];
    RunBack(ids, s, [insert]);
    RunAppend(ids, Start(|ids|), before, [insert]);
    InsertIs(s.db, q, hash(q.payload), id, at, s1.db);
    assert HoldsKey(s1.db, id, q.kind, q.key.value);
    RunKeepsRow(ids, s1, after, id);
    forall x | x in first + after
      ensures Hashed(x, hash)
    {
      assert x in before + after || x == insert;
    }
    InsertIsIdempotent(ids, first, after, id, q', id', at', hash, sha256);
  }
}
