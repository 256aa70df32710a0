/**
 * What every committed transaction keeps true of the three tables, whoever issues it:
 * column shapes, the audit log as a replayable history, one dead letter per DEAD task,
 * referential integrity and the scoped idempotency key.
 */
module StoreInvariants {
  import opened Common
  import opened Tables

  // ---- Audit-log replay ----

  /** The legal edges of the task state machine, each with the attempt count it leaves. */
  function Edge(from: Status, attempts: int, to: Status): Option<int> {
    match (from, to)
    case (Pending, Running) => Some(attempts + 1)
    case (Pending, Canceled) => Some(attempts)
    case (Running, Completed) => Some(attempts)
    case (Running, Pending) => Some(attempts)
    case (Running, Dead) => Some(attempts)
    case (Dead, Pending) => Some(0)
    case _ => None
  }

  /** Fold a task's logged statuses from a fresh PENDING row; `None` once an illegal edge occurs. */
  function Replay(log: seq<Status>): Option<(Status, int)> {
    if log == [] then Some((Pending, 0))
    else
      var before := Replay(log[..|log| - 1]);
      if before.None? then None
      else
        var to := log[|log| - 1];
        var attempts := Edge(before.value.0, before.value.1, to);
        if attempts.None? then None else Some((to, attempts.value))
  }

  lemma ReplayAppend(log: seq<Status>, to: Status)
    requires Replay(log).Some?
    ensures Replay(log + [to]) ==
            var attempts := Edge(Replay(log).value.0, Replay(log).value.1, to);
            if attempts.None? then None else Some((to, attempts.value))
  {
    assert (log + [to])[..|log|] == log;
  }

  // ---- The invariant ----

  /** Column shapes of one row. */
  predicate RowOk(r: Row) {
    && r.attempts >= 0
    && (r.status == Running <==> r.lockedBy.Some?)
    && (r.status == Running <==> r.lockedAt.Some?)
    && (r.status == Completed <==> r.completedAt.Some?)
    && (r.startedAt.Some? <==> r.attempts > 0)
    && (r.status == Pending || r.status == Canceled ==> (r.lastError.Some? <==> r.attempts > 0))
    && (r.status in {Running, Completed, Dead} ==> r.attempts > 0)
    && (r.status == Dead ==> r.lastError.Some?)
    && (r.status == Running ==> r.lockedAt == Some(r.updatedAt))
    && (r.status == Completed ==> r.completedAt == Some(r.updatedAt))
  }

  /** A DEAD task has exactly one dead letter, carrying its last error; any other task has none. */
  predicate LettersOk(r: Row, letters: seq<string>) {
    letters == if r.status == Dead && r.lastError.Some? then [r.lastError.value] else []
  }

  ghost predicate TaskOk(db: Db, t: TaskId)
    requires t in db.tasks
  {
    var r := db.tasks[t];
    && RowOk(r)
    && Replay(ForTask(db.logs, t)) == Some((r.status, r.attempts))
    && LettersOk(r, ForTask(db.letters, t))
  }

  ghost predicate NoOrphans(db: Db) {
    forall t :: t !in db.tasks ==> ForTask(db.logs, t) == [] && ForTask(db.letters, t) == []
  }

  ghost predicate UniqueKeys(db: Db) {
    forall t, u :: t in db.tasks && u in db.tasks && t != u && db.tasks[t].key.Some? ==>
      !(db.tasks[t].kind == db.tasks[u].kind && db.tasks[t].key == db.tasks[u].key)
  }

  ghost predicate DbOk(db: Db) {
    && (forall t {:trigger TaskOk(db, t)} :: t in db.tasks ==> TaskOk(db, t))
    && NoOrphans(db)
    && UniqueKeys(db)
  }

  // ---- Preservation ----

  predicate LegalMove(r: Row, r': Row) {
    && RowOk(r')
    && Edge(r.status, r.attempts, r'.status) == Some(r'.attempts)
    && r.kind == r'.kind && r.key == r'.key
  }

  /** Every status change goes through this shape: one row, one log entry, that row's letters. */
  lemma MoveKeeps(db: Db, t: TaskId, r: Row, db': Db)
    requires DbOk(db) && t in db.tasks && LegalMove(db.tasks[t], r)
    requires db'.tasks == Move(db, t, r).tasks && db'.logs == Move(db, t, r).logs
    requires forall u :: u != t ==> ForTask(db'.letters, u) == ForTask(db.letters, u)
    requires LettersOk(r, ForTask(db'.letters, t))
    ensures DbOk(db')
  {
    assert TaskOk(db, t);
    ForTaskAppendAll(db.logs, Entry(t, r.status));
    ReplayAppend(ForTask(db.logs, t), r.status);
    forall u | u in db'.tasks
      ensures TaskOk(db', u)
    {
      assert u in db.tasks && TaskOk(db, u);
    }
  }

  /** An insert that hits an existing key changes nothing and is judged by the payload hash alone. */
  lemma InsertHit(db: Db, q: Request, hash: string, id: TaskId, at: Time, t: TaskId)
    requires UniqueKeys(db) && q.key.Some? && HoldsKey(db, t, q.kind, q.key.value)
    ensures InsertTx(db, q, hash, id, at) == (db, if db.tasks[t].payloadHash == hash then Replayed(t) else Conflict)
  {
    forall u | HoldsKey(db, u, q.kind, q.key.value)
      ensures u == t
    {
    }
  }

  lemma InsertMiss(db: Db, q: Request, hash: string, id: TaskId, at: Time)
    requires q.key.Some? ==> forall t :: !HoldsKey(db, t, q.kind, q.key.value)
    ensures var tx := InsertTx(db, q, hash, id, at);
      && tx.1 == Inserted
      && tx.0.tasks == db.tasks[id := NewRow(q, hash, at)] && tx.0.logs == db.logs && tx.0.letters == db.letters
      && tx.0.counters == db.counters.(enqueued := db.counters.enqueued + 1)
  {
  }

  lemma InsertKeeps(db: Db, q: Request, hash: string, id: TaskId, at: Time)
    requires DbOk(db) && id !in db.tasks
    ensures DbOk(InsertTx(db, q, hash, id, at).0)
  {
    var db' := InsertTx(db, q, hash, id, at).0;
    forall u | u in db'.tasks
      ensures TaskOk(db', u)
    {
      assert u in db.tasks ==> TaskOk(db, u);
    }
    if db'.tasks != db.tasks {
      forall t | t in db.tasks && q.key.Some?
        ensures !(db.tasks[t].kind == q.kind && db.tasks[t].key == q.key)
      {
        assert !HoldsKey(db, t, q.kind, q.key.value);
      }
    }
  }

  lemma ClaimKeeps(db: Db, t: TaskId, w: string, at: Time)
    requires DbOk(db) && t in db.tasks && db.tasks[t].status == Pending
    ensures DbOk(ClaimTx(db, t, w, at))
  {
    assert TaskOk(db, t);
    MoveKeeps(db, t, ClaimRow(db.tasks[t], w, at), ClaimTx(db, t, w, at));
  }

  lemma HeartbeatKeeps(db: Db, t: TaskId, w: string, at: Time)
    requires DbOk(db)
    ensures DbOk(HeartbeatTx(db, t, w, at))
  {
    var db' := HeartbeatTx(db, t, w, at);
    forall u | u in db'.tasks
      ensures TaskOk(db', u)
    {
      assert TaskOk(db, u);
    }
  }

  lemma CompleteKeeps(db: Db, t: TaskId, w: string, at: Time)
    requires DbOk(db)
    ensures DbOk(CompleteTx(db, t, w, at))
  {
    if OwnedBy(db, t, w) {
      assert TaskOk(db, t);
      MoveKeeps(db, t, CompleteRow(db.tasks[t], at), CompleteTx(db, t, w, at));
    }
  }

  lemma PendingKeeps(db: Db, t: TaskId, w: string, err: string, runAt: Time, at: Time)
    requires DbOk(db)
    ensures DbOk(PendingTx(db, t, w, err, runAt, at))
  {
    if OwnedBy(db, t, w) {
      assert TaskOk(db, t);
      MoveKeeps(db, t, RequeueRow(db.tasks[t], err, runAt, at), PendingTx(db, t, w, err, runAt, at));
    }
  }

  lemma DeadKeeps(db: Db, t: TaskId, w: string, err: string, at: Time)
    requires DbOk(db)
    ensures DbOk(DeadTx(db, t, w, err, at))
  {
    if OwnedBy(db, t, w) {
      assert TaskOk(db, t);
      ForTaskAppendAll(db.letters, Entry(t, err));
      MoveKeeps(db, t, DeadRow(db.tasks[t], err, at), DeadTx(db, t, w, err, at));
    }
  }

  lemma CancelKeeps(db: Db, t: TaskId, at: Time)
    requires DbOk(db)
    ensures DbOk(CancelTx(db, t, at))
  {
    if t in db.tasks && db.tasks[t].status == Pending {
      assert TaskOk(db, t);
      MoveKeeps(db, t, CancelRow(db.tasks[t], at), CancelTx(db, t, at));
    }
  }

  lemma RetryDeadKeeps(db: Db, t: TaskId, at: Time)
    requires DbOk(db)
    ensures DbOk(RetryDeadTx(db, t, at))
  {
    if t in db.tasks && db.tasks[t].status == Dead {
      assert TaskOk(db, t);
      ForTaskWithoutAll(db.letters, {t});
      MoveKeeps(db, t, ReviveRow(db.tasks[t], at), RetryDeadTx(db, t, at));
    }
  }

  lemma ReapOneKeeps(db: Db, t: TaskId, at: Time)
    requires DbOk(db) && t in db.tasks && db.tasks[t].status == Running
    ensures DbOk(ReapOne(db, t, at))
  {
    assert TaskOk(db, t);
    ForTaskAppendAll(db.letters, Entry(t, REAP_DEAD));
    MoveKeeps(db, t, ReapRow(db.tasks[t], at), ReapOne(db, t, at));
  }

  /** Retention removes exactly the old tasks at rest, with all their history, and nothing else. */
  lemma RetainExact(db: Db, cutoff: Time, t: TaskId)
    requires t in db.tasks
    ensures var db' := RetainTx(db, cutoff);
      if db.tasks[t].createdAt < cutoff && db.tasks[t].status != Running
      then t !in db'.tasks && ForTask(db'.logs, t) == [] && ForTask(db'.letters, t) == []
      else
        && t in db'.tasks && db'.tasks[t] == db.tasks[t]
        && ForTask(db'.logs, t) == ForTask(db.logs, t) && ForTask(db'.letters, t) == ForTask(db.letters, t)
  {
    ForTaskWithout(db.logs, Expired(db.tasks, cutoff), t);
    ForTaskWithout(db.letters, Expired(db.tasks, cutoff), t);
  }

  lemma RetainKeeps(db: Db, cutoff: Time)
    requires DbOk(db)
    ensures DbOk(RetainTx(db, cutoff))
  {
    var gone := Expired(db.tasks, cutoff);
    ForTaskWithoutAll(db.logs, gone);
    ForTaskWithoutAll(db.letters, gone);
    var db' := RetainTx(db, cutoff);
    forall u | u in db'.tasks
      ensures TaskOk(db', u)
    {
      assert TaskOk(db, u);
    }
  }
}
