/**
 * What each transaction does, said column by column and counter by counter, and that this decides
 * the state it leaves: the relations here and the functions of `Tables` are the same transactions.
 */
module Effects {
  import opened Common
  import opened Tables

  // ---- Columns ----

  /** What the caller of an insert asked for, and when; no later write changes these. */
  predicate SameIdentity(a: Row, b: Row) {
    && a.kind == b.kind && a.key == b.key && a.payload == b.payload && a.payloadHash == b.payloadHash
    && a.priority == b.priority && a.maxRetries == b.maxRetries && a.createdAt == b.createdAt
  }

  predicate Unlocked(r: Row) {
    r.lockedAt.None? && r.lockedBy.None?
  }

  predicate SameAttempts(a: Row, b: Row) {
    a.attempts == b.attempts && a.startedAt == b.startedAt
  }

  // ---- Tables and counters ----

  const ZERO := Counters(0, 0, 0, 0, 0, 0, 0)

  function Plus(a: Counters, b: Counters): Counters {
    Counters(a.enqueued + b.enqueued, a.completed + b.completed, a.failures + b.failures, a.retried + b.retried,
             a.dead + b.dead, a.canceled + b.canceled, a.reaped + b.reaped)
  }

  /** Row `t` becomes `r` with one log entry, these letters and these counts; no other row changes. */
  ghost predicate Writes(db: Db, t: TaskId, r: Row, letters: seq<Entry<string>>, count: Counters, db': Db) {
    && t in db.tasks && db'.tasks.Keys == db.tasks.Keys
    && (forall u :: u in db.tasks && u != t ==> db'.tasks[u] == db.tasks[u])
    && db'.tasks[t] == r && SameIdentity(db.tasks[t], r)
    && db'.logs == db.logs + [Entry(t, r.status)]
    && db'.letters == letters && db'.counters == Plus(db.counters, count)
  }

  lemma WritesDecide(db: Db, t: TaskId, r: Row, letters: seq<Entry<string>>, count: Counters, db': Db)
    requires Writes(db, t, r, letters, count, db')
    ensures db' == Db(db.tasks[t := r], db.logs + [Entry(t, r.status)], letters, Plus(db.counters, count))
  {
    assert db'.tasks == db.tasks[t := r];
  }

  // ---- The transactions ----

  ghost predicate Inserts(db: Db, q: Request, hash: string, id: TaskId, at: Time, db': Db) {
    && db'.tasks.Keys == db.tasks.Keys + {id}
    && (forall u :: u in db.tasks && u != id ==> db'.tasks[u] == db.tasks[u])
    && db'.logs == db.logs && db'.letters == db.letters && db'.counters == Plus(db.counters, ZERO.(enqueued := 1))
    && var r := db'.tasks[id];
    && r.kind == q.kind && r.key == q.key && r.payload == q.payload && r.payloadHash == hash
    && r.priority == q.priority && r.maxRetries == q.maxRetries && r.runAt == q.runAt
    && r.status == Pending && r.attempts == 0 && r.startedAt.None? && r.completedAt.None? && r.lastError.None?
    && Unlocked(r) && r.createdAt == at && r.updatedAt == at
  }

  ghost predicate Claims(db: Db, t: TaskId, w: string, at: Time, db': Db) {
    t in db.tasks && t in db'.tasks &&
    var r, r' := db.tasks[t], db'.tasks[t];
    && Writes(db, t, r', db.letters, ZERO, db')
    && r'.status == Running && r'.lockedBy == Some(w) && r'.lockedAt == Some(at) && r'.startedAt == Some(at)
    && r'.attempts == r.attempts + 1 && r'.runAt == r.runAt && r'.completedAt == r.completedAt
    && r'.lastError == r.lastError && r'.updatedAt == at
  }

  /** A heartbeat moves the lease and leaves no trace in the log. */
  ghost predicate Refreshes(db: Db, t: TaskId, at: Time, db': Db) {
    && t in db.tasks && db'.tasks.Keys == db.tasks.Keys
    && (forall u :: u in db.tasks && u != t ==> db'.tasks[u] == db.tasks[u])
    && db'.logs == db.logs && db'.letters == db.letters && db'.counters == db.counters
    && var r, r' := db.tasks[t], db'.tasks[t];
    && SameIdentity(r, r') && SameAttempts(r, r') && r'.status == r.status && r'.runAt == r.runAt
    && r'.completedAt == r.completedAt && r'.lastError == r.lastError
    && r'.lockedBy == r.lockedBy && r'.lockedAt == Some(at) && r'.updatedAt == at
  }

  ghost predicate Completes(db: Db, t: TaskId, at: Time, db': Db) {
    t in db.tasks && t in db'.tasks &&
    var r, r' := db.tasks[t], db'.tasks[t];
    && Writes(db, t, r', db.letters, ZERO.(completed := 1), db')
    && r'.status == Completed && r'.completedAt == Some(at) && r'.updatedAt == at
    && Unlocked(r') && SameAttempts(r, r') && r'.runAt == r.runAt && r'.lastError == r.lastError
  }

  ghost predicate Requeues(db: Db, t: TaskId, err: string, runAt: Time, at: Time, count: Counters, db': Db) {
    t in db.tasks && t in db'.tasks &&
    var r, r' := db.tasks[t], db'.tasks[t];
    && Writes(db, t, r', db.letters, count, db')
    && r'.status == Pending && r'.runAt == runAt && r'.lastError == Some(err) && r'.updatedAt == at
    && Unlocked(r') && SameAttempts(r, r') && r'.completedAt == r.completedAt
  }

  ghost predicate Dies(db: Db, t: TaskId, err: string, at: Time, count: Counters, db': Db) {
    t in db.tasks && t in db'.tasks &&
    var r, r' := db.tasks[t], db'.tasks[t];
    && Writes(db, t, r', db.letters + [Entry(t, err)], count, db')
    && r'.status == Dead && r'.lastError == Some(err) && r'.updatedAt == at
    && Unlocked(r') && SameAttempts(r, r') && r'.runAt == r.runAt && r'.completedAt == r.completedAt
  }

  ghost predicate Cancels(db: Db, t: TaskId, at: Time, db': Db) {
    t in db.tasks && t in db'.tasks &&
    var r, r' := db.tasks[t], db'.tasks[t];
    && Writes(db, t, r', db.letters, ZERO.(canceled := 1), db')
    && r'.status == Canceled && r'.updatedAt == at
    && SameAttempts(r, r') && r'.runAt == r.runAt && r'.completedAt == r.completedAt && r'.lastError == r.lastError
    && r'.lockedAt == r.lockedAt && r'.lockedBy == r.lockedBy
  }

  /** A revived task starts over: no attempts, no error, no letter, due at once. */
  ghost predicate Revives(db: Db, t: TaskId, at: Time, db': Db) {
    t in db.tasks && t in db'.tasks &&
    var r' := db'.tasks[t];
    && Writes(db, t, r', Without(db.letters, {t}), ZERO, db')
    && r'.status == Pending && r'.attempts == 0 && r'.startedAt.None? && r'.completedAt.None? && r'.lastError.None?
    && r'.runAt == at && r'.updatedAt == at && Unlocked(r')
  }

  /** The reaper's rule for one stale row. */
  ghost predicate Reaps(db: Db, t: TaskId, at: Time, db': Db) {
    t in db.tasks &&
    if db.tasks[t].attempts < db.tasks[t].maxRetries
    then Requeues(db, t, "reaped: stale heartbeat", at, at, ZERO.(reaped := 1), db')
    else Dies(db, t, "reaped: stale heartbeat (max retries exhausted)", at, ZERO.(reaped := 1), db')
  }

  // ---- They are the transactions of `Tables` ----

  /** An insert under a free key, or under no key, adds a row; under a held key it changes nothing. */
  lemma InsertIs(db: Db, q: Request, hash: string, id: TaskId, at: Time, db': Db)
    requires id !in db.tasks
    ensures var tx := InsertTx(db, q, hash, id, at);
      var held := exists t ::
        t in db.tasks && q.key.Some? && db.tasks[t].kind == q.kind && db.tasks[t].key == q.key;
      && (tx.1 == Inserted <==> !held)
      && (!held ==> (Inserts(db, q, hash, id, at, db') <==> db' == tx.0))
      && (held ==> tx.0 == db)
      && (tx.1.Replayed? ==>
            && tx.1.task in db.tasks && db.tasks[tx.1.task].kind == q.kind && db.tasks[tx.1.task].key == q.key
            && db.tasks[tx.1.task].payloadHash == hash)
  {
    if q.key.Some? {
      assert forall t :: HoldsKey(db, t, q.kind, q.key.value) <==>
        t in db.tasks && db.tasks[t].kind == q.kind && db.tasks[t].key == q.key;
    }
    if Inserts(db, q, hash, id, at, db') {
      assert db'.tasks == db.tasks[id := db'.tasks[id]];
    }
  }

  lemma ClaimIs(db: Db, t: TaskId, w: string, at: Time, db': Db)
    requires t in db.tasks
    ensures Claims(db, t, w, at, db') <==> db' == ClaimTx(db, t, w, at)
  {
    if Claims(db, t, w, at, db') {
      WritesDecide(db, t, db'.tasks[t], db.letters, ZERO, db');
    }
  }

  lemma HeartbeatIs(db: Db, t: TaskId, w: string, at: Time, db': Db)
    ensures db' == HeartbeatTx(db, t, w, at) <==> if OwnedBy(db, t, w) then Refreshes(db, t, at, db') else db' == db
  {
    if Refreshes(db, t, at, db') {
      assert db'.tasks == db.tasks[t := db'.tasks[t]];
    }
  }

  lemma CompleteIs(db: Db, t: TaskId, w: string, at: Time, db': Db)
    ensures db' == CompleteTx(db, t, w, at) <==> if OwnedBy(db, t, w) then Completes(db, t, at, db') else db' == db
  {
    if Completes(db, t, at, db') {
      WritesDecide(db, t, db'.tasks[t], db.letters, ZERO.(completed := 1), db');
    }
  }

  lemma PendingIs(db: Db, t: TaskId, w: string, err: string, runAt: Time, at: Time, db': Db)
    ensures db' == PendingTx(db, t, w, err, runAt, at) <==>
      if OwnedBy(db, t, w) then Requeues(db, t, err, runAt, at, ZERO.(failures := 1, retried := 1), db') else db' == db
  {
    if Requeues(db, t, err, runAt, at, ZERO.(failures := 1, retried := 1), db') {
      WritesDecide(db, t, db'.tasks[t], db.letters, ZERO.(failures := 1, retried := 1), db');
    }
  }

  lemma DeadIs(db: Db, t: TaskId, w: string, err: string, at: Time, db': Db)
    ensures db' == DeadTx(db, t, w, err, at) <==>
      if OwnedBy(db, t, w) then Dies(db, t, err, at, ZERO.(failures := 1, dead := 1), db') else db' == db
  {
    if Dies(db, t, err, at, ZERO.(failures := 1, dead := 1), db') {
      WritesDecide(db, t, db'.tasks[t], db.letters + [Entry(t, err)], ZERO.(failures := 1, dead := 1), db');
    }
  }

  lemma CancelIs(db: Db, t: TaskId, at: Time, db': Db)
    ensures db' == CancelTx(db, t, at) <==>
      if t in db.tasks && db.tasks[t].status == Pending then Cancels(db, t, at, db') else db' == db
  {
    if Cancels(db, t, at, db') {
      WritesDecide(db, t, db'.tasks[t], db.letters, ZERO.(canceled := 1), db');
    }
  }

  lemma RetryDeadIs(db: Db, t: TaskId, at: Time, db': Db)
    ensures db' == RetryDeadTx(db, t, at) <==>
      if t in db.tasks && db.tasks[t].status == Dead then Revives(db, t, at, db') else db' == db
  {
    if Revives(db, t, at, db') {
      WritesDecide(db, t, db'.tasks[t], Without(db.letters, {t}), ZERO, db');
    }
  }

  lemma ReapOneIs(db: Db, t: TaskId, at: Time, db': Db)
    requires t in db.tasks
    ensures db' == ReapOne(db, t, at) <==> Reaps(db, t, at, db')
  {
    if Reaps(db, t, at, db') {
      if db.tasks[t].attempts < db.tasks[t].maxRetries {
        WritesDecide(db, t, db'.tasks[t], db.letters, ZERO.(reaped := 1), db');
      } else {
        WritesDecide(db, t, db'.tasks[t], db.letters + [Entry(t, REAP_DEAD)], ZERO.(reaped := 1), db');
      }
    }
  }
}
