/**
 * The three tables of the queue (`tasks`, `task_logs`, `dead_letters`), the process counters,
 * and one function per store transaction giving the committed state it leaves behind.
 * `at` is the transaction's own `now()`.
 */
module Tables {
  import opened Common
  import opened Json

  datatype Status = Pending | Running | Completed | Canceled | Dead

  /** A row of `tasks`. */
  datatype Row = Row(
    kind: string,
    payload: Value,
    payloadHash: string,
    key: Option<string>,
    status: Status,
    priority: int,
    attempts: int,
    maxRetries: int,
    runAt: Time,
    startedAt: Option<Time>,
    completedAt: Option<Time>,
    lockedAt: Option<Time>,
    lockedBy: Option<string>,
    lastError: Option<string>,
    createdAt: Time,
    updatedAt: Time)

  datatype Counters = Counters(
    enqueued: nat, completed: nat, failures: nat, retried: nat, dead: nat, canceled: nat, reaped: nat)

  datatype Db = Db(
    tasks: map<TaskId, Row>,
    logs: seq<Entry<Status>>,
    letters: seq<Entry<string>>,
    counters: Counters)

  const EMPTY: Db := Db(map[], [], [], Counters(0, 0, 0, 0, 0, 0, 0))

  /** What a caller hands to an insert. */
  datatype Request = Request(
    kind: string, payload: Value, key: Option<string>, priority: int, maxRetries: int, runAt: Time)

  // ---- Row images: the SET clause of each UPDATE ----

  function NewRow(q: Request, hash: string, at: Time): Row {
    Row(q.kind, q.payload, hash, q.key, Pending, q.priority, 0, q.maxRetries, q.runAt,
        None, None, None, None, None, at, at)
  }

  function ClaimRow(r: Row, w: string, at: Time): Row {
    r.(status := Running, lockedBy := Some(w), lockedAt := Some(at), startedAt := Some(at),
       attempts := r.attempts + 1, updatedAt := at)
  }

  function BeatRow(r: Row, at: Time): Row {
    r.(lockedAt := Some(at), updatedAt := at)
  }

  function CompleteRow(r: Row, at: Time): Row {
    r.(status := Completed, completedAt := Some(at), lockedBy := None, lockedAt := None, updatedAt := at)
  }

  function RequeueRow(r: Row, err: string, runAt: Time, at: Time): Row {
    r.(status := Pending, lastError := Some(err), runAt := runAt, lockedBy := None, lockedAt := None, updatedAt := at)
  }

  function DeadRow(r: Row, err: string, at: Time): Row {
    r.(status := Dead, lastError := Some(err), lockedBy := None, lockedAt := None, updatedAt := at)
  }

  function CancelRow(r: Row, at: Time): Row {
    r.(status := Canceled, updatedAt := at)
  }

  function ReviveRow(r: Row, at: Time): Row {
    r.(status := Pending, attempts := 0, runAt := at, lockedBy := None, lockedAt := None,
       startedAt := None, completedAt := None, lastError := None, updatedAt := at)
  }

  const REAP_DEAD := "reaped: stale heartbeat (max retries exhausted)"
  const REAP_PENDING := "reaped: stale heartbeat"

  /** The one-row rule of the reaper. */
  function ReapRow(r: Row, at: Time): Row {
    if r.attempts >= r.maxRetries then DeadRow(r, REAP_DEAD, at) else RequeueRow(r, REAP_PENDING, at, at)
  }

  // ---- Guards: the WHERE clauses ----

  predicate Ready(db: Db, t: TaskId, at: Time) {
    t in db.tasks && db.tasks[t].status == Pending && db.tasks[t].runAt <= at
  }

  predicate OwnedBy(db: Db, t: TaskId, w: string) {
    t in db.tasks && db.tasks[t].status == Running && db.tasks[t].lockedBy == Some(w)
  }

  predicate Stale(r: Row, threshold: Time, at: Time) {
    r.status == Running && r.lockedAt.Some? && r.lockedAt.value < at - threshold
  }

  predicate Old(r: Row, cutoff: Time) {
    r.createdAt < cutoff && r.status != Running
  }

  predicate HoldsKey(db: Db, t: TaskId, kind: string, key: string) {
    t in db.tasks && db.tasks[t].kind == kind && db.tasks[t].key == Some(key)
  }

  // ---- Transactions ----

  /** Replace the row of `t` and append the audit entry naming its new status. */
  function Move(db: Db, t: TaskId, r: Row): Db {
    db.(tasks := db.tasks[t := r], logs := db.logs + [Entry(t, r.status)])
  }

  datatype InsertReply = Inserted | Replayed(task: TaskId) | Conflict

  ghost function InsertTx(db: Db, q: Request, hash: string, id: TaskId, at: Time): (Db, InsertReply) {
    if q.key.Some? && exists t :: HoldsKey(db, t, q.kind, q.key.value) then
      var t :| HoldsKey(db, t, q.kind, q.key.value);
      (db, if db.tasks[t].payloadHash == hash then Replayed(t) else Conflict)
    else
      (db.(tasks := db.tasks[id := NewRow(q, hash, at)], counters := db.counters.(enqueued := db.counters.enqueued + 1)),
       Inserted)
  }

  function ClaimTx(db: Db, t: TaskId, w: string, at: Time): Db
    requires t in db.tasks
  {
    Move(db, t, ClaimRow(db.tasks[t], w, at))
  }

  function HeartbeatTx(db: Db, t: TaskId, w: string, at: Time): Db {
    if OwnedBy(db, t, w) then db.(tasks := db.tasks[t := BeatRow(db.tasks[t], at)]) else db
  }

  function CompleteTx(db: Db, t: TaskId, w: string, at: Time): Db {
    if OwnedBy(db, t, w) then
      Move(db, t, CompleteRow(db.tasks[t], at))
        .(counters := db.counters.(completed := db.counters.completed + 1))
    else db
  }

  function PendingTx(db: Db, t: TaskId, w: string, err: string, runAt: Time, at: Time): Db {
    if OwnedBy(db, t, w) then
      Move(db, t, RequeueRow(db.tasks[t], err, runAt, at))
        .(counters := db.counters.(failures := db.counters.failures + 1, retried := db.counters.retried + 1))
    else db
  }

  function DeadTx(db: Db, t: TaskId, w: string, err: string, at: Time): Db {
    if OwnedBy(db, t, w) then
      Move(db, t, DeadRow(db.tasks[t], err, at))
        .(letters := db.letters + [Entry(t, err)],
          counters := db.counters.(failures := db.counters.failures + 1, dead := db.counters.dead + 1))
    else db
  }

  function CancelTx(db: Db, t: TaskId, at: Time): Db {
    if t in db.tasks && db.tasks[t].status == Pending then
      Move(db, t, CancelRow(db.tasks[t], at))
        .(counters := db.counters.(canceled := db.counters.canceled + 1))
    else db
  }

  function RetryDeadTx(db: Db, t: TaskId, at: Time): Db {
    if t in db.tasks && db.tasks[t].status == Dead then
      Move(db, t, ReviveRow(db.tasks[t], at)).(letters := Without(db.letters, {t}))
    else db
  }

  /** The reaper's rule applied to a single row, as a transaction of its own. */
  function ReapOne(db: Db, t: TaskId, at: Time): Db
    requires t in db.tasks
  {
    var r := ReapRow(db.tasks[t], at);
    Move(db, t, r)
      .(letters := if r.status == Dead then db.letters + [Entry(t, REAP_DEAD)] else db.letters,
        counters := db.counters.(reaped := db.counters.reaped + 1))
  }

  /** The one-row rule applied along a list of rows. */
  function ReapEach(db: Db, order: seq<TaskId>, at: Time): (r: Db)
    requires forall t <- order :: t in db.tasks
    ensures r.tasks.Keys == db.tasks.Keys
  {
    if order == [] then db
    else ReapOne(ReapEach(db, order[..|order| - 1], at), order[|order| - 1], at)
  }

  function Expired(tasks: map<TaskId, Row>, cutoff: Time): set<TaskId> {
    set t | t in tasks && Old(tasks[t], cutoff)
  }

  function RetainTx(db: Db, cutoff: Time): Db {
    var gone := Expired(db.tasks, cutoff);
    db.(tasks := db.tasks - gone, logs := Without(db.logs, gone), letters := Without(db.letters, gone))
  }
}
