/** The store itself: one method per transaction, updating the tables in place. */
module TaskStore {
  import opened Common
  import opened Json
  import opened Tables
  import opened Effects
  import opened StoreInvariants
  import opened Reaper

  // ---- Claim order ----

  /** `ORDER BY priority DESC, run_at ASC` */
  predicate Before(a: Row, b: Row) {
    a.priority > b.priority || (a.priority == b.priority && a.runAt <= b.runAt)
  }

  /** No unlocked ready row is more urgent than `t`, or as urgent and due earlier. */
  ghost predicate First(db: Db, t: TaskId, at: Time, locked: set<TaskId>) {
    && Ready(db, t, at) && t !in locked
    && forall u :: Ready(db, u, at) && u !in locked ==>
      && db.tasks[u].priority <= db.tasks[t].priority
      && (db.tasks[u].priority == db.tasks[t].priority ==> db.tasks[t].runAt <= db.tasks[u].runAt)
  }

  datatype Claimed = NotAvailable | Task(id: TaskId, attempts: int, maxRetries: int)
  datatype Written = Ok | OwnershipLost
  datatype Created = Malformed | Reply(reply: InsertReply)
  datatype Looked = NotFound | NotDead | Found(row: Row)

  /** The rows of a set, in whatever order the database yields them. */
  method Listing(s: set<TaskId>) returns (order: seq<TaskId>)
    ensures Distinct(order) && Elems(order) == s
  {
    order := [];
    var left := s;
    while left != {}
      invariant Distinct(order) && Elems(order) + left == s && Elems(order) !! left
      decreases left
    {
      var t :| t in left;
      order := order + [t];
      left := left - {t};
    }
  }

  class Store {
    var tasks: map<TaskId, Row>
    var logs: seq<Entry<Status>>
    var letters: seq<Entry<string>>
    var counters: Counters
    const sha256: string -> string

    ghost function Db(): Tables.Db
      reads this
    {
      Tables.Db(tasks, logs, letters, counters)
    }

    ghost predicate Valid()
      reads this
    {
      DbOk(Db())
    }

    constructor (sha256: string -> string)
      ensures Valid() && Db() == EMPTY && this.sha256 == sha256
    {
      this.sha256 := sha256;
      tasks, logs, letters := map[], [], [];
      counters := Counters(0, 0, 0, 0, 0, 0, 0);
    }

    method InsertLog(t: TaskId, status: Status)
      modifies this`logs
      ensures logs == old(logs) + [Entry(t, status)]
    {
      logs := logs + [Entry(t, status)];
    }

    /** `payload` is the decoded JSON, or `None` when it does not parse. */
    method Insert(kind: string, payload: Option<Value>, key: Option<string>, priority: int, maxRetries: int,
                  runAt: Time, id: TaskId, at: Time) returns (r: Created)
      requires Valid() && id !in tasks
      modifies this
      ensures Valid()
      ensures payload.None? ==> r == Malformed && Db() == old(Db())
      ensures payload.Some? ==>
        var q := Request(kind, payload.value, key, priority, maxRetries, runAt);
        (Db(), r) == var tx := InsertTx(old(Db()), q, sha256(Print(payload.value)), id, at); (tx.0, Reply(tx.1))
      ensures r == Reply(Inserted) ==>
        payload.Some? &&
        var q := Request(kind, payload.value, key, priority, maxRetries, runAt);
        Inserts(old(Db()), q, sha256(Print(payload.value)), id, at, Db())
    {
      if payload.None? {
        return Malformed;
      }
      var hash := HashPayload(payload.value, sha256);
      var q := Request(kind, payload.value, key, priority, maxRetries, runAt);
      InsertKeeps(Db(), q, hash, id, at);
      var holders := set t | t in tasks && key.Some? && tasks[t].kind == kind && tasks[t].key == key;
      assert key.Some? ==> forall t :: t in holders <==> HoldsKey(Db(), t, kind, key.value);
      if holders != {} {
        var t :| t in holders;
        InsertHit(Db(), q, hash, id, at, t);
        r := Reply(if tasks[t].payloadHash != hash then Conflict else Replayed(t));
        return;
      }
      InsertMiss(Db(), q, hash, id, at);
      InsertIs(Db(), q, hash, id, at, InsertTx(Db(), q, hash, id, at).0);
      tasks := tasks[id := NewRow(q, hash, at)];
      counters := counters.(enqueued := counters.enqueued + 1);
      r := Reply(Inserted);
    }

    /** Claims the first ready row that no other transaction has locked. */
    method Claim(w: string, at: Time, locked: set<TaskId>) returns (r: Claimed)
      requires Valid()
      modifies this
      ensures Valid()
      ensures r.NotAvailable? ==> Db() == old(Db()) && forall t :: Ready(Db(), t, at) ==> t in locked
      ensures r.Task? ==>
        && First(old(Db()), r.id, at, locked)
        && Db() == ClaimTx(old(Db()), r.id, w, at) && Claims(old(Db()), r.id, w, at, Db())
        && r.attempts == old(tasks)[r.id].attempts + 1 && r.maxRetries == old(tasks)[r.id].maxRetries
    {
      var left := set t | t in tasks && tasks[t].status == Pending && tasks[t].runAt <= at && t !in locked;
      ghost var ready := left;
      assert forall t :: t in ready <==> Ready(Db(), t, at) && t !in locked;
      if left == {} {
        return NotAvailable;
      }
      var best :| best in left;
      while left != {}
        invariant left <= ready && best in ready
        invariant forall u :: u in ready - left ==> Before(tasks[best], tasks[u])
        decreases left
      {
        var u :| u in left;
        if !Before(tasks[best], tasks[u]) {
          best := u;
        }
        left := left - {u};
      }
      ClaimKeeps(Db(), best, w, at);
      ClaimIs(Db(), best, w, at, ClaimTx(Db(), best, w, at));
      tasks := tasks[best := ClaimRow(tasks[best], w, at)];
      InsertLog(best, Running);
      r := Task(best, tasks[best].attempts, tasks[best].maxRetries);
    }

    method Heartbeat(t: TaskId, w: string, at: Time) returns (r: Written)
      requires Valid()
      modifies this
      ensures Valid() && Db() == HeartbeatTx(old(Db()), t, w, at)
      ensures if OwnedBy(old(Db()), t, w)
        then Refreshes(old(Db()), t, at, Db())
        else Db() == old(Db())
      ensures r == if OwnedBy(old(Db()), t, w) then Ok else OwnershipLost
    {
      HeartbeatKeeps(Db(), t, w, at);
      HeartbeatIs(Db(), t, w, at, HeartbeatTx(Db(), t, w, at));
      if !(t in tasks && tasks[t].status == Running && tasks[t].lockedBy == Some(w)) {
        return OwnershipLost;
      }
      tasks := tasks[t := BeatRow(tasks[t], at)];
      r := Ok;
    }

    method MarkCompleted(t: TaskId, w: string, at: Time) returns (r: Written)
      requires Valid()
      modifies this
      ensures Valid() && Db() == CompleteTx(old(Db()), t, w, at)
      ensures if OwnedBy(old(Db()), t, w)
        then Completes(old(Db()), t, at, Db())
        else Db() == old(Db())
      ensures r == if OwnedBy(old(Db()), t, w) then Ok else OwnershipLost
    {
      CompleteKeeps(Db(), t, w, at);
      CompleteIs(Db(), t, w, at, CompleteTx(Db(), t, w, at));
      if !(t in tasks && tasks[t].status == Running && tasks[t].lockedBy == Some(w)) {
        return OwnershipLost;
      }
      tasks := tasks[t := CompleteRow(tasks[t], at)];
      InsertLog(t, Completed);
      counters := counters.(completed := counters.completed + 1);
      r := Ok;
    }

    method MarkPending(t: TaskId, w: string, err: string, runAt: Time, at: Time) returns (r: Written)
      requires Valid()
      modifies this
      ensures Valid() && Db() == PendingTx(old(Db()), t, w, err, runAt, at)
      ensures if OwnedBy(old(Db()), t, w)
        then Requeues(old(Db()), t, err, runAt, at, ZERO.(failures := 1, retried := 1), Db())
        else Db() == old(Db())
      ensures r == if OwnedBy(old(Db()), t, w) then Ok else OwnershipLost
    {
      PendingKeeps(Db(), t, w, err, runAt, at);
      PendingIs(Db(), t, w, err, runAt, at, PendingTx(Db(), t, w, err, runAt, at));
      if !(t in tasks && tasks[t].status == Running && tasks[t].lockedBy == Some(w)) {
        return OwnershipLost;
      }
      tasks := tasks[t := RequeueRow(tasks[t], err, runAt, at)];
      InsertLog(t, Pending);
      counters := counters.(failures := counters.failures + 1);
      counters := counters.(retried := counters.retried + 1);
      r := Ok;
    }

    method MarkDead(t: TaskId, w: string, err: string, at: Time) returns (r: Written)
      requires Valid()
      modifies this
      ensures Valid() && Db() == DeadTx(old(Db()), t, w, err, at)
      ensures if OwnedBy(old(Db()), t, w)
        then Dies(old(Db()), t, err, at, ZERO.(failures := 1, dead := 1), Db())
        else Db() == old(Db())
      ensures r == if OwnedBy(old(Db()), t, w) then Ok else OwnershipLost
    {
      DeadKeeps(Db(), t, w, err, at);
      DeadIs(Db(), t, w, err, at, DeadTx(Db(), t, w, err, at));
      if !(t in tasks && tasks[t].status == Running && tasks[t].lockedBy == Some(w)) {
        return OwnershipLost;
      }
      tasks := tasks[t := DeadRow(tasks[t], err, at)];
      letters := letters + [Entry(t, err)];
      InsertLog(t, Dead);
      counters := counters.(failures := counters.failures + 1);
      counters := counters.(dead := counters.dead + 1);
      r := Ok;
    }

    method Cancel(t: TaskId, at: Time) returns (r: Looked)
      requires Valid()
      modifies this
      ensures Valid() && Db() == CancelTx(old(Db()), t, at)
      ensures if t in old(tasks) && old(tasks)[t].status == Pending
        then Cancels(old(Db()), t, at, Db())
        else Db() == old(Db())
      ensures r == if t in tasks then Found(tasks[t]) else NotFound
    {
      CancelKeeps(Db(), t, at);
      CancelIs(Db(), t, at, CancelTx(Db(), t, at));
      if t !in tasks {
        return NotFound;
      }
      if tasks[t].status == Pending {
        tasks := tasks[t := CancelRow(tasks[t], at)];
        InsertLog(t, Canceled);
        counters := counters.(canceled := counters.canceled + 1);
      }
      r := Found(tasks[t]);
    }

    method RetryDead(t: TaskId, at: Time) returns (r: Looked)
      requires Valid()
      modifies this
      ensures Valid() && Db() == RetryDeadTx(old(Db()), t, at)
      ensures if t in old(tasks) && old(tasks)[t].status == Dead
        then Revives(old(Db()), t, at, Db())
        else Db() == old(Db())
      ensures r == if t !in old(tasks) then NotFound
                   else if old(tasks)[t].status != Dead then NotDead else Found(tasks[t])
    {
      RetryDeadKeeps(Db(), t, at);
      RetryDeadIs(Db(), t, at, RetryDeadTx(Db(), t, at));
      if t !in tasks {
        return NotFound;
      }
      if tasks[t].status != Dead {
        return NotDead;
      }
      tasks := tasks[t := ReviveRow(tasks[t], at)];
      letters := Without(letters, {t});
      InsertLog(t, Pending);
      r := Found(tasks[t]);
    }

    /**
     * One reaper run. `order` is the listing the statement happened to return; the count is the
     * number of stale rows no other transaction had locked.
     */
    method RequeueStaleRunning(threshold: Time, at: Time, locked: set<TaskId>)
      returns (changed: nat, ghost order: seq<TaskId>)
      requires Valid()
      modifies this
      ensures Distinct(order) && changed == |order|
      ensures forall t :: t in order <==>
        && t in old(tasks) && t !in locked && old(tasks)[t].status == Running
        && old(tasks)[t].lockedAt.Some? && old(tasks)[t].lockedAt.value < at - threshold
      ensures Valid() && Db() == ReapEach(old(Db()), order, at)
    {
      var db := Tables.Db(tasks, logs, letters, counters);
      var stale := Takes(db, threshold, at, locked);
      var toDead := set t | t in stale && Exhausted(tasks[t]);
      var dead := Listing(toDead);
      var pending := Listing(stale - toDead);
      BulkRun(db, stale, toDead, dead, pending, at);
      order := dead + pending;
      assert forall t :: t in order <==> t in Elems(order);
      changed := Reap(dead, pending, at);
    }

    /** The statement's updates, its dead letters, and one audit entry per returned row. */
    method Reap(dead: seq<TaskId>, pending: seq<TaskId>, at: Time) returns (changed: nat)
      modifies this
      ensures Db() == ReapBulk(old(Db()), dead, pending, at)
      ensures changed == |dead| + |pending|
    {
      tasks := ReapBulk(Tables.Db(tasks, logs, letters, counters), dead, pending, at).tasks;
      letters := letters + Tag(dead, REAP_DEAD);
      changed := LogReaped(Tag(dead, Dead) + Tag(pending, Pending));
      counters := counters.(reaped := counters.reaped + changed);
      assert logs == ReapBulk(old(Db()), dead, pending, at).logs;
    }

    /** The loop over the returned rows: one audit entry each. */
    method LogReaped(reaped: seq<Entry<Status>>) returns (changed: nat)
      modifies this`logs
      ensures logs == old(logs) + reaped && changed == |reaped|
    {
      changed := 0;
      for i := 0 to |reaped|
        invariant changed == i && logs == old(logs) + reaped[..i]
      {
        InsertLog(reaped[i].task, reaped[i].value);
        changed := changed + 1;
        assert reaped[..i + 1] == reaped[..i] + [reaped[i]];
      }
      assert reaped[..|reaped|] == reaped;
    }

    /** The retention delete: dependents first, because the foreign keys do not cascade. */
    method DeleteOlderThan(cutoff: Time) returns (n: nat)
      requires Valid()
      modifies this
      ensures Valid() && Db() == RetainTx(old(Db()), cutoff)
      ensures forall t :: t in tasks <==>
        t in old(tasks) && !(old(tasks)[t].createdAt < cutoff && old(tasks)[t].status != Running)
      ensures n == |old(tasks).Keys| - |tasks.Keys|
    {
      RetainKeeps(Db(), cutoff);
      var gone := Expired(tasks, cutoff);
      assert gone <= tasks.Keys;
      letters := Without(letters, gone);
      logs := Without(logs, gone);
      tasks := tasks - gone;
      n := |gone|;
    }
  }
}
