/** The reaper's single bulk statement against the one-row rule applied row by row. */
module Reaper {
  import opened Common
  import opened Tables
  import opened Effects
  import opened StoreInvariants
  import opened Protocol

  function Tag<T>(ids: seq<TaskId>, v: T): seq<Entry<T>> {
    seq(|ids|, i requires 0 <= i < |ids| => Entry(ids[i], v))
  }

  predicate Exhausted(r: Row) {
    r.attempts >= r.maxRetries
  }

  /** The rows one run takes: stale and not locked by another transaction. */
  function Takes(db: Db, threshold: Time, at: Time, locked: set<TaskId>): set<TaskId> {
    set t | t in db.tasks && Stale(db.tasks[t], threshold, at) && t !in locked
  }

  /**
   * The bulk statement and the log loop after it: all rows at once, then the dead letters of the
   * exhausted rows, then one log entry per row, exhausted rows first.
   */
  function ReapBulk(db: Db, dead: seq<TaskId>, pending: seq<TaskId>, at: Time): Db {
    Db(map t | t in db.tasks ::
         if t in dead then DeadRow(db.tasks[t], REAP_DEAD, at)
         else if t in pending then RequeueRow(db.tasks[t], REAP_PENDING, at, at)
         else db.tasks[t],
       db.logs + Tag(dead, Dead) + Tag(pending, Pending),
       db.letters + Tag(dead, REAP_DEAD),
       db.counters.(reaped := db.counters.reaped + |dead| + |pending|))
  }

  ghost predicate Splits(db: Db, dead: seq<TaskId>, pending: seq<TaskId>) {
    && Distinct(dead + pending)
    && (forall t <- dead :: t in db.tasks && Exhausted(db.tasks[t]))
    && (forall t <- pending :: t in db.tasks && !Exhausted(db.tasks[t]))
  }

  lemma TagAppend<T>(ids: seq<TaskId>, t: TaskId, v: T)
    ensures Tag(ids + [t], v) == Tag(ids, v) + [Entry(t, v)]
  {
  }

  /** One more exhausted row in the statement is one more application of the one-row rule. */
  lemma BulkDeadStep(db: Db, dead: seq<TaskId>, t: TaskId, at: Time)
    requires t in db.tasks && t !in dead && Exhausted(db.tasks[t])
    ensures ReapBulk(db, dead + [t], [], at) == ReapOne(ReapBulk(db, dead, [], at), t, at)
  {
    TagAppend(dead, t, Dead);
    TagAppend(dead, t, REAP_DEAD);
    var a, b := ReapBulk(db, dead + [t], [], at), ReapOne(ReapBulk(db, dead, [], at), t, at);
    assert a.tasks == b.tasks;
    assert a.logs == b.logs;
    assert a.letters == b.letters;
  }

  lemma BulkPendingStep(db: Db, dead: seq<TaskId>, pending: seq<TaskId>, t: TaskId, at: Time)
    requires t in db.tasks && t !in dead && t !in pending && !Exhausted(db.tasks[t])
    ensures ReapBulk(db, dead, pending + [t], at) == ReapOne(ReapBulk(db, dead, pending, at), t, at)
  {
    TagAppend(pending, t, Pending);
    var a, b := ReapBulk(db, dead, pending + [t], at), ReapOne(ReapBulk(db, dead, pending, at), t, at);
    assert a.tasks == b.tasks;
    assert a.logs == b.logs;
  }

  lemma EachAppend(db: Db, order: seq<TaskId>, t: TaskId, at: Time)
    requires t in db.tasks && forall u <- order :: u in db.tasks
    ensures forall u <- order + [t] :: u in db.tasks
    ensures ReapEach(db, order + [t], at) == ReapOne(ReapEach(db, order, at), t, at)
  {
    assert (order + [t])[..|order|] == order;
  }

  lemma {:induction false} BulkDead(db: Db, dead: seq<TaskId>, at: Time)
    requires Distinct(dead) && forall t <- dead :: t in db.tasks && Exhausted(db.tasks[t])
    ensures ReapBulk(db, dead, [], at) == ReapEach(db, dead, at)
    decreases |dead|
  {
    if dead == [] {
      var bulk := ReapBulk(db, [], [], at);
      assert bulk.logs == db.logs && bulk.letters == db.letters && bulk.tasks == db.tasks;
    } else {
      var init, t := dead[..|dead| - 1], dead[|dead| - 1];
      assert dead == init + [t] && t !in init;
      BulkDead(db, init, at);
      BulkDeadStep(db, init, t, at);
      EachAppend(db, init, t, at);
    }
  }

  /** The bulk form leaves exactly the state of the one-row rule run along its own listing. */
  lemma {:induction false} BulkIsEach(db: Db, dead: seq<TaskId>, pending: seq<TaskId>, at: Time)
    requires Splits(db, dead, pending)
    ensures forall t <- dead + pending :: t in db.tasks
    ensures ReapBulk(db, dead, pending, at) == ReapEach(db, dead + pending, at)
    decreases |pending|
  {
    if pending == [] {
      assert dead + [] == dead;
      BulkDead(db, dead, at);
    } else {
      var init, t := pending[..|pending| - 1], pending[|pending| - 1];
      assert pending == init + [t];
      assert dead + pending == dead + init + [t];
      SplitsPrefix(db, dead, init, t);
      BulkIsEach(db, dead, init, at);
      BulkPendingStep(db, dead, init, t, at);
      EachAppend(db, dead + init, t, at);
    }
  }

  lemma SplitsPrefix(db: Db, dead: seq<TaskId>, init: seq<TaskId>, t: TaskId)
    requires Splits(db, dead, init + [t])
    ensures Splits(db, dead, init) && t !in dead && t !in init && t in db.tasks && !Exhausted(db.tasks[t])
  {
    var all := dead + (init + [t]);
    assert all[|all| - 1] == t;
    assert all[..|all| - 1] == dead + init;
    assert t in init + [t];
    assert forall i :: 0 <= i < |dead| ==> dead[i] == all[i];
    assert forall i :: 0 <= i < |init| ==> init[i] == all[|dead| + i];
  }

  /** Two states no reader of one task's history can tell apart. */
  ghost predicate SameTables(a: Db, b: Db) {
    && a.tasks == b.tasks && a.counters == b.counters
    && (forall t :: ForTask(a.logs, t) == ForTask(b.logs, t))
    && (forall t :: ForTask(a.letters, t) == ForTask(b.letters, t))
  }

  /** What reaping one row adds to the history of `t`. */
  lemma ReapOneHistory(db: Db, last: TaskId, at: Time, t: TaskId)
    requires last in db.tasks
    ensures var db' := ReapOne(db, last, at);
      && ForTask(db'.logs, t) ==
         ForTask(db.logs, t) + (if t == last then [ReapRow(db.tasks[last], at).status] else [])
      && ForTask(db'.letters, t) ==
         ForTask(db.letters, t) + (if t == last && Exhausted(db.tasks[last]) then [REAP_DEAD] else [])
  {
    ForTaskAppend(db.logs, Entry(last, ReapRow(db.tasks[last], at).status), t);
    ForTaskAppend(db.letters, Entry(last, REAP_DEAD), t);
  }

  lemma {:induction false} ReapEachHistory(db: Db, order: seq<TaskId>, at: Time, t: TaskId)
    requires Distinct(order) && forall u <- order :: u in db.tasks
    ensures var db' := ReapEach(db, order, at);
      && ForTask(db'.logs, t) ==
         ForTask(db.logs, t) + (if t in order then [ReapRow(db.tasks[t], at).status] else [])
      && ForTask(db'.letters, t) ==
         ForTask(db.letters, t) + (if t in order && Exhausted(db.tasks[t]) then [REAP_DEAD] else [])
    decreases |order|
  {
    if order != [] {
      var init, last := order[..|order| - 1], order[|order| - 1];
      LastUntouched(db, order, at);
      ReapEachHistory(db, init, at, t);
      ReapOneHistory(ReapEach(db, init, at), last, at, t);
      assert t in order <==> t in init || t == last;
    }
  }

  /** The row reaped last is still as it was when its turn comes. */
  lemma LastUntouched(db: Db, order: seq<TaskId>, at: Time)
    requires order != [] && Distinct(order) && forall u <- order :: u in db.tasks
    ensures var init, last := order[..|order| - 1], order[|order| - 1];
      && last !in init && (forall u <- init :: u in db.tasks)
      && ReapEach(db, init, at).tasks[last] == db.tasks[last]
  {
    ReapEachRows(db, order[..|order| - 1], at);
  }

  /** The order in which rows are reaped cannot be observed. */
  lemma ReapOrderIrrelevant(db: Db, a: seq<TaskId>, b: seq<TaskId>, at: Time)
    requires Distinct(a) && Distinct(b) && Elems(a) == Elems(b)
    requires forall t <- a :: t in db.tasks
    ensures forall t <- b :: t in db.tasks
    ensures SameTables(ReapEach(db, a, at), ReapEach(db, b, at))
  {
    assert forall t :: t in a <==> t in Elems(b);
    SameRowsReaped(db, a, b, at);
    forall t
      ensures ForTask(ReapEach(db, a, at).logs, t) == ForTask(ReapEach(db, b, at).logs, t)
      ensures ForTask(ReapEach(db, a, at).letters, t) == ForTask(ReapEach(db, b, at).letters, t)
    {
      ReapEachHistory(db, a, at, t);
      ReapEachHistory(db, b, at, t);
    }
  }

  lemma SameRowsReaped(db: Db, a: seq<TaskId>, b: seq<TaskId>, at: Time)
    requires Distinct(a) && Distinct(b) && Elems(a) == Elems(b)
    requires (forall t <- a :: t in db.tasks) && forall t <- b :: t in db.tasks
    ensures ReapEach(db, a, at).tasks == ReapEach(db, b, at).tasks
    ensures ReapEach(db, a, at).counters == ReapEach(db, b, at).counters
  {
    ReapEachRows(db, a, at);
    ReapEachRows(db, b, at);
    DistinctSize(a);
    DistinctSize(b);
    forall t | t in db.tasks
      ensures ReapEach(db, a, at).tasks[t] == ReapEach(db, b, at).tasks[t]
    {
      assert t in a <==> t in Elems(b);
    }
  }

  /** Listing the exhausted taken rows and then the others lists all taken rows once. */
  lemma ListingSplits(db: Db, taken: set<TaskId>, toDead: set<TaskId>, dead: seq<TaskId>, pending: seq<TaskId>)
    requires forall t :: t in taken ==> t in db.tasks
    requires toDead == set t | t in taken && Exhausted(db.tasks[t])
    requires Distinct(dead) && Elems(dead) == toDead && Distinct(pending) && Elems(pending) == taken - toDead
    ensures Splits(db, dead, pending) && Elems(dead + pending) == taken
    ensures |dead + pending| == |taken|
  {
    DistinctConcat(dead, pending);
    DistinctSize(dead + pending);
    assert forall t <- dead :: t in Elems(dead);
    assert forall t <- pending :: t in Elems(pending);
  }

  /**
   * What a pass leaves of each task, in columns: a listed row with attempts left waits, due at
   * once; one without is dead with a letter; anything else is as before. Only `reaped` is counted.
   */
  lemma ReapedTask(db: Db, order: seq<TaskId>, at: Time, t: TaskId)
    requires Distinct(order) && (forall u <- order :: u in db.tasks) && t in db.tasks
    ensures var db', r := ReapEach(db, order, at), db.tasks[t];
      var r' := db'.tasks[t];
      && db'.counters == Plus(db.counters, ZERO.(reaped := |order|))
      && (t !in order ==> r' == r && ForTask(db'.logs, t) == ForTask(db.logs, t)
                          && ForTask(db'.letters, t) == ForTask(db.letters, t))
      && (t in order ==> SameIdentity(r, r') && SameAttempts(r, r') && Unlocked(r') && r'.updatedAt == at)
      && (t in order && r.attempts < r.maxRetries ==>
            && r'.status == Pending && r'.runAt == at && r'.lastError == Some("reaped: stale heartbeat")
            && ForTask(db'.logs, t) == ForTask(db.logs, t) + [Pending]
            && ForTask(db'.letters, t) == ForTask(db.letters, t))
      && (t in order && r.attempts >= r.maxRetries ==>
            && r'.status == Dead && r'.runAt == r.runAt
            && r'.lastError == Some("reaped: stale heartbeat (max retries exhausted)")
            && ForTask(db'.logs, t) == ForTask(db.logs, t) + [Dead]
            && ForTask(db'.letters, t) ==
               ForTask(db.letters, t) + ["reaped: stale heartbeat (max retries exhausted)"])
  {
    ReapEachRows(db, order, at);
    ReapEachHistory(db, order, at, t);
  }

  /** Rows one of the two bulk statements matches. */
  function Matched(db: Db, threshold: Time, at: Time, locked: set<TaskId>, exhausted: bool): set<TaskId> {
    set t | t in db.tasks && Stale(db.tasks[t], threshold, at) && t !in locked && Exhausted(db.tasks[t]) == exhausted
  }

  /** The two statements between them list every taken row once. */
  lemma MatchedSplits(
    db: Db, threshold: Time, at: Time, locked: set<TaskId>, dead: seq<TaskId>, pending: seq<TaskId>)
    requires Distinct(dead) && Elems(dead) == Matched(db, threshold, at, locked, true)
    requires Distinct(pending) && Elems(pending) == Matched(db, threshold, at, locked, false)
    ensures Splits(db, dead, pending) && Elems(dead + pending) == Takes(db, threshold, at, locked)
    ensures Elems(dead) !! Elems(pending) && Elems(dead) + Elems(pending) == Takes(db, threshold, at, locked)
    ensures |dead| + |pending| == |Takes(db, threshold, at, locked)|
    ensures forall t <- dead + pending :: t in db.tasks
  {
    var taken, toDead := Takes(db, threshold, at, locked), Matched(db, threshold, at, locked, true);
    assert Elems(pending) == taken - toDead;
    ListingSplits(db, taken, toDead, dead, pending);
    assert forall t <- dead + pending :: t in Elems(dead + pending);
  }

  /**
   * One bulk run, however its two statements list their rows, cannot be told from the one-row rule
   * applied to all stale unlocked rows in any order; DEAD and PENDING outcomes partition them.
   */
  lemma BulkMatchesAnyOrder(
    db: Db, threshold: Time, at: Time, locked: set<TaskId>,
    dead: seq<TaskId>, pending: seq<TaskId>, order: seq<TaskId>)
    requires Distinct(dead) && Elems(dead) == Matched(db, threshold, at, locked, true)
    requires Distinct(pending) && Elems(pending) == Matched(db, threshold, at, locked, false)
    requires Distinct(order) && Elems(order) == Takes(db, threshold, at, locked)
    ensures forall t <- order :: t in db.tasks
    ensures SameTables(ReapBulk(db, dead, pending, at), ReapEach(db, order, at))
    ensures Elems(dead) !! Elems(pending) && Elems(dead) + Elems(pending) == Takes(db, threshold, at, locked)
    ensures |dead| + |pending| == |Takes(db, threshold, at, locked)|
  {
    MatchedSplits(db, threshold, at, locked, dead, pending);
    BulkIsEach(db, dead, pending, at);
    ReapOrderIrrelevant(db, dead + pending, order, at);
  }

  lemma BulkRun(db: Db, taken: set<TaskId>, toDead: set<TaskId>, dead: seq<TaskId>, pending: seq<TaskId>, at: Time)
    requires DbOk(db) && forall t :: t in taken ==> t in db.tasks && db.tasks[t].status == Running
    requires toDead == set t | t in taken && Exhausted(db.tasks[t])
    requires Distinct(dead) && Elems(dead) == toDead && Distinct(pending) && Elems(pending) == taken - toDead
    ensures Distinct(dead + pending) && Elems(dead + pending) == taken && |dead| + |pending| == |taken|
    ensures forall t <- dead + pending :: t in db.tasks
    ensures ReapBulk(db, dead, pending, at) == ReapEach(db, dead + pending, at)
    ensures DbOk(ReapBulk(db, dead, pending, at))
  {
    ListingSplits(db, taken, toDead, dead, pending);
    BulkIsEach(db, dead, pending, at);
    assert forall t <- dead + pending :: t in Elems(dead + pending);
    ReapEachKeeps(db, dead + pending, at);
  }
}
