/**
 * The playground's capacity gate: under one mutex, read the queue depth, then insert or revive.
 * Workers, reapers, cancels and retention run in between and take no mutex.
 */
module CapacityGate {
  import opened Common
  import opened Json
  import opened Tables
  import opened StoreInvariants
  import opened Protocol
  import opened TaskStore

  ghost function Live(db: Db): set<TaskId> {
    set t | t in db.tasks && (db.tasks[t].status == Pending || db.tasks[t].status == Running)
  }

  /** `pending + running`, as `ensureCapacity` reads it. */
  ghost function Depth(db: Db): nat {
    |Live(db)|
  }

  /** Two disjoint counts: rows waiting and rows being executed. */
  lemma DepthIs(db: Db)
    ensures Depth(db) ==
      |set t | t in db.tasks && db.tasks[t].status == Pending|
        + |set t | t in db.tasks && db.tasks[t].status == Running|
  {
    var pending := set t | t in db.tasks && db.tasks[t].status == Pending;
    var running := set t | t in db.tasks && db.tasks[t].status == Running;
    assert Live(db) == pending + running && pending !! running;
  }

  // ---- The gate as a machine ----

  /** Who holds the mutex: nobody, a batch with inserts still to do, or a retry of one task. */
  datatype Holder = Free | Inserting(left: nat) | Retrying(task: TaskId, checked: bool)

  /** `seen` is what each pending `RetryOwned` call read before it asked for the mutex. */
  datatype Gate = Gate(sys: Sys, holder: Holder, seen: map<nat, (TaskId, Status)>)

  datatype GateStep =
    | Work(step: Step)
    | Check(n: nat)
    | InsertOne(q: Request, hash: string, id: TaskId, at: Time)
    | Release
    | Look(call: nat, task: TaskId)
    | CheckRetry(call: nat)
    | DoRetry(at: Time)

  ghost predicate GateEnabled(ids: seq<string>, g: Gate, max: nat, step: GateStep)
    requires |g.sys.held| == |ids|
  {
    match step
    case Work(x) => Closed(x) && Enabled(ids, g.sys, x)
    case Check(n) => g.holder.Free? && Depth(g.sys.db) + n <= max
    case InsertOne(q, hash, id, at) =>
      g.holder.Inserting? && g.holder.left > 0 && Enabled(ids, g.sys, Insert(q, hash, id, at))
    case Release => !g.holder.Free?
    case Look(call, t) => call !in g.seen && t in g.sys.db.tasks
    case CheckRetry(call) =>
      && g.holder.Free? && call in g.seen
      && (g.seen[call].1 == Dead ==> Depth(g.sys.db) + 1 <= max)
    case DoRetry(at) => g.holder.Retrying? && Enabled(ids, g.sys, RetryDead(g.holder.task, at))
  }

  ghost function GateNext(ids: seq<string>, g: Gate, max: nat, step: GateStep): (g': Gate)
    requires |g.sys.held| == |ids| && GateEnabled(ids, g, max, step)
    ensures |g'.sys.held| == |ids|
  {
    match step
    case Work(x) => g.(sys := Next(ids, g.sys, x))
    case Check(n) => g.(holder := Inserting(n))
    case InsertOne(q, hash, id, at) =>
      g.(sys := Next(ids, g.sys, Insert(q, hash, id, at)), holder := Inserting(g.holder.left - 1))
    case Release => g.(holder := Free)
    case Look(call, t) => g.(seen := g.seen[call := (t, g.sys.db.tasks[t].status)])
    case CheckRetry(call) =>
      g.(holder := Retrying(g.seen[call].0, g.seen[call].1 == Dead), seen := g.seen - {call})
    case DoRetry(at) => g.(sys := Next(ids, g.sys, RetryDead(g.holder.task, at)), holder := Free)
  }

  // ---- Depth along steps ----

  /** Nothing that runs outside the mutex makes the queue deeper. */
  lemma BackgroundKeepsDepth(ids: seq<string>, s: Sys, step: Step)
    requires |s.held| == |ids| && Enabled(ids, s, step) && Closed(step)
    ensures Depth(Next(ids, s, step).db) <= Depth(s.db)
  {
    match step {
      case Reap(order, _, at) => ReapEachRows(s.db, order, at);
      case _ =>
    }
    SubsetSize(Live(Next(ids, s, step).db), Live(s.db));
  }

  lemma InsertDeepens(db: Db, q: Request, hash: string, id: TaskId, at: Time)
    ensures Depth(InsertTx(db, q, hash, id, at).0) <= Depth(db) + 1
  {
    SubsetSize(Live(InsertTx(db, q, hash, id, at).0), Live(db) + {id});
  }

  lemma RetryDeepens(db: Db, t: TaskId, at: Time)
    ensures Depth(RetryDeadTx(db, t, at)) ==
      Depth(db) + if t in db.tasks && db.tasks[t].status == Dead then 1 else 0
  {
    if t in db.tasks && db.tasks[t].status == Dead {
      assert Live(RetryDeadTx(db, t, at)) == Live(db) + {t};
    }
  }

  // ---- The cap ----

  /** Room the mutex holder has been granted and not used yet. */
  function Granted(h: Holder): nat {
    match h
    case Free => 0
    case Inserting(left) => left
    case Retrying(_, checked) => if checked then 1 else 0
  }

  ghost predicate WithinCap(g: Gate, max: nat) {
    Depth(g.sys.db) + Granted(g.holder) <= max
  }

  ghost predicate IsDead(db: Db, t: TaskId) {
    t in db.tasks && db.tasks[t].status == Dead
  }

  /** A retry that passed the gate unchecked revives its task into a full queue. */
  ghost predicate Overfilling(g: Gate, max: nat, step: GateStep) {
    && step.DoRetry? && g.holder.Retrying? && !g.holder.checked
    && IsDead(g.sys.db, g.holder.task) && Depth(g.sys.db) >= max
  }

  lemma GateStepIff(ids: seq<string>, g: Gate, max: nat, step: GateStep)
    requires |g.sys.held| == |ids| && GateEnabled(ids, g, max, step) && WithinCap(g, max)
    ensures Depth(GateNext(ids, g, max, step).sys.db) <= max <==> !Overfilling(g, max, step)
    ensures !Overfilling(g, max, step) ==> WithinCap(GateNext(ids, g, max, step), max)
  {
    match step
    case Work(x) => BackgroundKeepsDepth(ids, g.sys, x);
    case InsertOne(q, hash, id, at) => InsertDeepens(g.sys.db, q, hash, id, at);
    case DoRetry(at) => RetryDeepens(g.sys.db, g.holder.task, at);
    case _ =>
  }

  ghost predicate GateRun(ids: seq<string>, g: Gate, max: nat, steps: seq<GateStep>)
    requires |g.sys.held| == |ids|
    decreases |steps|
  {
    steps == [] ||
    (GateEnabled(ids, g, max, steps[0]) && GateRun(ids, GateNext(ids, g, max, steps[0]), max, steps[1..]))
  }

  ghost function GateFinal(ids: seq<string>, g: Gate, max: nat, steps: seq<GateStep>): (g': Gate)
    requires |g.sys.held| == |ids| && GateRun(ids, g, max, steps)
    ensures |g'.sys.held| == |ids|
    decreases |steps|
  {
    if steps == [] then g else GateFinal(ids, GateNext(ids, g, max, steps[0]), max, steps[1..])
  }

  /** Pending plus running is at most `max` in every state of the run. */
  ghost predicate CapAlong(ids: seq<string>, g: Gate, max: nat, steps: seq<GateStep>)
    requires |g.sys.held| == |ids| && GateRun(ids, g, max, steps)
    decreases |steps|
  {
    && Depth(g.sys.db) <= max
    && (steps == [] || CapAlong(ids, GateNext(ids, g, max, steps[0]), max, steps[1..]))
  }

  ghost predicate NeverOverfills(ids: seq<string>, g: Gate, max: nat, steps: seq<GateStep>)
    requires |g.sys.held| == |ids| && GateRun(ids, g, max, steps)
    decreases |steps|
  {
    steps == [] ||
    (!Overfilling(g, max, steps[0]) && NeverOverfills(ids, GateNext(ids, g, max, steps[0]), max, steps[1..]))
  }

  /**
   * In any run from within the cap, whatever workers, reapers, cancels and retention do in
   * between: pending plus running never exceeds the cap exactly when no unchecked retry finds its
   * task DEAD and the queue full.
   */
  lemma {:induction false} CapIff(ids: seq<string>, g: Gate, max: nat, steps: seq<GateStep>)
    requires |g.sys.held| == |ids| && WithinCap(g, max) && GateRun(ids, g, max, steps)
    ensures CapAlong(ids, g, max, steps) <==> NeverOverfills(ids, g, max, steps)
    decreases |steps|
  {
    if steps != [] {
      var g' := GateNext(ids, g, max, steps[0]);
      GateStepIff(ids, g, max, steps[0]);
      if !Overfilling(g, max, steps[0]) {
        CapIff(ids, g', max, steps[1..]);
      }
    }
  }

  /** The retries the gate covers: those whose first read saw the task DEAD. */
  predicate Covered(g: Gate, step: GateStep) {
    step.CheckRetry? && step.call in g.seen ==> g.seen[step.call].1 == Dead
  }

  ghost predicate AllCovered(ids: seq<string>, g: Gate, max: nat, steps: seq<GateStep>)
    requires |g.sys.held| == |ids| && GateRun(ids, g, max, steps)
    decreases |steps|
  {
    steps == [] || (Covered(g, steps[0]) && AllCovered(ids, GateNext(ids, g, max, steps[0]), max, steps[1..]))
  }

  ghost predicate NoUncheckedRetry(h: Holder) {
    h.Retrying? ==> h.checked
  }

  lemma {:induction false} CoveredNeverOverfills(ids: seq<string>, g: Gate, max: nat, steps: seq<GateStep>)
    requires |g.sys.held| == |ids| && NoUncheckedRetry(g.holder)
    requires GateRun(ids, g, max, steps) && AllCovered(ids, g, max, steps)
    ensures NeverOverfills(ids, g, max, steps)
    decreases |steps|
  {
    if steps != [] {
      CoveredNeverOverfills(ids, GateNext(ids, g, max, steps[0]), max, steps[1..]);
    }
  }

  /** So the cap holds throughout every run whose retries all saw DEAD first. */
  lemma CapHolds(ids: seq<string>, g: Gate, max: nat, steps: seq<GateStep>)
    requires |g.sys.held| == |ids| && WithinCap(g, max) && NoUncheckedRetry(g.holder)
    requires GateRun(ids, g, max, steps) && AllCovered(ids, g, max, steps)
    ensures CapAlong(ids, g, max, steps)
  {
    CoveredNeverOverfills(ids, g, max, steps);
    CapIff(ids, g, max, steps);
  }

  // ---- Runs the gate does not cover ----

  const JOB := Request("echo", Null, None, 0, 1, 0.0)

  ghost predicate Leads(ids: seq<string>, max: nat, g: Gate, g': Gate)
    requires |g.sys.held| == |ids|
  {
    exists steps :: GateRun(ids, g, max, steps) && GateFinal(ids, g, max, steps) == g'
  }

  /** Paths extend at the front, one enabled step at a time. */
  lemma LeadsBack(ids: seq<string>, max: nat, g: Gate, step: GateStep, g': Gate)
    requires |g.sys.held| == |ids| && GateEnabled(ids, g, max, step) && Leads(ids, max, GateNext(ids, g, max, step), g')
    ensures Leads(ids, max, g, g')
  {
    var steps :|
      && GateRun(ids, GateNext(ids, g, max, step), max, steps)
      && GateFinal(ids, GateNext(ids, g, max, step), max, steps) == g';
    assert ([step] + steps)[1..] == steps;
    assert GateRun(ids, g, max, [step] + steps) && GateFinal(ids, g, max, [step] + steps) == g';
  }

  /** One dead task, a retry of it that read RUNNING, and a queue of tasks `1..n`. */
  ghost predicate DeadWaiting(ids: seq<string>, g: Gate, n: nat) {
    && |g.sys.held| == |ids| && g.sys.now >= 0.0 && g.seen == map[0 := (0, Running)]
    && IsDead(g.sys.db, 0) && Depth(g.sys.db) == n && forall t :: t in g.sys.db.tasks ==> t <= n
  }

  /** The retry, not checked because it had seen RUNNING, revives the task into a full queue. */
  lemma RevivesIntoFull(ids: seq<string>, max: nat, g: Gate) returns (g': Gate)
    requires DeadWaiting(ids, g, max) && g.holder == Inserting(0)
    ensures Leads(ids, max, g, g') && Depth(g'.sys.db) == max + 1
  {
    var g1 := GateNext(ids, g, max, Release);
    var g2 := GateNext(ids, g1, max, CheckRetry(0));
    g' := GateNext(ids, g2, max, DoRetry(0.0));
    RetryDeepens(g2.sys.db, 0, 0.0);
    assert GateRun(ids, g', max, []);
    LeadsBack(ids, max, g2, DoRetry(0.0), g');
    LeadsBack(ids, max, g1, CheckRetry(0), g');
    LeadsBack(ids, max, g, Release, g');
  }

  lemma {:induction false} FillsAndRevives(ids: seq<string>, max: nat, g: Gate, n: nat) returns (g': Gate)
    requires n <= max && DeadWaiting(ids, g, n) && g.holder == Inserting(max - n)
    ensures Leads(ids, max, g, g') && Depth(g'.sys.db) == max + 1
    decreases max - n
  {
    if n == max {
      g' := RevivesIntoFull(ids, max, g);
    } else {
      var insert := InsertOne(JOB, "", n + 1, 0.0);
      var g1 := GateNext(ids, g, max, insert);
      InsertMiss(g.sys.db, JOB, "", n + 1, 0.0);
      assert Live(g1.sys.db) == Live(g.sys.db) + {n + 1};
      g' := FillsAndRevives(ids, max, g1, n + 1);
      LeadsBack(ids, max, g, insert, g');
    }
  }

  /** While a worker runs the task a retry reads its status; then it dies and a full batch is granted. */
  lemma DiesAndOverfills(ids: seq<string>, max: nat, g: Gate) returns (g': Gate)
    requires ids != [] && |g.sys.held| == |ids| && g.sys.held[0].None? && g.sys.now >= 0.0
    requires g.holder.Free? && g.seen == map[] && g.sys.db.tasks == map[0 := NewRow(JOB, "", 0.0)]
    ensures Leads(ids, max, g, g') && Depth(g'.sys.db) == max + 1
  {
    var claim, finish := Work(Step.Claim(0, 0, 0.0)), Work(Finish(0, NoHandler(""), 0.0));
    var g1 := GateNext(ids, g, max, claim);
    var g2 := GateNext(ids, g1, max, Look(0, 0));
    var g3 := GateNext(ids, g2, max, finish);
    assert Live(g3.sys.db) == {};
    var g4 := GateNext(ids, g3, max, Check(max));
    g' := FillsAndRevives(ids, max, g4, 0);
    LeadsBack(ids, max, g3, Check(max), g');
    LeadsBack(ids, max, g2, finish, g');
    LeadsBack(ids, max, g1, Look(0, 0), g');
    LeadsBack(ids, max, g, claim, g');
  }

  /** Any cap of at least one task is exceeded in some run of any worker pool. */
  lemma UncoveredRetryOverfills(ids: seq<string>, max: nat)
    requires ids != [] && max >= 1
    ensures exists steps ::
      && GateRun(ids, Gate(Start(|ids|), Free, map[]), max, steps)
      && Depth(GateFinal(ids, Gate(Start(|ids|), Free, map[]), max, steps).sys.db) == max + 1
  {
    var g := Gate(Start(|ids|), Free, map[]);
    assert Live(EMPTY) == {};
    var insert := InsertOne(JOB, "", 0, 0.0);
    var g1 := GateNext(ids, g, max, Check(1));
    InsertMiss(EMPTY, JOB, "", 0, 0.0);
    var g2 := GateNext(ids, g1, max, insert);
    var g3 := GateNext(ids, g2, max, Release);
    assert g3.sys.db.tasks == map[0 := NewRow(JOB, "", 0.0)];
    var g' := DiesAndOverfills(ids, max, g3);
    LeadsBack(ids, max, g2, Release, g');
    LeadsBack(ids, max, g1, insert, g');
    LeadsBack(ids, max, g, Check(1), g');
  }

  // ---- The scenario loops ----

  ghost predicate KeysFree(db: Db, kind: string, keys: seq<string>, i: nat) {
    forall t, j :: i <= j < |keys| ==> !HoldsKey(db, t, kind, keys[j])
  }

  /** `tasks` with the first `i` rows of a batch added. */
  ghost predicate BatchAdded(
    before: map<TaskId, Row>, tasks: map<TaskId, Row>, rows: seq<Row>, ids: seq<TaskId>, i: nat)
    requires i <= |rows| == |ids|
  {
    && tasks.Keys == before.Keys + Elems(ids[..i])
    && (forall t :: t in before ==> tasks[t] == before[t])
    && forall k :: 0 <= k < i ==> ids[k] in tasks && tasks[ids[k]] == rows[k]
  }

  lemma BatchAddedStep(
    before: map<TaskId, Row>, tasks: map<TaskId, Row>, rows: seq<Row>, ids: seq<TaskId>, i: nat)
    requires i < |rows| == |ids| && Distinct(ids) && ids[i] !in before && BatchAdded(before, tasks, rows, ids, i)
    ensures ids[i] !in tasks
    ensures BatchAdded(before, tasks[ids[i] := rows[i]], rows, ids, i + 1)
  {
    assert ids[..i + 1] == ids[..i] + [ids[i]];
    assert ids[i] !in ids[..i];
  }

  /** The tables after the first `i` inserts of a batch: rows added, depth accounted, keys to come free. */
  ghost predicate BatchState(before: Db, db: Db, kind: string, rows: seq<Row>, ids: seq<TaskId>, keys: seq<string>, i: nat)
    requires i <= |rows| == |ids| == |keys|
  {
    && BatchAdded(before.tasks, db.tasks, rows, ids, i)
    && Depth(db) <= Depth(before) + i
    && KeysFree(db, kind, keys, i)
  }

  lemma BatchStart(db: Db, kind: string, rows: seq<Row>, ids: seq<TaskId>, keys: seq<string>)
    requires |rows| == |ids| == |keys| && KeysFree(db, kind, keys, 0)
    ensures BatchState(db, db, kind, rows, ids, keys, 0)
  {
    assert ids[..0] == [];
  }

  lemma BatchStep(
    before: Db, db: Db, rows: seq<Row>, ids: seq<TaskId>, keys: seq<string>, i: nat, q: Request, hash: string, at: Time)
    requires i < |rows| == |ids| == |keys| && Distinct(ids) && Distinct(keys) && ids[i] !in before.tasks
    requires q.key == Some(keys[i]) && rows[i] == NewRow(q, hash, at)
    requires BatchState(before, db, q.kind, rows, ids, keys, i)
    ensures ids[i] !in db.tasks
    ensures BatchState(before, InsertTx(db, q, hash, ids[i], at).0, q.kind, rows, ids, keys, i + 1)
  {
    assert forall t :: !HoldsKey(db, t, q.kind, keys[i]);
    BatchAddedStep(before.tasks, db.tasks, rows, ids, i);
    InsertMiss(db, q, hash, ids[i], at);
    InsertDeepens(db, q, hash, ids[i], at);
    KeysStayFree(db, InsertTx(db, q, hash, ids[i], at).0, q.kind, keys, i, ids[i]);
  }

  lemma KeysStayFree(db: Db, db': Db, kind: string, keys: seq<string>, i: nat, id: TaskId)
    requires Distinct(keys) && i < |keys| && KeysFree(db, kind, keys, i)
    requires id in db'.tasks && db'.tasks == db.tasks[id := db'.tasks[id]] && db'.tasks[id].key == Some(keys[i])
    ensures KeysFree(db', kind, keys, i + 1)
  {
    forall t, j | i + 1 <= j < |keys|
      ensures !HoldsKey(db', t, kind, keys[j])
    {
      assert !HoldsKey(db, t, kind, keys[j]) && keys[j] != keys[i];
    }
  }

  /** A row as an insert of `q` at `at` leaves it. */
  predicate IsNew(r: Row, q: Request, at: Time) {
    && r.kind == q.kind && r.payload == q.payload && r.key == q.key && r.priority == q.priority
    && r.maxRetries == q.maxRetries && r.runAt == q.runAt && r.createdAt == at
    && r.status == Pending && r.attempts == 0
  }

  class Service {
    const store: Store
    const maxPending: nat

    constructor (store: Store, maxPending: nat)
      ensures this.store == store && this.maxPending == maxPending
    {
      this.store := store;
      this.maxPending := maxPending;
    }

    /** The queue depth is read once; a batch that would not fit inserts nothing. */
    method EnsureCapacity(n: nat) returns (full: bool)
      ensures full <==> Depth(store.Db()) + n > maxPending
    {
      var current := set t | t in store.tasks && (store.tasks[t].status == Pending || store.tasks[t].status == Running);
      assert current == Live(store.Db());
      full := |current| + n > maxPending;
    }

    /** The rows a batch asks for. */
    ghost function BatchRows(kind: string, payloads: seq<Value>, keys: seq<string>, maxRetries: int, at: Time): seq<Row>
      requires |keys| == |payloads|
    {
      seq(|payloads|, i requires 0 <= i < |payloads| =>
        NewRow(Request(kind, payloads[i], Some(keys[i]), 0, maxRetries, at), store.sha256(Print(payloads[i])), at))
    }

    lemma BatchIsNew(
      kind: string, payloads: seq<Value>, keys: seq<string>, maxRetries: int, ids: seq<TaskId>, at: Time,
      before: map<TaskId, Row>, tasks: map<TaskId, Row>)
      requires |ids| == |keys| == |payloads|
      requires BatchAdded(before, tasks, BatchRows(kind, payloads, keys, maxRetries, at), ids, |ids|)
      ensures forall k :: 0 <= k < |ids| ==>
        && ids[k] in tasks
        && IsNew(tasks[ids[k]], Request(kind, payloads[k], Some(keys[k]), 0, maxRetries, at), at)
    {
      forall k | 0 <= k < |ids|
        ensures ids[k] in tasks
        ensures IsNew(tasks[ids[k]], Request(kind, payloads[k], Some(keys[k]), 0, maxRetries, at), at)
      {
        var q := Request(kind, payloads[k], Some(keys[k]), 0, maxRetries, at);
        assert BatchRows(kind, payloads, keys, maxRetries, at)[k] == NewRow(q, store.sha256(Print(payloads[k])), at);
      }
    }

    /** One turn of the batch loop. */
    method EnqueueNext(
      kind: string, payload: Value, keys: seq<string>, maxRetries: int, ids: seq<TaskId>, at: Time, i: nat,
      ghost before: Db, ghost rows: seq<Row>)
      requires i < |ids| == |keys| == |rows| && Distinct(ids) && ids[i] !in before.tasks && Distinct(keys)
      requires rows[i] ==
        NewRow(Request(kind, payload, Some(keys[i]), 0, maxRetries, at), store.sha256(Print(payload)), at)
      requires store.Valid() && BatchState(before, store.Db(), kind, rows, ids, keys, i)
      modifies store
      ensures store.Valid() && BatchState(before, store.Db(), kind, rows, ids, keys, i + 1)
    {
      ghost var q := Request(kind, payload, Some(keys[i]), 0, maxRetries, at);
      BatchStep(before, store.Db(), rows, ids, keys, i, q, store.sha256(Print(payload)), at);
      var r := store.Insert(kind, Some(payload), Some(keys[i]), 0, maxRetries, at, ids[i], at);
    }

    /** The batch loop, from a state in which its ids and keys are free. */
    method EnqueueAll(
      kind: string, payloads: seq<Value>, keys: seq<string>, maxRetries: int, ids: seq<TaskId>, at: Time,
      ghost before: Db, ghost rows: seq<Row>)
      returns (taskIds: seq<TaskId>)
      requires |ids| == |keys| == |payloads| && rows == BatchRows(kind, payloads, keys, maxRetries, at)
      requires Distinct(ids) && Distinct(keys) && forall id <- ids :: id !in before.tasks
      requires store.Valid() && BatchState(before, store.Db(), kind, rows, ids, keys, 0)
      modifies store
      ensures store.Valid() && taskIds == ids
      ensures BatchState(before, store.Db(), kind, rows, ids, keys, |ids|)
    {
      taskIds := [];
      for i := 0 to |payloads|
        invariant store.Valid() && |taskIds| == i && forall k :: 0 <= k < i ==> taskIds[k] == ids[k]
        invariant BatchState(before, store.Db(), kind, rows, ids, keys, i)
      {
        assert ids[i] in ids;
        EnqueueNext(kind, payloads[i], keys, maxRetries, ids, at, i, before, rows);
        taskIds := taskIds + [ids[i]];
      }
    }

    /** A scenario batch under fresh keys, undisturbed: all of it or none, and never past the cap. */
    method EnqueueBatch(kind: string, payloads: seq<Value>, keys: seq<string>, maxRetries: int, ids: seq<TaskId>, at: Time)
      returns (queueFull: bool, taskIds: seq<TaskId>)
      requires |ids| == |keys| == |payloads| && Distinct(ids) && forall id <- ids :: id !in store.tasks
      requires Distinct(keys) && KeysFree(store.Db(), kind, keys, 0)
      requires store.Valid()
      modifies store
      ensures store.Valid()
      ensures queueFull <==> old(Depth(store.Db())) + |payloads| > maxPending
      ensures queueFull ==> store.Db() == old(store.Db()) && taskIds == []
      ensures !queueFull ==> taskIds == ids && Depth(store.Db()) <= maxPending
      ensures !queueFull ==>
        BatchAdded(old(store.tasks), store.tasks, BatchRows(kind, payloads, keys, maxRetries, at), ids, |ids|)
      ensures !queueFull ==> forall k :: 0 <= k < |ids| ==>
        && ids[k] in store.tasks
        && IsNew(store.tasks[ids[k]], Request(kind, payloads[k], Some(keys[k]), 0, maxRetries, at), at)
    {
      taskIds := [];
      queueFull := EnsureCapacity(|payloads|);
      if !queueFull {
        ghost var rows := BatchRows(kind, payloads, keys, maxRetries, at);
        BatchStart(store.Db(), kind, rows, ids, keys);
        taskIds := EnqueueAll(kind, payloads, keys, maxRetries, ids, at, store.Db(), rows);
        BatchIsNew(kind, payloads, keys, maxRetries, ids, at, old(store.tasks), store.tasks);
      }
    }
  }
}
