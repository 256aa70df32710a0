/**
 * How far the attempt budget can be overrun. A worker whose snapshot still has attempts left can
 * requeue whatever row is locked under its id, so each spare worker of an id buys one attempt more.
 */
module Overrun {
  import opened Common
  import opened Tables
  import opened Protocol

  // ---- Spare workers ----

  ghost function Names(ids: seq<string>, slots: set<nat>): set<string>
    requires forall i :: i in slots ==> i < |ids|
  {
    set i | i in slots :: ids[i]
  }

  /** Workers beyond one per id. */
  ghost function Slack(ids: seq<string>, slots: set<nat>): int
    requires forall i :: i in slots ==> i < |ids|
  {
    |slots| - |Names(ids, slots)|
  }

  ghost function Slots(n: nat): (slots: set<nat>)
    ensures |slots| == n && forall i: nat :: i in slots <==> i < n
  {
    if n == 0 then {} else Slots(n - 1) + {n - 1}
  }

  ghost function Excess(ids: seq<string>): int {
    |ids| - |Elems(ids)|
  }

  lemma SlackAdd(ids: seq<string>, slots: set<nat>, v: nat)
    requires (forall i :: i in slots ==> i < |ids|) && v < |ids| && v !in slots
    ensures Slack(ids, slots + {v}) == Slack(ids, slots) + if ids[v] in Names(ids, slots) then 1 else 0
  {
    assert Names(ids, slots + {v}) == Names(ids, slots) + {ids[v]};
  }

  lemma {:induction false} SlackGrows(ids: seq<string>, a: set<nat>, b: set<nat>)
    requires a <= b && forall i :: i in b ==> i < |ids|
    ensures Slack(ids, a) <= Slack(ids, b) && Names(ids, a) <= Names(ids, b)
    decreases |b - a|
  {
    if a != b {
      var v :| v in b && v !in a;
      assert b - (a + {v}) < b - a;
      SlackGrows(ids, a + {v}, b);
      SlackAdd(ids, a, v);
    }
  }

  lemma SlackOfAll(ids: seq<string>)
    ensures Slack(ids, Slots(|ids|)) == Excess(ids)
  {
    assert Names(ids, Slots(|ids|)) == Elems(ids);
  }

  lemma SlackBounds(ids: seq<string>, slots: set<nat>)
    requires forall i :: i in slots ==> i < |ids|
    ensures 0 <= Slack(ids, slots) <= Excess(ids)
  {
    assert Names(ids, {}) == {};
    SlackGrows(ids, {}, slots);
    SlackGrows(ids, slots, Slots(|ids|));
    SlackOfAll(ids);
  }

  lemma ExcessIffShared(ids: seq<string>)
    ensures Excess(ids) == 0 <==> Distinct(ids)
  {
    if Distinct(ids) {
      DistinctSize(ids);
    } else {
      var i, j :| 0 <= i < j < |ids| && ids[i] == ids[j];
      var rest := Slots(|ids|) - {j};
      assert i in rest && ids[i] in Names(ids, rest);
      SlackAdd(ids, rest, j);
      assert rest + {j} == Slots(|ids|);
      SlackBounds(ids, rest);
      SlackOfAll(ids);
    }
  }

  // ---- The bound ----

  predicate Retries(h: Option<Snapshot>, t: TaskId) {
    h.Some? && h.value.task == t && h.value.attempts < h.value.maxRetries
  }

  /** Slot `i` executes an attempt of `t` that its snapshot would retry. */
  predicate WouldRetry(s: Sys, i: nat, t: TaskId) {
    i < |s.held| && Retries(s.held[i], t)
  }

  ghost function Calm(s: Sys, t: TaskId): set<nat> {
    set i: nat | i < |s.held| && !WouldRetry(s, i, t)
  }

  /** Past its budget a row has used one spare worker per extra attempt, counted among the calm slots. */
  ghost predicate RowBound(ids: seq<string>, r: Row, calm: set<nat>)
    requires forall i :: i in calm ==> i < |ids|
  {
    var over := r.attempts - Max(1, r.maxRetries);
    && over <= Excess(ids)
    && (r.status == Pending && over >= 0 ==> over + 1 <= Slack(ids, calm))
    && (r.status == Running && over >= 0 ==>
          over <= Slack(ids, calm) && r.lockedBy.Some? && r.lockedBy.value in Names(ids, calm))
  }

  ghost predicate Bounded(ids: seq<string>, s: Sys)
    requires |s.held| == |ids|
  {
    forall t {:trigger Calm(s, t)} :: t in s.db.tasks ==> RowBound(ids, s.db.tasks[t], Calm(s, t))
  }

  lemma RowBoundGrows(ids: seq<string>, r: Row, a: set<nat>, b: set<nat>)
    requires a <= b && (forall i :: i in b ==> i < |ids|) && RowBound(ids, r, a)
    ensures RowBound(ids, r, b)
  {
    SlackGrows(ids, a, b);
  }

  /** Only a claim can take a slot out of the calm ones. */
  lemma CalmGrows(ids: seq<string>, s: Sys, step: Step, t: TaskId)
    requires |s.held| == |ids| && Enabled(ids, s, step) && !step.Claim?
    ensures Calm(s, t) <= Calm(Next(ids, s, step), t)
  {
  }

  lemma ClaimBound(ids: seq<string>, s: Sys, slot: nat, t0: TaskId, at: Time, t: TaskId)
    requires |s.held| == |ids| && Enabled(ids, s, Claim(slot, t0, at)) && t in s.db.tasks
    requires RowBound(ids, s.db.tasks[t], Calm(s, t))
    ensures var s' := Next(ids, s, Claim(slot, t0, at)); RowBound(ids, s'.db.tasks[t], Calm(s', t))
  {
    var s' := Next(ids, s, Claim(slot, t0, at));
    var r := s'.db.tasks[t];
    SlackBounds(ids, Calm(s, t));
    SlackBounds(ids, Calm(s', t));
    if t != t0 || r.attempts >= r.maxRetries {
      assert Calm(s', t) == Calm(s, t);
      assert slot in Calm(s', t) && ids[slot] in Names(ids, Calm(s', t));
    }
  }

  /** A requeue past the budget turns its own slot calm, and that slot is a spare of the locking id. */
  lemma FinishBound(ids: seq<string>, s: Sys, slot: nat, outcome: Outcome, at: Time, t: TaskId)
    requires |s.held| == |ids| && Enabled(ids, s, Finish(slot, outcome, at)) && t in s.db.tasks
    requires RowBound(ids, s.db.tasks[t], Calm(s, t))
    ensures var s' := Next(ids, s, Finish(slot, outcome, at)); RowBound(ids, s'.db.tasks[t], Calm(s', t))
  {
    var s' := Next(ids, s, Finish(slot, outcome, at));
    var snap := s.held[slot].value;
    CalmGrows(ids, s, Finish(slot, outcome, at), t);
    RowBoundGrows(ids, s.db.tasks[t], Calm(s, t), Calm(s', t));
    if t == snap.task && OwnedBy(s.db, t, ids[slot]) && outcome.Failed? && snap.attempts < snap.maxRetries {
      assert Calm(s', t) == Calm(s, t) + {slot};
      SlackAdd(ids, Calm(s, t), slot);
    }
  }

  lemma OtherBound(ids: seq<string>, s: Sys, step: Step, t: TaskId)
    requires |s.held| == |ids| && Enabled(ids, s, step) && !step.Claim? && !step.Finish? && !step.Insert?
    requires t in s.db.tasks && t in Next(ids, s, step).db.tasks && RowBound(ids, s.db.tasks[t], Calm(s, t))
    ensures RowBound(ids, Next(ids, s, step).db.tasks[t], Calm(Next(ids, s, step), t))
  {
    var s' := Next(ids, s, step);
    CalmGrows(ids, s, step, t);
    RowBoundGrows(ids, s.db.tasks[t], Calm(s, t), Calm(s', t));
    SlackBounds(ids, Calm(s', t));
    match step
    case Reap(order, _, at) => ReapEachRows(s.db, order, at);
    case _ =>
  }

  lemma InsertBound(ids: seq<string>, s: Sys, step: Step, t: TaskId)
    requires |s.held| == |ids| && Enabled(ids, s, step) && step.Insert? && t in Next(ids, s, step).db.tasks
    requires t in s.db.tasks ==> RowBound(ids, s.db.tasks[t], Calm(s, t))
    ensures RowBound(ids, Next(ids, s, step).db.tasks[t], Calm(Next(ids, s, step), t))
  {
    SlackBounds(ids, Calm(s, t));
    assert Calm(Next(ids, s, step), t) == Calm(s, t);
  }

  lemma StepKeepsBounded(ids: seq<string>, s: Sys, step: Step)
    requires |s.held| == |ids| && Enabled(ids, s, step) && Bounded(ids, s)
    ensures Bounded(ids, Next(ids, s, step))
  {
    var s' := Next(ids, s, step);
    forall t | t in s'.db.tasks
      ensures RowBound(ids, s'.db.tasks[t], Calm(s', t))
    {
      assert t in s.db.tasks ==> RowBound(ids, s.db.tasks[t], Calm(s, t));
      match step {
        case Insert(_, _, _, _) => InsertBound(ids, s, step, t);
        case Claim(slot, t0, at) => ClaimBound(ids, s, slot, t0, at, t);
        case Finish(slot, outcome, at) => FinishBound(ids, s, slot, outcome, at, t);
        case _ => OtherBound(ids, s, step, t);
      }
    }
  }

  lemma {:induction false} RunKeepsBounded(ids: seq<string>, s: Sys, steps: seq<Step>)
    requires |s.held| == |ids| && Run(ids, s, steps) && Bounded(ids, s)
    ensures Bounded(ids, Final(ids, s, steps))
    decreases |steps|
  {
    if steps != [] {
      StepKeepsBounded(ids, s, steps[0]);
      RunKeepsBounded(ids, Next(ids, s, steps[0]), steps[1..]);
    }
  }

  lemma ReachableBounded(ids: seq<string>, s: Sys)
    requires Reachable(ids, s)
    ensures |s.held| == |ids| && Bounded(ids, s)
  {
    var steps :| Run(ids, Start(|ids|), steps) && Final(ids, Start(|ids|), steps) == s;
    RunKeepsBounded(ids, Start(|ids|), steps);
  }

  /** Whatever the worker ids: attempts exceed the budget by at most the number of spare workers. */
  lemma OverrunBounded(ids: seq<string>, s: Sys, t: TaskId)
    requires Reachable(ids, s) && t in s.db.tasks
    ensures s.db.tasks[t].attempts <= Max(1, s.db.tasks[t].maxRetries) + |ids| - |Elems(ids)|
  {
    ReachableBounded(ids, s);
    assert RowBound(ids, s.db.tasks[t], Calm(s, t));
  }

  // ---- Rows with a single attempt ----

  /** No insert of the run uses an id that is in `used` or was used earlier in the run. */
  ghost predicate FreshIds(used: set<TaskId>, steps: seq<Step>)
    decreases |steps|
  {
    steps == [] ||
    if steps[0].Insert? then steps[0].id !in used && FreshIds(used + {steps[0].id}, steps[1..])
    else FreshIds(used, steps[1..])
  }

  ghost predicate FreshlyReachable(ids: seq<string>, s: Sys) {
    exists steps :: Run(ids, Start(|ids|), steps) && Final(ids, Start(|ids|), steps) == s && FreshIds({}, steps)
  }

  /** A snapshot counts at least its own attempt, and its budget is that of the row it was taken from. */
  ghost predicate SnapshotOk(db: Db, used: set<TaskId>, h: Option<Snapshot>) {
    h.Some? ==>
      && h.value.task in used && h.value.attempts >= 1
      && (h.value.task in db.tasks ==> h.value.maxRetries == db.tasks[h.value.task].maxRetries)
  }

  /** A row with no second attempt is never requeued, so it waits only before its first. */
  predicate SingleOk(r: Row) {
    && r.attempts >= 0
    && (r.maxRetries <= 1 ==> r.attempts <= 1)
    && (r.maxRetries <= 1 && r.status == Pending ==> r.attempts == 0)
    && (r.maxRetries <= 1 && r.status == Running ==> r.attempts == 1)
  }

  ghost predicate SnapshotsOk(s: Sys, used: set<TaskId>) {
    && s.db.tasks.Keys <= used
    && forall i :: 0 <= i < |s.held| ==> SnapshotOk(s.db, used, s.held[i])
  }

  ghost predicate SinglesOk(db: Db) {
    forall t :: t in db.tasks ==> SingleOk(db.tasks[t])
  }

  function Used(used: set<TaskId>, step: Step): set<TaskId> {
    if step.Insert? then used + {step.id} else used
  }

  lemma StepKeepsSnapshots(ids: seq<string>, s: Sys, used: set<TaskId>, step: Step)
    requires |s.held| == |ids| && Enabled(ids, s, step) && SnapshotsOk(s, used) && SinglesOk(s.db)
    requires step.Insert? ==> step.id !in used
    ensures SnapshotsOk(Next(ids, s, step), Used(used, step))
  {
    match step
    case Reap(order, _, at) => ReapEachRows(s.db, order, at);
    case _ =>
  }

  lemma StepKeepsSingles(ids: seq<string>, s: Sys, used: set<TaskId>, step: Step)
    requires |s.held| == |ids| && Enabled(ids, s, step) && SnapshotsOk(s, used) && SinglesOk(s.db)
    ensures SinglesOk(Next(ids, s, step).db)
  {
    match step
    case Reap(order, _, at) => ReapEachRows(s.db, order, at);
    case _ =>
  }

  lemma {:induction false} RunKeepsSingles(ids: seq<string>, s: Sys, used: set<TaskId>, steps: seq<Step>)
    requires |s.held| == |ids| && Run(ids, s, steps) && FreshIds(used, steps) && SnapshotsOk(s, used) && SinglesOk(s.db)
    ensures SinglesOk(Final(ids, s, steps).db)
    decreases |steps|
  {
    if steps != [] {
      StepKeepsSnapshots(ids, s, used, steps[0]);
      StepKeepsSingles(ids, s, used, steps[0]);
      RunKeepsSingles(ids, Next(ids, s, steps[0]), Used(used, steps[0]), steps[1..]);
    }
  }

  /** Spare workers beyond one per id, for rows that have a second attempt at all. */
  ghost function Overshoot(ids: seq<string>, maxRetries: int): int {
    if maxRetries >= 2 then |ids| - |Elems(ids)| else 0
  }

  /** While ids of removed tasks are not used again, a row overruns only if it has a second attempt. */
  lemma OvershootBounded(ids: seq<string>, s: Sys, t: TaskId)
    requires FreshlyReachable(ids, s) && t in s.db.tasks
    ensures s.db.tasks[t].attempts <= Max(1, s.db.tasks[t].maxRetries) + Overshoot(ids, s.db.tasks[t].maxRetries)
  {
    var steps :| Run(ids, Start(|ids|), steps) && Final(ids, Start(|ids|), steps) == s && FreshIds({}, steps);
    RunKeepsSingles(ids, Start(|ids|), {}, steps);
    OverrunBounded(ids, s, t);
  }
}
