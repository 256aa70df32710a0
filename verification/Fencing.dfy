/**
 * Fencing and the attempt budget. `MarkPending` checks neither the attempt count nor which claim
 * it ends, so what is proved here rests on no two workers sharing an id; `SharedIds` shows that it
 * holds exactly then.
 */
module Fencing {
  import opened Common
  import opened Tables
  import opened Protocol

  /** A row locked by a worker that still executes a claim of it is under that very claim. */
  ghost predicate Fenced(ids: seq<string>, s: Sys)
    requires |s.held| == |ids|
  {
    forall i :: 0 <= i < |ids| && s.held[i].Some? && OwnedBy(s.db, s.held[i].value.task, ids[i]) ==>
      var snap := s.held[i].value;
      var r := s.db.tasks[snap.task];
      && snap.task in s.lease && s.lease[snap.task] == snap.claimNo
      && r.attempts == snap.attempts && r.maxRetries == snap.maxRetries
  }

  predicate WithinBudget(r: Row) {
    && r.attempts <= Max(1, r.maxRetries)
    && (r.status == Pending ==> r.attempts == 0 || r.attempts < r.maxRetries)
  }

  ghost predicate Budget(db: Db) {
    forall t :: t in db.tasks ==> WithinBudget(db.tasks[t])
  }

  lemma StepKeepsFenced(ids: seq<string>, s: Sys, step: Step)
    requires |s.held| == |ids| && Enabled(ids, s, step) && Distinct(ids)
    requires Fenced(ids, s)
    ensures Fenced(ids, Next(ids, s, step))
  {
    match step
    case Reap(order, _, at) => ReapEachRows(s.db, order, at);
    case _ =>
  }

  /** The only step that relies on a snapshot is a failed attempt, and fencing makes it current. */
  lemma StepKeepsBudget(ids: seq<string>, s: Sys, step: Step)
    requires |s.held| == |ids| && Enabled(ids, s, step)
    requires Fenced(ids, s) && Budget(s.db)
    ensures Budget(Next(ids, s, step).db)
  {
    match step
    case Reap(order, _, at) => ReapEachRows(s.db, order, at);
    case _ =>
  }

  lemma {:induction false} RunKeepsBudget(ids: seq<string>, s: Sys, steps: seq<Step>)
    requires |s.held| == |ids| && Run(ids, s, steps) && Distinct(ids)
    requires Fenced(ids, s) && Budget(s.db)
    ensures Fenced(ids, Final(ids, s, steps)) && Budget(Final(ids, s, steps).db)
    decreases |steps|
  {
    if steps != [] {
      StepKeepsFenced(ids, s, steps[0]);
      StepKeepsBudget(ids, s, steps[0]);
      RunKeepsBudget(ids, Next(ids, s, steps[0]), steps[1..]);
    }
  }

  lemma ReachableWithinBudget(ids: seq<string>, s: Sys)
    requires Distinct(ids) && Reachable(ids, s)
    ensures |s.held| == |ids| && Fenced(ids, s) && Budget(s.db)
  {
    var steps :| Run(ids, Start(|ids|), steps) && Final(ids, Start(|ids|), steps) == s;
    RunKeepsBudget(ids, Start(|ids|), steps);
  }

  /**
   * Retry or die is decided from a snapshot that may be long out of date, yet a failure that is
   * recorded at all is decided as the current row would have it.
   */
  lemma StaleDecisionIsCurrent(ids: seq<string>, s: Sys, i: nat, err: string, next: Time, at: Time)
    requires Distinct(ids) && Reachable(ids, s) && |s.held| == |ids| && i < |ids| && s.held[i].Some?
    requires OwnedBy(s.db, s.held[i].value.task, ids[i])
    ensures var t := s.held[i].value.task;
      var r := s.db.tasks[t];
      OutcomeTx(s.db, s.held[i].value, ids[i], Failed(err, next), at).tasks ==
      s.db.tasks[t := if r.attempts >= r.maxRetries then DeadRow(r, err, at) else RequeueRow(r, err, next, at)]
  {
    ReachableWithinBudget(ids, s);
  }

  // ---- An outcome that arrives after its claim was taken away ----

  /** Claim `c` of `t` is over: it was committed, and `t` is not RUNNING under it. */
  ghost predicate Over(s: Sys, t: TaskId, c: nat) {
    c < s.claims && (t in RunningSet(s.db) ==> t in s.lease && s.lease[t] != c)
  }

  lemma StepKeepsOver(ids: seq<string>, s: Sys, step: Step, t: TaskId, c: nat)
    requires |s.held| == |ids| && Enabled(ids, s, step) && Over(s, t, c)
    ensures Over(Next(ids, s, step), t, c)
  {
    match step
    case Reap(order, _, at) => ReapEachRows(s.db, order, at);
    case _ =>
  }

  lemma {:induction false} RunKeepsOver(ids: seq<string>, s: Sys, steps: seq<Step>, t: TaskId, c: nat)
    requires |s.held| == |ids| && Run(ids, s, steps) && Over(s, t, c)
    ensures Over(Final(ids, s, steps), t, c)
    decreases |steps|
  {
    if steps != [] {
      StepKeepsOver(ids, s, steps[0], t, c);
      RunKeepsOver(ids, Next(ids, s, steps[0]), steps[1..], t, c);
    }
  }

  /**
   * Once a reap takes a task from a worker, no outcome that worker later writes for that claim
   * changes any table or counter, whatever happened in between and whoever holds the task now.
   */
  lemma ReapedOutcomeIsIgnored(
    ids: seq<string>, s: Sys, i: nat, order: seq<TaskId>, threshold: Time, reapAt: Time,
    later: seq<Step>, outcome: Outcome, at: Time)
    requires Distinct(ids) && Reachable(ids, s)
    requires |s.held| == |ids| && i < |ids| && s.held[i].Some? && s.held[i].value.task in order
    requires Enabled(ids, s, Reap(order, threshold, reapAt))
    requires Run(ids, Next(ids, s, Reap(order, threshold, reapAt)), later)
    requires Final(ids, Next(ids, s, Reap(order, threshold, reapAt)), later).held[i] == s.held[i]
    ensures var s2 := Final(ids, Next(ids, s, Reap(order, threshold, reapAt)), later);
      OutcomeTx(s2.db, s.held[i].value, ids[i], outcome, at) == s2.db
  {
    var snap := s.held[i].value;
    var s1 := Next(ids, s, Reap(order, threshold, reapAt));
    var s2 := Final(ids, s1, later);
    ReachableOk(ids, s);
    ReachableWithinBudget(ids, s);
    StepKeepsFenced(ids, s, Reap(order, threshold, reapAt));
    StepKeepsBudget(ids, s, Reap(order, threshold, reapAt));
    RunKeepsBudget(ids, s1, later);
    ReapEachRows(s.db, order, reapAt);
    assert Over(s1, snap.task, snap.claimNo);
    RunKeepsOver(ids, s1, later, snap.task, snap.claimNo);
    assert !OwnedBy(s2.db, snap.task, ids[i]);
  }
}
