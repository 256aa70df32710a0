/** What a task's audit log says, stated without replaying it, and that it always says it. */
module AuditLog {
  import opened Common
  import opened Tables
  import opened StoreInvariants
  import opened Protocol

  predicate LegalEdge(from: Status, to: Status) {
    match from
    case Pending => to == Running || to == Canceled
    case Running => to == Completed || to == Pending || to == Dead
    case Dead => to == Pending
    case _ => false
  }

  function Previous(log: seq<Status>, i: nat): Status
    requires i <= |log|
  {
    if i == 0 then Pending else log[i - 1]
  }

  /** Each entry follows the one before it; the first follows a fresh PENDING row. */
  ghost predicate Legal(log: seq<Status>) {
    forall i :: 0 <= i < |log| ==> LegalEdge(Previous(log, i), log[i])
  }

  /** Where the current attempt budget starts: after the last PENDING that directly follows DEAD. */
  function BudgetStart(log: seq<Status>): (k: nat)
    ensures k <= |log|
    ensures k > 0 ==> k > 1 && log[k - 1] == Pending && log[k - 2] == Dead
    ensures forall i :: k < i < |log| ==> !(log[i] == Pending && log[i - 1] == Dead)
  {
    if |log| < 2 then 0
    else if log[|log| - 1] == Pending && log[|log| - 2] == Dead then |log|
    else BudgetStart(log[..|log| - 1])
  }

  function Count(log: seq<Status>, st: Status): nat {
    if log == [] then 0 else Count(log[..|log| - 1], st) + if log[|log| - 1] == st then 1 else 0
  }

  function Claims(log: seq<Status>): nat {
    Count(log[BudgetStart(log)..], Running)
  }

  lemma ClaimsAppend(log: seq<Status>, to: Status)
    ensures Claims(log + [to]) ==
      if to == Pending && log != [] && log[|log| - 1] == Dead then 0
      else Claims(log) + if to == Running then 1 else 0
  {
    var all := log + [to];
    assert all[..|all| - 1] == log;
    var k := BudgetStart(log);
    if !(to == Pending && log != [] && log[|log| - 1] == Dead) {
      assert BudgetStart(all) == k;
      assert all[k..] == log[k..] + [to];
      assert all[k..][..|all[k..]| - 1] == log[k..];
    }
  }

  lemma EdgeMeaning(from: Status, attempts: int, to: Status)
    ensures Edge(from, attempts, to).Some? <==> LegalEdge(from, to)
    ensures LegalEdge(from, to) ==>
      Edge(from, attempts, to) == Some(if from == Dead then 0 else attempts + if to == Running then 1 else 0)
  {
  }

  /** One entry more: what it adds to the replay and what it adds to the closed form agree. */
  lemma ReplayMeaningStep(init: seq<Status>, to: Status)
    requires Legal(init) && Replay(init) == Some((Previous(init, |init|), Claims(init)))
    ensures Replay(init + [to]).Some? <==> LegalEdge(Previous(init, |init|), to)
    ensures LegalEdge(Previous(init, |init|), to) ==> Replay(init + [to]) == Some((to, Claims(init + [to])))
  {
    ReplayAppend(init, to);
    EdgeMeaning(Previous(init, |init|), Claims(init), to);
    ClaimsAppend(init, to);
  }

  /** Replay succeeds exactly on legal logs, ends in the last status and counts claims since the last revival. */
  lemma {:induction false} ReplayMeaning(log: seq<Status>)
    ensures Replay(log).Some? <==> Legal(log)
    ensures Legal(log) ==> Replay(log).value == (Previous(log, |log|), Claims(log))
    decreases |log|
  {
    if log != [] {
      var init, to := log[..|log| - 1], log[|log| - 1];
      assert log == init + [to];
      LegalPrefix(log);
      ReplayMeaning(init);
      if Legal(init) {
        ReplayMeaningStep(init, to);
      }
    }
  }

  lemma LegalPrefix(log: seq<Status>)
    requires log != []
    ensures Previous(log, |log| - 1) == Previous(log[..|log| - 1], |log| - 1)
    ensures Legal(log) <==> Legal(log[..|log| - 1]) && LegalEdge(Previous(log, |log| - 1), log[|log| - 1])
  {
    var init := log[..|log| - 1];
    assert forall i :: 0 <= i < |init| ==> init[i] == log[i] && Previous(init, i) == Previous(log, i);
  }

  /** Two claims of one task always have its return to PENDING in between. */
  lemma ClaimsSeparated(log: seq<Status>, i: nat, j: nat)
    requires Legal(log) && i < j < |log| && log[i] == Running && log[j] == Running
    ensures exists k :: i < k < j && log[k] == Pending
  {
    assert LegalEdge(Previous(log, j), log[j]);
    assert log[j - 1] == Pending;
  }

  /**
   * In every reachable state, under any worker ids, each task's log is a legal history that ends in
   * its current status, accounts for its attempt count, and separates its claims.
   */
  lemma ReachableHistory(ids: seq<string>, s: Sys, t: TaskId)
    requires Reachable(ids, s) && t in s.db.tasks
    ensures var log := ForTask(s.db.logs, t);
      && Legal(log)
      && s.db.tasks[t].status == Previous(log, |log|)
      && s.db.tasks[t].attempts == Claims(log)
      && forall i, j :: 0 <= i < j < |log| && log[i] == Running && log[j] == Running ==>
           exists k :: i < k < j && log[k] == Pending
  {
    ReachableOk(ids, s);
    assert TaskOk(s.db, t);
    var log := ForTask(s.db.logs, t);
    ReplayMeaning(log);
    forall i, j | 0 <= i < j < |log| && log[i] == Running && log[j] == Running
      ensures exists k :: i < k < j && log[k] == Pending
    {
      ClaimsSeparated(log, i, j);
    }
  }

  /** Dead letters and references in every reachable state: one letter per DEAD task, no orphans. */
  lemma ReachableReferences(ids: seq<string>, s: Sys)
    requires Reachable(ids, s)
    ensures forall t :: t in s.db.tasks ==>
      if s.db.tasks[t].status == Dead
      then s.db.tasks[t].lastError.Some? && ForTask(s.db.letters, t) == [s.db.tasks[t].lastError.value]
      else ForTask(s.db.letters, t) == []
    ensures forall e <- s.db.logs :: e.task in s.db.tasks
    ensures forall e <- s.db.letters :: e.task in s.db.tasks
  {
    ReachableOk(ids, s);
    forall t | t in s.db.tasks
      ensures RowOk(s.db.tasks[t]) && LettersOk(s.db.tasks[t], ForTask(s.db.letters, t))
    {
      assert TaskOk(s.db, t);
    }
    forall e | e in s.db.logs
      ensures e.task in s.db.tasks
    {
      MemberListed(s.db.logs, e);
    }
    forall e | e in s.db.letters
      ensures e.task in s.db.tasks
    {
      MemberListed(s.db.letters, e);
    }
  }

  lemma {:induction false} MemberListed<T>(xs: seq<Entry<T>>, e: Entry<T>)
    requires e in xs
    ensures ForTask(xs, e.task) != []
    decreases |xs|
  {
    var init, last := xs[..|xs| - 1], xs[|xs| - 1];
    if last != e {
      assert e in init;
      MemberListed(init, e);
    }
  }
}
