/** What never changes about a row, and what that makes of repeated inserts. */
module Idempotency {
  import opened Common
  import opened Json
  import opened Tables
  import opened Effects
  import opened StoreInvariants
  import opened Protocol

  predicate Settled(r: Row) {
    r.status == Completed || r.status == Canceled
  }

  lemma OutcomeKeepsIdentity(db: Db, snap: Snapshot, w: string, outcome: Outcome, at: Time, t: TaskId)
    requires t in db.tasks
    ensures var db' := OutcomeTx(db, snap, w, outcome, at);
      t in db'.tasks && SameIdentity(db.tasks[t], db'.tasks[t])
  {
  }

  /** Retention that does not take the row of `t`. */
  predicate Spares(db: Db, step: Step, t: TaskId)
    requires t in db.tasks
  {
    step.Retain? ==> !Old(db.tasks[t], step.cutoff)
  }

  /** Unless retention takes it, a row stays and keeps its identity. */
  lemma StepKeepsIdentity(ids: seq<string>, s: Sys, step: Step, t: TaskId)
    requires |s.held| == |ids| && Enabled(ids, s, step) && t in s.db.tasks && Spares(s.db, step, t)
    ensures t in Next(ids, s, step).db.tasks && SameIdentity(s.db.tasks[t], Next(ids, s, step).db.tasks[t])
  {
    match step
    case Finish(slot, outcome, at) => OutcomeKeepsIdentity(s.db, s.held[slot].value, ids[slot], outcome, at, t);
    case Reap(order, _, at) => ReapEachRows(s.db, order, at);
    case _ =>
  }

  /** A settled row is frozen: every guard asks for another status. */
  lemma StepFreezes(ids: seq<string>, s: Sys, step: Step, t: TaskId)
    requires |s.held| == |ids| && Enabled(ids, s, step) && t in s.db.tasks && Spares(s.db, step, t)
    requires Settled(s.db.tasks[t])
    ensures t in Next(ids, s, step).db.tasks && Next(ids, s, step).db.tasks[t] == s.db.tasks[t]
  {
    match step
    case Reap(order, _, at) => ReapEachRows(s.db, order, at);
    case _ =>
  }

  /** No step of the run is a retention that takes the row of `t`. */
  ghost predicate Survives(ids: seq<string>, s: Sys, steps: seq<Step>, t: TaskId)
    requires |s.held| == |ids| && Run(ids, s, steps)
    decreases |steps|
  {
    && t in s.db.tasks
    && (steps == [] || (Spares(s.db, steps[0], t) && Survives(ids, Next(ids, s, steps[0]), steps[1..], t)))
  }

  /** Until retention takes it, a row keeps its identity, and a settled row all of its columns. */
  lemma {:induction false} RunKeepsRow(ids: seq<string>, s: Sys, steps: seq<Step>, t: TaskId)
    requires |s.held| == |ids| && Run(ids, s, steps) && Survives(ids, s, steps, t)
    ensures var s' := Final(ids, s, steps);
      && t in s'.db.tasks && SameIdentity(s.db.tasks[t], s'.db.tasks[t])
      && (Settled(s.db.tasks[t]) ==> s'.db.tasks[t] == s.db.tasks[t])
    decreases |steps|
  {
    if steps != [] {
      StepKeepsIdentity(ids, s, steps[0], t);
      if Settled(s.db.tasks[t]) {
        StepFreezes(ids, s, steps[0], t);
      }
      RunKeepsRow(ids, Next(ids, s, steps[0]), steps[1..], t);
    }
  }

  /** A row survives every run whose retention cutoffs are not past its creation time. */
  lemma {:induction false} RecentSurvives(ids: seq<string>, s: Sys, steps: seq<Step>, t: TaskId)
    requires |s.held| == |ids| && Run(ids, s, steps) && t in s.db.tasks
    requires forall x <- steps :: x.Retain? ==> x.cutoff <= s.db.tasks[t].createdAt
    ensures Survives(ids, s, steps, t)
    decreases |steps|
  {
    if steps != [] {
      assert steps[0] in steps;
      StepKeepsIdentity(ids, s, steps[0], t);
      RecentSurvives(ids, Next(ids, s, steps[0]), steps[1..], t);
    }
  }

  // ---- Inserts ----

  /** Inserts hash the canonical form of their payload. */
  predicate Hashed(step: Step, hash: Value -> string) {
    step.Insert? ==> step.hash == hash(step.q.payload)
  }

  ghost predicate HashesOk(db: Db, hash: Value -> string) {
    forall t :: t in db.tasks ==> db.tasks[t].payloadHash == hash(db.tasks[t].payload)
  }

  lemma StepKeepsHashes(ids: seq<string>, s: Sys, step: Step, hash: Value -> string)
    requires |s.held| == |ids| && Enabled(ids, s, step) && Hashed(step, hash) && HashesOk(s.db, hash)
    ensures HashesOk(Next(ids, s, step).db, hash)
  {
    match step
    case Reap(order, _, at) => ReapEachRows(s.db, order, at);
    case _ =>
  }

  lemma {:induction false} RunKeepsHashes(ids: seq<string>, s: Sys, steps: seq<Step>, hash: Value -> string)
    requires |s.held| == |ids| && Run(ids, s, steps) && (forall x <- steps :: Hashed(x, hash)) && HashesOk(s.db, hash)
    ensures HashesOk(Final(ids, s, steps).db, hash)
    decreases |steps|
  {
    if steps != [] {
      assert steps[0] in steps;
      StepKeepsHashes(ids, s, steps[0], hash);
      RunKeepsHashes(ids, Next(ids, s, steps[0]), steps[1..], hash);
    }
  }

  /** The store's payload hash: a digest of the canonical bytes. */
  ghost predicate DigestOfCanonical(hash: Value -> string, sha256: string -> string) {
    forall v :: hash(v) == sha256(Print(v))
  }

  /**
   * Once some task holds a (type, key), every later insert of that pair, until retention takes that
   * task, changes no table and answers with that same task if the payload decodes to the same
   * value, and with a conflict otherwise.
   */
  lemma InsertIsIdempotent(
    ids: seq<string>, before: seq<Step>, after: seq<Step>, t: TaskId, q: Request, id: TaskId, at: Time,
    hash: Value -> string, sha256: string -> string)
    requires DigestOfCanonical(hash, sha256) && Injective(sha256)
    requires Run(ids, Start(|ids|), before) && forall x <- before + after :: Hashed(x, hash)
    requires q.key.Some? && HoldsKey(Final(ids, Start(|ids|), before).db, t, q.kind, q.key.value)
    requires Run(ids, Final(ids, Start(|ids|), before), after)
    requires Survives(ids, Final(ids, Start(|ids|), before), after, t)
    ensures var db := Final(ids, Final(ids, Start(|ids|), before), after).db;
      && UniqueKeys(db)
      && t in db.tasks
      && InsertTx(db, q, hash(q.payload), id, at) ==
         (db, if db.tasks[t].payload == q.payload then Replayed(t) else Conflict)
  {
    var s0, s1 := Start(|ids|), Final(ids, Start(|ids|), before);
    var s2 := Final(ids, s1, after);
    StartOk(|ids|);
    RunKeeps(ids, s0, before);
    RunKeeps(ids, s1, after);
    assert forall x <- before :: x in before + after;
    assert forall x <- after :: x in before + after;
    RunKeepsHashes(ids, s0, before, hash);
    RunKeepsHashes(ids, s1, after, hash);
    RunKeepsRow(ids, s1, after, t);
    HashIff(s2.db.tasks[t].payload, q.payload, sha256);
    InsertHit(s2.db, q, hash(q.payload), id, at, t);
  }
}
