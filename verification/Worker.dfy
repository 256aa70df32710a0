/** A worker recording the outcome of the claim it executed, and the backoff it schedules. */
module Worker {
  import opened Common
  import opened Tables
  import opened Effects
  import opened Protocol
  import opened TaskStore

  // ---- Backoff ----

  function Pow2(n: nat): real {
    if n == 0 then 1.0 else 2.0 * Pow2(n - 1)
  }

  function Doubled(base: Time, n: nat): Time {
    if n == 0 then base else 2.0 * Doubled(base, n - 1)
  }

  lemma {:induction false} DoubledIs(base: Time, n: nat)
    ensures Doubled(base, n) == base * Pow2(n)
  {
    if n > 0 {
      DoubledIs(base, n - 1);
    }
  }

  lemma {:induction false} DoubledGrows(base: Time, n: nat)
    requires base > 0.0
    ensures base <= Doubled(base, n)
  {
    if n > 0 {
      DoubledGrows(base, n - 1);
    }
  }

  /** The largest delay after a given attempt: the base, doubled per earlier attempt, up to the cap. */
  function Ceiling(base: Time, cap: Time, attempts: int): (c: Time)
    requires 0.0 < base <= cap
    ensures base <= c <= cap && c <= Doubled(base, Max(attempts - 1, 0))
  {
    var doubled := Doubled(base, Max(attempts - 1, 0));
    DoubledGrows(base, Max(attempts - 1, 0));
    if cap < doubled then cap else doubled
  }

  /** `jitter` is the uniform draw from `[0, 1)`. */
  function Jittered(ceiling: Time, jitter: real): (d: Time)
    requires 0.0 <= jitter < 1.0 && ceiling > 0.0
    ensures 0.0 <= d < ceiling
  {
    assert (1.0 - jitter) * ceiling > 0.0;
    jitter * ceiling
  }

  function Backoff(base: Time, cap: Time, attempts: int, jitter: real): Time
    requires 0.0 < base <= cap && 0.0 <= jitter < 1.0
  {
    Jittered(Ceiling(base, cap, attempts), jitter)
  }

  lemma {:induction false} CeilingGrows(base: Time, cap: Time, a: int, b: int)
    requires 0.0 < base <= cap && a <= b
    ensures Ceiling(base, cap, a) <= Ceiling(base, cap, b)
    decreases b - a
  {
    if a < b {
      CeilingGrows(base, cap, a, b - 1);
      DoubledGrows(base, Max(b - 2, 0));
    }
  }

  function Smaller(a: Time, b: Time): Time {
    if a < b then a else b
  }

  lemma CeilingFrom(base: Time, cap: Time, attempts: int, doubled: Time)
    requires 0.0 < base <= cap && doubled == Doubled(base, Max(attempts - 1, 0))
    ensures Ceiling(base, cap, attempts) == Smaller(cap, doubled)
  {
  }

  /** The base times a power of two, or the cap if that is less. */
  lemma CeilingIs(base: Time, cap: Time, attempts: int, power: real)
    requires 0.0 < base <= cap && power == Pow2(Max(attempts - 1, 0))
    ensures Ceiling(base, cap, attempts) == Smaller(cap, base * power)
  {
    DoubledIs(base, Max(attempts - 1, 0));
    CeilingFrom(base, cap, attempts, base * power);
  }

  /** Full jitter: the draw's share of the base doubled per earlier attempt, or of the cap if that is less. */
  lemma BackoffIs(base: Time, cap: Time, attempts: int, jitter: real)
    requires 0.0 < base <= cap && 0.0 <= jitter < 1.0
    ensures Backoff(base, cap, attempts, jitter) == Share(jitter, Smaller(cap, Doubled(base, Max(attempts - 1, 0))))
  {
  }

  function Share(part: real, whole: Time): Time {
    part * whole
  }

  ghost predicate Draws(jitters: seq<real>) {
    forall k :: 0 <= k < |jitters| ==> 0.0 <= jitters[k] < 1.0
  }

  /** The delays scheduled after attempts 1, 2, ... with the given draws. */
  ghost function TotalDelay(base: Time, cap: Time, jitters: seq<real>): Time
    requires 0.0 < base <= cap && Draws(jitters)
  {
    if jitters == [] then 0.0
    else
      var n := |jitters| - 1;
      TotalDelay(base, cap, jitters[..n]) + Backoff(base, cap, n + 1, jitters[n])
  }

  function Caps(n: nat, cap: Time): Time {
    if n == 0 then 0.0 else Caps(n - 1, cap) + cap
  }

  lemma OneMoreCap(x: real, y: real, cap: Time)
    requires y == x + 1.0
    ensures y * cap == x * cap + cap
  {
  }

  lemma {:induction false} CapsAre(n: nat, cap: Time)
    ensures Caps(n, cap) == n as real * cap
  {
    if n > 0 {
      CapsAre(n - 1, cap);
      OneMoreCap((n - 1) as real, n as real, cap);
    }
  }

  lemma {:induction false} DelayBelowCaps(base: Time, cap: Time, jitters: seq<real>)
    requires 0.0 < base <= cap && Draws(jitters)
    ensures 0.0 <= TotalDelay(base, cap, jitters) <= Caps(|jitters|, cap)
    decreases |jitters|
  {
    if jitters != [] {
      DelayBelowCaps(base, cap, jitters[..|jitters| - 1]);
    }
  }

  lemma {:induction false} DelayBelowDoubling(base: Time, cap: Time, jitters: seq<real>)
    requires 0.0 < base <= cap && Draws(jitters)
    ensures TotalDelay(base, cap, jitters) <= Doubled(base, |jitters|) - base
    decreases |jitters|
  {
    if jitters != [] {
      var n := |jitters| - 1;
      DelayBelowDoubling(base, cap, jitters[..n]);
      assert Doubled(base, n + 1) == Doubled(base, n) + Doubled(base, n);
    }
  }

  /** Over a budget of `n` attempts: at most `n - 1` caps, and at most `base * (2^(n-1) - 1)`. */
  lemma BudgetDelay(base: Time, cap: Time, n: nat, jitters: seq<real>)
    requires 0.0 < base <= cap && Draws(jitters) && n >= 1 && |jitters| == n - 1
    ensures 0.0 <= TotalDelay(base, cap, jitters) <= (n - 1) as real * cap
    ensures TotalDelay(base, cap, jitters) <= base * (Pow2(n - 1) - 1.0)
  {
    DelayBelowCaps(base, cap, jitters);
    CapsAre(n - 1, cap);
    DelayBelowDoubling(base, cap, jitters);
    DoubledIs(base, n - 1);
  }

  // ---- Recording an outcome ----

  datatype Handled = Done | Error(err: string) | Unregistered(kind: string)

  function OutcomeOf(base: Time, cap: Time, snap: Snapshot, h: Handled, jitter: real, clock: Time): Outcome
    requires 0.0 < base <= cap && 0.0 <= jitter < 1.0
  {
    match h
    case Done => Succeeded
    case Unregistered(kind) => NoHandler("no handler registered for type: " + kind)
    case Error(err) => Failed(err, clock + Backoff(base, cap, snap.attempts, jitter))
  }

  class Worker {
    const id: string
    const store: Store
    const baseBackoff: Time
    const maxBackoff: Time

    constructor (id: string, store: Store, baseBackoff: Time, maxBackoff: Time)
      requires 0.0 < baseBackoff <= maxBackoff
      ensures this.id == id && this.store == store && this.baseBackoff == baseBackoff && this.maxBackoff == maxBackoff
    {
      this.id, this.store, this.baseBackoff, this.maxBackoff := id, store, baseBackoff, maxBackoff;
    }

    /** Losing ownership is not an error: the write simply has no effect. */
    method Execute(snap: Snapshot, h: Handled, jitter: real, clock: Time, at: Time)
      requires store.Valid() && 0.0 < baseBackoff <= maxBackoff && 0.0 <= jitter < 1.0
      modifies store
      ensures store.Valid()
      ensures store.Db() ==
        OutcomeTx(old(store.Db()), snap, id, OutcomeOf(baseBackoff, maxBackoff, snap, h, jitter, clock), at)
      ensures !OwnedBy(old(store.Db()), snap.task, id) ==> store.Db() == old(store.Db())
      ensures OwnedBy(old(store.Db()), snap.task, id) ==>
        match h
        case Done => Completes(old(store.Db()), snap.task, at, store.Db())
        case Unregistered(kind) =>
          Dies(old(store.Db()), snap.task, "no handler registered for type: " + kind, at,
               ZERO.(failures := 1, dead := 1), store.Db())
        case Error(err) => Fails(old(store.Db()), snap, err, jitter, clock, at, store.Db())
    {
      match h {
        case Unregistered(kind) =>
          var _ := store.MarkDead(snap.task, id, "no handler registered for type: " + kind, at);
        case Error(err) => HandleFailure(snap, err, jitter, clock, at);
        case Done =>
          var _ := store.MarkCompleted(snap.task, id, at);
      }
    }

    /** A failure with attempts left waits its share of the doubled base, at most of the cap; else it kills. */
    ghost predicate Fails(
      db: Db, snap: Snapshot, err: string, jitter: real, clock: Time, at: Time, db': Db)
    {
      if snap.attempts < snap.maxRetries then
        var delay := Share(jitter, Smaller(maxBackoff, Doubled(baseBackoff, Max(snap.attempts - 1, 0))));
        Requeues(db, snap.task, err, clock + delay, at, ZERO.(failures := 1, retried := 1), db')
      else Dies(db, snap.task, err, at, ZERO.(failures := 1, dead := 1), db')
    }

    /** Retry or die, decided from the snapshot taken at claim time. */
    method HandleFailure(snap: Snapshot, err: string, jitter: real, clock: Time, at: Time)
      requires store.Valid() && 0.0 < baseBackoff <= maxBackoff && 0.0 <= jitter < 1.0
      modifies store
      ensures store.Valid()
      ensures store.Db() ==
        OutcomeTx(old(store.Db()), snap, id, OutcomeOf(baseBackoff, maxBackoff, snap, Error(err), jitter, clock), at)
      ensures OwnedBy(old(store.Db()), snap.task, id) ==>
        Fails(old(store.Db()), snap, err, jitter, clock, at, store.Db())
    {
      BackoffIs(baseBackoff, maxBackoff, snap.attempts, jitter);
      if snap.attempts >= snap.maxRetries {
        var _ := store.MarkDead(snap.task, id, err, at);
      } else {
        var backoff := Backoff(baseBackoff, maxBackoff, snap.attempts, jitter);
        var _ := store.MarkPending(snap.task, id, err, clock + backoff, at);
      }
    }
  }
}
