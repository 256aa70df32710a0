/**
 * The token-bucket limiter. Idle buckets are garbage-collected; a limiter that never collects is
 * the reference it is held against. Time is in seconds and tokens are reals.
 */
module RateLimit {
  import opened Common

  /**
   * `drip(dt)` is what accrues in `dt` seconds. `Usable` fixes it to `dt * rate`; it is a field of its
   * own so that proofs can add and compare such amounts without multiplying them out.
   */
  datatype Config = Config(rate: real, drip: real -> real, burst: nat, window: real)

  predicate Probe(dt: real) {
    true
  }

  /** What `NewRateLimiter` guarantees of its limits. */
  ghost predicate Usable(c: Config) {
    && c.rate > 0.0 && c.burst >= 1 && c.window > 0.0
    && forall dt {:trigger Probe(dt)} :: Probe(dt) && c.drip(dt) == dt * c.rate
  }

  datatype Bucket = Bucket(tokens: real, last: Time, lastSeen: Time)
  datatype Limiter = Limiter(buckets: map<string, Bucket>, lastGC: Option<Time>)
  datatype Answer = Allowed | Denied(wait: real)
  datatype Call = Call(key: string, now: Time)

  const FRESH := Limiter(map[], None)

  function Min(a: real, b: real): real {
    if a < b then a else b
  }

  // ---- One call ----

  function Refill(c: Config, b: Bucket, now: Time): Bucket {
    if now - b.last > 0.0 then
      Bucket(Min(c.burst as real, b.tokens + c.drip(now - b.last)), now, now)
    else b.(lastSeen := now)
  }

  function Verdict(c: Config, b: Bucket): Answer
    requires c.rate > 0.0
  {
    if b.tokens < 1.0 then
      var wait := (1.0 - b.tokens) / c.rate;
      Denied(if wait < 1.0 then 1.0 else wait)
    else Allowed
  }

  function Spend(b: Bucket): Bucket {
    if b.tokens < 1.0 then b else b.(tokens := b.tokens - 1.0)
  }

  /** The caller's bucket, brought up to date; a new one starts full. */
  function Current(c: Config, buckets: map<string, Bucket>, call: Call): Bucket {
    Refill(c, if call.key in buckets then buckets[call.key] else Bucket(c.burst as real, call.now, call.now), call.now)
  }

  function Visit(c: Config, buckets: map<string, Bucket>, call: Call): map<string, Bucket> {
    buckets[call.key := Spend(Current(c, buckets, call))]
  }

  predicate Idle(c: Config, b: Bucket, now: Time) {
    now - b.lastSeen > c.window
  }

  function Collect(c: Config, l: Limiter, now: Time): Limiter {
    if l.lastGC.None? then l.(lastGC := Some(now))
    else if now - l.lastGC.value < c.window then l
    else Limiter(map k | k in l.buckets && !Idle(c, l.buckets[k], now) :: l.buckets[k], Some(now))
  }

  function Serve(c: Config, l: Limiter, call: Call): Limiter {
    var l' := Collect(c, l, call.now);
    l'.(buckets := Visit(c, l'.buckets, call))
  }

  function ServeAnswer(c: Config, l: Limiter, call: Call): Answer
    requires c.rate > 0.0
  {
    Verdict(c, Current(c, Collect(c, l, call.now).buckets, call))
  }

  // ---- Call sequences ----

  ghost predicate Monotone(calls: seq<Call>) {
    forall i, j :: 0 <= i < j < |calls| ==> calls[i].now <= calls[j].now
  }

  /** The limiter after the first `n` calls. */
  function After(c: Config, calls: seq<Call>, n: nat): Limiter
    requires n <= |calls|
  {
    if n == 0 then FRESH else Serve(c, After(c, calls, n - 1), calls[n - 1])
  }

  /** The same limiter without garbage collection. */
  function KeptAfter(c: Config, calls: seq<Call>, n: nat): map<string, Bucket>
    requires n <= |calls|
  {
    if n == 0 then map[] else Visit(c, KeptAfter(c, calls, n - 1), calls[n - 1])
  }

  /** The answer to call `k`, with collection or without. */
  function Reply(c: Config, calls: seq<Call>, gc: bool, k: nat): Answer
    requires c.rate > 0.0 && k < |calls|
  {
    if gc then ServeAnswer(c, After(c, calls, k), calls[k])
    else Verdict(c, Current(c, KeptAfter(c, calls, k), calls[k]))
  }

  // ---- Buckets under a forward clock ----

  predicate BucketOk(c: Config, b: Bucket, now: Time) {
    0.0 <= b.tokens <= c.burst as real && b.last == b.lastSeen && b.last <= now
  }

  lemma DripIs(c: Config, dt: real)
    requires Usable(c)
    ensures c.drip(dt) == dt * c.rate
  {
    assert Probe(dt);
  }

  lemma DripLe(c: Config, a: real, b: real)
    requires Usable(c) && a <= b
    ensures c.drip(a) <= c.drip(b)
    ensures a < b ==> c.drip(a) < c.drip(b)
  {
    DripIs(c, a);
    DripIs(c, b);
  }

  lemma DripAdd(c: Config, a: real, b: real)
    requires Usable(c)
    ensures c.drip(a + b) == c.drip(a) + c.drip(b) && c.drip(0.0) == 0.0
  {
    DripIs(c, a);
    DripIs(c, b);
    DripIs(c, a + b);
    DripIs(c, 0.0);
  }

  lemma DripPositive(c: Config, dt: real)
    requires Usable(c) && dt >= 0.0
    ensures c.drip(dt) >= 0.0
  {
    DripLe(c, 0.0, dt);
    DripAdd(c, 0.0, 0.0);
  }

  lemma RefillOk(c: Config, b: Bucket, now: Time)
    requires Usable(c) && BucketOk(c, b, b.last) && b.last <= now
    ensures BucketOk(c, Refill(c, b, now), now) && Refill(c, b, now).last == now
  {
    DripPositive(c, now - b.last);
  }

  lemma {:induction false} KeptOk(c: Config, calls: seq<Call>, n: nat, now: Time)
    requires Usable(c) && Monotone(calls) && n <= |calls| && (n > 0 ==> calls[n - 1].now <= now)
    ensures forall k :: k in KeptAfter(c, calls, n) ==> BucketOk(c, KeptAfter(c, calls, n)[k], now)
  {
    if n > 0 {
      var last := calls[n - 1];
      KeptOk(c, calls, n - 1, last.now);
      var kept := KeptAfter(c, calls, n - 1);
      if last.key in kept {
        RefillOk(c, kept[last.key], last.now);
      }
    }
  }

  /** The collecting limiter never holds a bucket outside its limits, whatever the window. */
  lemma {:induction false} TokensInRange(c: Config, calls: seq<Call>, n: nat, now: Time)
    requires Usable(c) && Monotone(calls) && n <= |calls| && (n > 0 ==> calls[n - 1].now <= now)
    ensures forall k :: k in After(c, calls, n).buckets ==> BucketOk(c, After(c, calls, n).buckets[k], now)
  {
    if n > 0 {
      var last := calls[n - 1];
      TokensInRange(c, calls, n - 1, last.now);
      var l := Collect(c, After(c, calls, n - 1), last.now);
      if last.key in l.buckets {
        RefillOk(c, l.buckets[last.key], last.now);
      }
    }
  }

  // ---- Garbage collection is invisible ----

  /** Idle long enough to be full again at `now`. */
  predicate Full(c: Config, b: Bucket, now: Time) {
    now > b.last && b.tokens + c.drip(now - b.last) >= c.burst as real
  }

  /** The collecting limiter has the reference's buckets, less some that would refill to the brim. */
  ghost predicate Matches(c: Config, l: Limiter, kept: map<string, Bucket>, now: Time) {
    && (forall k :: k in l.buckets ==> k in kept && l.buckets[k] == kept[k])
    && (forall k :: k in kept && k !in l.buckets ==> Full(c, kept[k], now))
  }

  lemma MatchesLater(c: Config, l: Limiter, kept: map<string, Bucket>, now: Time, now': Time)
    requires Usable(c) && Matches(c, l, kept, now) && now <= now'
    ensures Matches(c, l, kept, now')
  {
    forall k | k in kept && k !in l.buckets
      ensures Full(c, kept[k], now')
    {
      DripLe(c, now - kept[k].last, now' - kept[k].last);
    }
  }

  lemma CollectMatches(c: Config, l: Limiter, kept: map<string, Bucket>, now: Time)
    requires Usable(c) && c.burst as real <= c.drip(c.window)
    requires Matches(c, l, kept, now) && forall k :: k in kept ==> BucketOk(c, kept[k], now)
    ensures Matches(c, Collect(c, l, now), kept, now)
  {
    forall k | k in kept && k !in Collect(c, l, now).buckets
      ensures Full(c, kept[k], now)
    {
      if k in l.buckets {
        DripLe(c, c.window, now - kept[k].last);
      }
    }
  }

  lemma VisitMatches(c: Config, l: Limiter, kept: map<string, Bucket>, call: Call)
    requires Usable(c) && Matches(c, l, kept, call.now)
    ensures Current(c, l.buckets, call) == Current(c, kept, call)
    ensures Matches(c, l.(buckets := Visit(c, l.buckets, call)), Visit(c, kept, call), call.now)
  {
    if call.key in kept && call.key !in l.buckets {
      assert Refill(c, kept[call.key], call.now) == Bucket(c.burst as real, call.now, call.now);
    }
  }

  lemma {:induction false} CollectionMatches(c: Config, calls: seq<Call>, n: nat, now: Time)
    requires Usable(c) && c.burst as real <= c.drip(c.window)
    requires Monotone(calls) && n <= |calls| && (n > 0 ==> calls[n - 1].now <= now)
    ensures Matches(c, After(c, calls, n), KeptAfter(c, calls, n), now)
  {
    if n > 0 {
      var last := calls[n - 1];
      var l, kept := After(c, calls, n - 1), KeptAfter(c, calls, n - 1);
      CollectionMatches(c, calls, n - 1, last.now);
      KeptOk(c, calls, n - 1, last.now);
      CollectMatches(c, l, kept, last.now);
      VisitMatches(c, Collect(c, l, last.now), kept, last);
      MatchesLater(c, After(c, calls, n), KeptAfter(c, calls, n), last.now, now);
    }
  }

  lemma SameReply(c: Config, calls: seq<Call>, k: nat)
    requires Usable(c) && c.burst as real <= c.drip(c.window) && Monotone(calls) && k < |calls|
    ensures Reply(c, calls, true, k) == Reply(c, calls, false, k)
  {
    var call, l, kept := calls[k], After(c, calls, k), KeptAfter(c, calls, k);
    CollectionMatches(c, calls, k, call.now);
    KeptOk(c, calls, k, call.now);
    CollectMatches(c, l, kept, call.now);
    VisitMatches(c, Collect(c, l, call.now), kept, call);
  }

  // ---- The rate bound ----

  /** Calls `i..j` for `key` that were allowed. */
  function AllowedIn(c: Config, calls: seq<Call>, gc: bool, key: string, i: nat, j: nat): nat
    requires c.rate > 0.0 && j <= |calls|
  {
    if j <= i then 0
    else
      AllowedIn(c, calls, gc, key, i, j - 1) +
      if calls[j - 1].key == key && Reply(c, calls, gc, j - 1) == Allowed then 1 else 0
  }

  /** Tokens a key could spend at `now`. */
  function Level(c: Config, kept: map<string, Bucket>, key: string, now: Time): real {
    if key in kept then Min(c.burst as real, kept[key].tokens + c.drip(now - kept[key].last)) else c.burst as real
  }

  lemma LevelLater(c: Config, kept: map<string, Bucket>, key: string, now: Time, now': Time)
    requires Usable(c) && now <= now'
    ensures Level(c, kept, key, now') <= Level(c, kept, key, now) + c.drip(now' - now)
  {
    DripPositive(c, now' - now);
    if key in kept {
      DripAdd(c, now - kept[key].last, now' - now);
      assert (now - kept[key].last) + (now' - now) == now' - kept[key].last;
    }
  }

  function Cost(c: Config, kept: map<string, Bucket>, call: Call, key: string): nat
    requires c.rate > 0.0
  {
    if call.key == key && Verdict(c, Current(c, kept, call)) == Allowed then 1 else 0
  }

  lemma VisitSpends(c: Config, kept: map<string, Bucket>, call: Call, key: string)
    requires Usable(c) && forall k :: k in kept ==> BucketOk(c, kept[k], call.now)
    ensures Level(c, Visit(c, kept, call), key, call.now) + Cost(c, kept, call, key) as real
      <= Level(c, kept, key, call.now)
  {
    DripAdd(c, 0.0, 0.0);
    if call.key == key && key in kept {
      RefillOk(c, kept[key], call.now);
    }
  }

  /** One more call, `n` calls having been allowed within `base` so far. */
  lemma SpendStep(c: Config, kept: map<string, Bucket>, call: Call, key: string, n: nat, base: real, before: Time)
    requires Usable(c) && before <= call.now && forall k :: k in kept ==> BucketOk(c, kept[k], call.now)
    requires n as real + Level(c, kept, key, before) <= base
    ensures (n + Cost(c, kept, call, key)) as real + Level(c, Visit(c, kept, call), key, call.now)
      <= base + c.drip(call.now - before)
  {
    VisitSpends(c, kept, call, key);
    LevelLater(c, kept, key, before, call.now);
  }

  /** From call `i` on, a key spends what was there plus what dripped in meanwhile. */
  lemma {:induction false} KeptSpends(c: Config, calls: seq<Call>, key: string, i: nat, j: nat)
    requires Usable(c) && Monotone(calls) && i < j <= |calls|
    ensures AllowedIn(c, calls, false, key, i, j) as real + Level(c, KeptAfter(c, calls, j), key, calls[j - 1].now)
      <= Level(c, KeptAfter(c, calls, i), key, calls[i].now) + c.drip(calls[j - 1].now - calls[i].now)
    decreases j
  {
    var start := Level(c, KeptAfter(c, calls, i), key, calls[i].now);
    var n := AllowedIn(c, calls, false, key, i, j - 1);
    var kept, last := KeptAfter(c, calls, j - 1), calls[j - 1];
    KeptOk(c, calls, j - 1, last.now);
    assert AllowedIn(c, calls, false, key, i, j) == n + Cost(c, kept, last, key);
    if i < j - 1 {
      var before := calls[j - 2].now;
      KeptSpends(c, calls, key, i, j - 1);
      SpendStep(c, kept, last, key, n, start + c.drip(before - calls[i].now), before);
      DripAdd(c, before - calls[i].now, last.now - before);
      assert (before - calls[i].now) + (last.now - before) == last.now - calls[i].now;
    } else {
      SpendStep(c, kept, last, key, n, start, last.now);
    }
  }

  lemma LevelBounds(c: Config, calls: seq<Call>, n: nat, key: string, now: Time)
    requires Usable(c) && Monotone(calls) && n <= |calls| && (n > 0 ==> calls[n - 1].now <= now)
    ensures 0.0 <= Level(c, KeptAfter(c, calls, n), key, now) <= c.burst as real
  {
    KeptOk(c, calls, n, now);
    var kept := KeptAfter(c, calls, n);
    if key in kept {
      assert BucketOk(c, kept[key], now);
      DripPositive(c, now - kept[key].last);
    }
  }

  /** Over calls `i..j`, `key` got at most its burst plus the rate times the time elapsed. */
  predicate WithinRate(c: Config, calls: seq<Call>, gc: bool, key: string, i: nat, j: nat)
    requires c.rate > 0.0 && i < j <= |calls|
  {
    AllowedIn(c, calls, gc, key, i, j) as real <= c.burst as real + c.drip(calls[j - 1].now - calls[i].now)
  }

  ghost predicate RateBounded(c: Config)
    requires c.rate > 0.0
  {
    forall calls, key, i: nat, j: nat :: Monotone(calls) && i < j <= |calls| ==>
      WithinRate(c, calls, true, key, i, j)
  }

  ghost predicate GcInvisible(c: Config)
    requires c.rate > 0.0
  {
    forall calls, k: nat :: Monotone(calls) && k < |calls| ==> Reply(c, calls, true, k) == Reply(c, calls, false, k)
  }

  /** Without collection the bound needs no condition. */
  lemma KeptWithinRate(c: Config, calls: seq<Call>, key: string, i: nat, j: nat)
    requires Usable(c) && Monotone(calls) && i < j <= |calls|
    ensures WithinRate(c, calls, false, key, i, j)
  {
    KeptSpends(c, calls, key, i, j);
    LevelBounds(c, calls, j, key, calls[j - 1].now);
    LevelBounds(c, calls, i, key, calls[i].now);
  }

  lemma {:induction false} SameAllowed(c: Config, calls: seq<Call>, key: string, i: nat, j: nat)
    requires c.rate > 0.0 && j <= |calls|
    requires forall k: nat :: k < |calls| ==> Reply(c, calls, true, k) == Reply(c, calls, false, k)
    ensures AllowedIn(c, calls, true, key, i, j) == AllowedIn(c, calls, false, key, i, j)
    decreases j
  {
    if i < j {
      SameAllowed(c, calls, key, i, j - 1);
    }
  }

  // ---- When bursts outrun the window ----

  /** `n` calls at time 0, then `m` at time `later`, all for one key. */
  function TwoBursts(n: nat, m: nat, later: Time): (calls: seq<Call>)
    ensures |calls| == n + m
    ensures forall i :: 0 <= i < n ==> calls[i] == Call("", 0.0)
    ensures forall i :: n <= i < n + m ==> calls[i] == Call("", later)
  {
    seq(n + m, i => Call("", if i < n then 0.0 else later))
  }

  function Drained(c: Config, n: nat, at: Time): Limiter
    requires n <= c.burst
  {
    Limiter(map["" := Bucket((c.burst - n) as real, at, at)], Some(at))
  }

  /** A further call in a burst spends one more token. */
  lemma BurstCall(c: Config, n: nat, at: Time)
    requires Usable(c) && 0 < n < c.burst
    ensures Serve(c, Drained(c, n, at), Call("", at)) == Drained(c, n + 1, at)
    ensures ServeAnswer(c, Drained(c, n, at), Call("", at)) == Allowed
  {
    var l := Drained(c, n, at);
    assert Collect(c, l, at) == l;
    var b := Bucket((c.burst - n) as real, at, at);
    assert Current(c, l.buckets, Call("", at)) == b;
    assert Spend(b) == Bucket((c.burst - n - 1) as real, at, at);
    assert map["" := b]["" := Spend(b)] == map["" := Spend(b)];
  }

  lemma FirstCall(c: Config, at: Time)
    requires Usable(c)
    ensures Serve(c, FRESH, Call("", at)) == Drained(c, 1, at)
    ensures ServeAnswer(c, FRESH, Call("", at)) == Allowed
  {
    var b := Bucket(c.burst as real, at, at);
    assert Current(c, map[], Call("", at)) == b;
    assert Spend(b) == Bucket((c.burst - 1) as real, at, at);
  }

  /** Past the window the drained bucket is gone, and the key starts over. */
  lemma CollectedCall(c: Config, later: Time)
    requires Usable(c) && later > c.window
    ensures Serve(c, Drained(c, c.burst, 0.0), Call("", later)) == Drained(c, 1, later)
    ensures ServeAnswer(c, Drained(c, c.burst, 0.0), Call("", later)) == Allowed
  {
    assert Collect(c, Drained(c, c.burst, 0.0), later) == Limiter(map[], Some(later));
    var b := Bucket(c.burst as real, later, later);
    assert Current(c, map[], Call("", later)) == b;
    assert Spend(b) == Bucket((c.burst - 1) as real, later, later);
  }

  function StateAt(c: Config, later: Time, k: nat): Limiter
    requires k <= 2 * c.burst
  {
    if k == 0 then FRESH
    else if k <= c.burst then Drained(c, k, 0.0)
    else Drained(c, k - c.burst, later)
  }

  /** Each call of the two bursts is allowed and moves to the next state. */
  lemma BurstStep(c: Config, later: Time, k: nat)
    requires Usable(c) && later > c.window && k < 2 * c.burst
    ensures var call := Call("", if k < c.burst then 0.0 else later);
      Serve(c, StateAt(c, later, k), call) == StateAt(c, later, k + 1) &&
      ServeAnswer(c, StateAt(c, later, k), call) == Allowed
  {
    if k == 0 {
      FirstCall(c, 0.0);
    } else if k < c.burst {
      BurstCall(c, k, 0.0);
    } else if k == c.burst {
      CollectedCall(c, later);
    } else {
      BurstCall(c, k - c.burst, later);
    }
  }

  ghost predicate FromBursts(c: Config, calls: seq<Call>, later: Time) {
    && |calls| <= 2 * c.burst
    && forall i :: 0 <= i < |calls| ==> calls[i] == Call("", if i < c.burst then 0.0 else later)
  }

  lemma {:induction false} AllAllowed(c: Config, calls: seq<Call>, later: Time, j: nat)
    requires Usable(c) && later > c.window && FromBursts(c, calls, later) && j <= |calls|
    ensures After(c, calls, j) == StateAt(c, later, j)
    ensures AllowedIn(c, calls, true, "", 0, j) == j
    ensures j > 0 ==> Reply(c, calls, true, j - 1) == Allowed
  {
    if j > 0 {
      AllAllowed(c, calls, later, j - 1);
      BurstStep(c, later, j - 1);
    }
  }

  /** Half way between the window and the time a drained bucket needs to refill. */
  function TooSoon(c: Config): Time
    requires c.rate > 0.0
  {
    (c.window + c.burst as real / c.rate) / 2.0
  }

  lemma TwoBurstsAllowed(c: Config, calls: seq<Call>)
    requires Usable(c) && c.burst as real > c.drip(c.window) && calls == TwoBursts(c.burst, c.burst, TooSoon(c))
    ensures AllowedIn(c, calls, true, "", 0, |calls|) == 2 * c.burst
  {
    HalfWay(c, TooSoon(c));
    AllAllowed(c, calls, TooSoon(c), |calls|);
  }

  /** A window shorter than the time to refill lets a key through twice its burst too soon. */
  lemma ShortWindowOverruns(c: Config)
    requires Usable(c) && c.burst as real > c.drip(c.window)
    ensures !RateBounded(c) && !GcInvisible(c)
  {
    var calls := TwoBursts(c.burst, c.burst, TooSoon(c));
    TwoBurstsAllowed(c, calls);
    HalfWay(c, TooSoon(c));
    assert Monotone(calls) && calls[|calls| - 1].now - calls[0].now == TooSoon(c);
    assert !WithinRate(c, calls, true, "", 0, |calls|);
    KeptWithinRate(c, calls, "", 0, |calls|);
    if GcInvisible(c) {
      SameAllowed(c, calls, "", 0, |calls|);
    }
  }

  lemma HalfWay(c: Config, later: real)
    requires Usable(c) && c.burst as real > c.drip(c.window) && later == TooSoon(c)
    ensures later > c.window && c.drip(later) < c.burst as real
  {
    var full := c.burst as real / c.rate;
    DripIs(c, full);
    if full <= c.window {
      DripLe(c, full, c.window);
    }
    DripLe(c, later, full);
  }

  /** Collection cannot be observed exactly when a bucket refills within the window. */
  lemma GcInvisibleIff(c: Config)
    requires Usable(c)
    ensures GcInvisible(c) <==> c.burst as real <= c.window * c.rate
  {
    DripIs(c, c.window);
    if c.burst as real <= c.drip(c.window) {
      forall calls, k: nat | Monotone(calls) && k < |calls|
        ensures Reply(c, calls, true, k) == Reply(c, calls, false, k)
      {
        SameReply(c, calls, k);
      }
    } else {
      ShortWindowOverruns(c);
    }
  }

  /** And exactly then the limiter keeps its rate over every stretch of calls. */
  lemma RateBoundedIff(c: Config)
    requires Usable(c)
    ensures RateBounded(c) <==> c.burst as real <= c.window * c.rate
  {
    DripIs(c, c.window);
    if c.burst as real <= c.drip(c.window) {
      GcInvisibleIff(c);
      forall calls, key, i: nat, j: nat | Monotone(calls) && i < j <= |calls|
        ensures WithinRate(c, calls, true, key, i, j)
      {
        KeptWithinRate(c, calls, key, i, j);
        SameAllowed(c, calls, key, i, j);
      }
    } else {
      ShortWindowOverruns(c);
    }
  }

  // ---- Keys do not affect each other ----

  /** The calls for `key` among the first `n`. */
  function Only(calls: seq<Call>, key: string, n: nat): (r: seq<Call>)
    requires n <= |calls|
    ensures |r| <= n && forall x <- r :: x in calls[..n]
    ensures n > 0 && calls[n - 1].key == key ==> r != []
  {
    if n == 0 then []
    else if calls[n - 1].key == key then Only(calls, key, n - 1) + [calls[n - 1]]
    else Only(calls, key, n - 1)
  }

  lemma {:induction false} KeptPrefix(c: Config, a: seq<Call>, b: seq<Call>, n: nat)
    requires n <= |a| && n <= |b| && a[..n] == b[..n]
    ensures KeptAfter(c, a, n) == KeptAfter(c, b, n)
  {
    if n > 0 {
      assert a[..n - 1] == a[..n][..n - 1] == b[..n][..n - 1] == b[..n - 1];
      assert a[n - 1] == a[..n][n - 1] == b[..n][n - 1];
      KeptPrefix(c, a, b, n - 1);
    }
  }

  /** The bucket of `key` is the one its own calls alone would have left. */
  lemma {:induction false} KeptPerKey(c: Config, calls: seq<Call>, key: string, n: nat)
    requires n <= |calls|
    ensures var kept, own := KeptAfter(c, calls, n), KeptAfter(c, Only(calls, key, n), |Only(calls, key, n)|);
      && (key in kept <==> key in own) && (key in kept ==> kept[key] == own[key])
  {
    if n > 0 {
      KeptPerKey(c, calls, key, n - 1);
      if calls[n - 1].key == key {
        var init, own := Only(calls, key, n - 1), Only(calls, key, n);
        assert own[..|init|] == init == init[..|init|];
        KeptPrefix(c, own, init, |init|);
      }
    }
  }

  lemma {:induction false} OnlyMonotone(calls: seq<Call>, key: string, n: nat)
    requires Monotone(calls) && n <= |calls|
    ensures Monotone(Only(calls, key, n))
  {
    if n > 0 {
      OnlyMonotone(calls, key, n - 1);
      assert forall x <- calls[..n - 1] :: x.now <= calls[n - 1].now;
    }
  }

  /** Call `n` is answered as it would be after the calls for its own key alone. */
  predicate AsIfAlone(c: Config, calls: seq<Call>, n: nat)
    requires c.rate > 0.0 && n < |calls|
  {
    var own := Only(calls, calls[n].key, n + 1);
    Reply(c, calls, true, n) == Reply(c, own, true, |own| - 1)
  }

  lemma KeysIndependent(c: Config, calls: seq<Call>, n: nat)
    requires Usable(c) && c.burst as real <= c.drip(c.window) && Monotone(calls) && n < |calls|
    ensures AsIfAlone(c, calls, n)
  {
    var key := calls[n].key;
    var init, own := Only(calls, key, n), Only(calls, key, n + 1);
    OnlyMonotone(calls, key, n + 1);
    SameReply(c, calls, n);
    SameReply(c, own, |own| - 1);
    KeptPerKey(c, calls, key, n);
    assert own[..|init|] == init == init[..|init|];
    KeptPrefix(c, own, init, |init|);
  }

  ghost predicate KeysIndependentAlways(c: Config)
    requires c.rate > 0.0
  {
    forall calls, n: nat :: Monotone(calls) && n < |calls| ==> AsIfAlone(c, calls, n)
  }

  // ---- When another key's call postpones a collection ----

  /** `n` calls at time 0, one for another key at `window`, then `n` more at time `later`. */
  function Interrupted(n: nat, window: Time, later: Time): (calls: seq<Call>)
    ensures |calls| == 2 * n + 1 && calls[n] == Call("other", window)
    ensures forall i :: 0 <= i < n ==> calls[i] == Call("", 0.0)
    ensures forall i :: n < i <= 2 * n ==> calls[i] == Call("", later)
  {
    seq(2 * n + 1, i => if i == n then Call("other", window) else Call("", if i < n then 0.0 else later))
  }

  /** The other key's call finds nothing idle yet, and moves the next collection past `later`. */
  lemma {:induction false} NothingCollected(c: Config, calls: seq<Call>, later: Time, k: nat)
    requires 0.0 < c.window < later < 2.0 * c.window && calls == Interrupted(c.burst, c.window, later) && k <= |calls|
    ensures After(c, calls, k).buckets == KeptAfter(c, calls, k)
    ensures After(c, calls, k).lastGC ==
      if k == 0 then None else if k <= c.burst then Some(0.0) else Some(c.window)
    ensures k <= c.burst ==> forall key :: key in KeptAfter(c, calls, k) ==> KeptAfter(c, calls, k)[key].lastSeen == 0.0
    ensures k < |calls| ==> Collect(c, After(c, calls, k), calls[k].now).buckets == KeptAfter(c, calls, k)
  {
    if k > 0 {
      NothingCollected(c, calls, later, k - 1);
    }
  }

  /** Calls of the interrupted key among the first `k`. */
  function OwnCount(n: nat, k: nat): nat {
    if k <= n then k else k - 1
  }

  lemma {:induction false} OwnAreBursts(c: Config, calls: seq<Call>, later: Time, k: nat)
    requires calls == Interrupted(c.burst, c.window, later) && k <= |calls|
    ensures FromBursts(c, Only(calls, "", k), later) && |Only(calls, "", k)| == OwnCount(c.burst, k)
  {
    if k > 0 {
      OwnAreBursts(c, calls, later, k - 1);
    }
  }

  lemma {:induction false} CountAllowed(c: Config, calls: seq<Call>, later: Time, j: nat)
    requires c.rate > 0.0 && calls == Interrupted(c.burst, c.window, later) && j <= |calls|
    requires forall k: nat :: k < j && k != c.burst ==> Reply(c, calls, true, k) == Allowed
    ensures AllowedIn(c, calls, true, "", 0, j) == OwnCount(c.burst, j)
  {
    if j > 0 {
      CountAllowed(c, calls, later, j - 1);
    }
  }

  /** Nothing is collected, so the interrupted key is held to its rate: some call of it is denied. */
  lemma InterruptedDenied(c: Config, calls: seq<Call>, later: Time) returns (k: nat)
    requires Usable(c) && c.window < later < 2.0 * c.window && c.drip(later) < c.burst as real
    requires calls == Interrupted(c.burst, c.window, later)
    ensures k < |calls| && k != c.burst && Reply(c, calls, true, k) != Allowed
  {
    assert Monotone(calls) && calls[|calls| - 1].now - calls[0].now == later;
    forall k: nat | k < |calls|
      ensures Reply(c, calls, true, k) == Reply(c, calls, false, k)
    {
      NothingCollected(c, calls, later, k);
    }
    SameAllowed(c, calls, "", 0, |calls|);
    KeptWithinRate(c, calls, "", 0, |calls|);
    if forall k: nat :: k < |calls| && k != c.burst ==> Reply(c, calls, true, k) == Allowed {
      CountAllowed(c, calls, later, |calls|);
      assert false;
    }
    k :| k < |calls| && k != c.burst && Reply(c, calls, true, k) != Allowed;
  }

  /** Left to itself, the interrupted key would be allowed every call. */
  lemma LastAllowed(c: Config, own: seq<Call>, later: Time)
    requires Usable(c) && later > c.window && FromBursts(c, own, later) && own != []
    ensures Reply(c, own, true, |own| - 1) == Allowed
  {
    AllAllowed(c, own, later, |own|);
  }

  lemma OwnCalls(c: Config, calls: seq<Call>, later: Time, n: nat) returns (own: seq<Call>)
    requires calls == Interrupted(c.burst, c.window, later) && n < |calls| && n != c.burst
    ensures own == Only(calls, calls[n].key, n + 1) && own != [] && FromBursts(c, own, later)
  {
    own := Only(calls, "", n + 1);
    OwnAreBursts(c, calls, later, n + 1);
  }

  lemma KeysCoupled(c: Config, calls: seq<Call>, n: nat, own: seq<Call>)
    requires c.rate > 0.0 && Monotone(calls) && n < |calls| && own == Only(calls, calls[n].key, n + 1)
    requires own != [] && Reply(c, calls, true, n) != Reply(c, own, true, |own| - 1)
    ensures !KeysIndependentAlways(c)
  {
    assert !AsIfAlone(c, calls, n);
  }

  /** With a short window another key's call can deny a key what it would be allowed on its own. */
  lemma ShortWindowCouplesKeys(c: Config)
    requires Usable(c) && c.burst as real > c.drip(c.window)
    ensures !KeysIndependentAlways(c)
  {
    HalfWay(c, TooSoon(c));
    var later := Min(TooSoon(c), 1.5 * c.window);
    DripLe(c, later, TooSoon(c));
    var calls := Interrupted(c.burst, c.window, later);
    var n := InterruptedDenied(c, calls, later);
    var own := OwnCalls(c, calls, later, n);
    LastAllowed(c, own, later);
    KeysCoupled(c, calls, n, own);
  }

  /** Calls for other keys never matter exactly when a bucket refills within the window. */
  lemma KeysIndependentIff(c: Config)
    requires Usable(c)
    ensures KeysIndependentAlways(c) <==> c.burst as real <= c.window * c.rate
  {
    DripIs(c, c.window);
    if c.burst as real <= c.drip(c.window) {
      forall calls, n: nat | Monotone(calls) && n < |calls|
        ensures AsIfAlone(c, calls, n)
      {
        KeysIndependent(c, calls, n);
      }
    } else {
      ShortWindowCouplesKeys(c);
    }
  }

  // ---- The limiter object ----

  /** Limits below one are raised to one; buckets idle for ten minutes may be collected. */
  function NewConfig(perMinute: int, burst: int): Config {
    var rate := Max(1, perMinute) as real / 60.0;
    Config(rate, dt => dt * rate, Max(1, burst), 600.0)
  }

  lemma NewConfigUsable(perMinute: int, burst: int)
    ensures var c := NewConfig(perMinute, burst);
      Usable(c) && (c.burst as real <= c.window * c.rate <==> Max(1, burst) <= 10 * Max(1, perMinute))
  {
  }

  /**
   * A new limiter hides its collections, keeps its rate and keeps its keys apart exactly when its
   * burst is at most ten minutes' worth of its rate.
   */
  lemma NewConfigIff(perMinute: int, burst: int)
    ensures var c := NewConfig(perMinute, burst);
      && Usable(c)
      && (GcInvisible(c) <==> Max(1, burst) <= 10 * Max(1, perMinute))
      && (RateBounded(c) <==> Max(1, burst) <= 10 * Max(1, perMinute))
      && (KeysIndependentAlways(c) <==> Max(1, burst) <= 10 * Max(1, perMinute))
  {
    var c := NewConfig(perMinute, burst);
    NewConfigUsable(perMinute, burst);
    assert GcInvisible(c) <==> Max(1, burst) <= 10 * Max(1, perMinute) by {
      GcInvisibleIff(c);
    }
    assert RateBounded(c) <==> Max(1, burst) <= 10 * Max(1, perMinute) by {
      RateBoundedIff(c);
    }
    KeysIndependentIff(c);
  }

  class RateLimiter {
    var buckets: map<string, Bucket>
    var lastGC: Option<Time>
    const config: Config

    ghost function State(): Limiter
      reads this
    {
      Limiter(buckets, lastGC)
    }

    constructor (perMinute: int, burst: int)
      ensures config == NewConfig(perMinute, burst) && State() == FRESH
    {
      config, buckets, lastGC := NewConfig(perMinute, burst), map[], None;
    }

    method Allow(key: string, now: Time) returns (ok: bool, wait: real)
      requires config.rate > 0.0
      modifies this
      ensures State() == Serve(config, old(State()), Call(key, now))
      ensures (if ok then Allowed else Denied(wait)) == ServeAnswer(config, old(State()), Call(key, now))
    {
      GcLocked(now);
      if key !in buckets {
        buckets := buckets[key := Bucket(config.burst as real, now, now)];
      }
      var b := buckets[key];
      var elapsed := now - b.last;
      if elapsed > 0.0 {
        b := b.(tokens := b.tokens + config.drip(elapsed));
        if b.tokens > config.burst as real {
          b := b.(tokens := config.burst as real);
        }
        b := b.(last := now);
      }
      b := b.(lastSeen := now);
      if b.tokens < 1.0 {
        buckets := buckets[key := b];
        wait := (1.0 - b.tokens) / config.rate;
        if wait < 1.0 {
          wait := 1.0;
        }
        return false, wait;
      }
      b := b.(tokens := b.tokens - 1.0);
      buckets := buckets[key := b];
      return true, 0.0;
    }

    method GcLocked(now: Time)
      modifies this
      ensures State() == Collect(config, old(State()), now)
    {
      if lastGC.None? {
        lastGC := Some(now);
        return;
      }
      if now - lastGC.value < config.window {
        return;
      }
      var left := buckets.Keys;
      while left != {}
        invariant lastGC == old(lastGC) && left <= buckets.Keys <= old(buckets).Keys
        invariant forall k :: k in buckets ==> buckets[k] == old(buckets)[k]
        invariant forall k :: k in old(buckets) && k !in left ==>
          (k in buckets <==> !Idle(config, old(buckets)[k], now))
        decreases left
      {
        var k :| k in left;
        left := left - {k};
        if now - buckets[k].lastSeen > config.window {
          buckets := buckets - {k};
        }
      }
      lastGC := Some(now);
    }
  }
}
