/** Which calls the limiter allows, said in terms of the calls it allowed before, and how long to wait. */
module LimiterLaw {
  import opened Common
  import opened RateLimit

  /**
   * One more call fits the budget of every stretch of calls for the key that ends with it: the
   * burst plus what drips in meanwhile.
   */
  ghost predicate HasRoom(c: Config, calls: seq<Call>, gc: bool, k: nat)
    requires c.rate > 0.0 && k < |calls|
  {
    forall i: nat :: i <= k && calls[i].key == calls[k].key ==> Fits(c, calls, gc, i, k)
  }

  predicate Fits(c: Config, calls: seq<Call>, gc: bool, i: nat, k: nat)
    requires c.rate > 0.0 && i <= k < |calls|
  {
    OneMore(AllowedIn(c, calls, gc, calls[k].key, i, k), c.burst, c.drip(calls[k].now - calls[i].now))
  }

  predicate OneMore(allowed: nat, burst: int, earned: real) {
    allowed as real + 1.0 <= burst as real + earned
  }

  // ---- The tokens at hand ----

  lemma TokensAreLevel(c: Config, calls: seq<Call>, n: nat, call: Call)
    requires Usable(c) && Monotone(calls) && n <= |calls| && (n > 0 ==> calls[n - 1].now <= call.now)
    ensures var kept := KeptAfter(c, calls, n); Current(c, kept, call).tokens == Level(c, kept, call.key, call.now)
    ensures Current(c, KeptAfter(c, calls, n), call).last == call.now
  {
    KeptOk(c, calls, n, call.now);
    DripAdd(c, 0.0, 0.0);
  }

  lemma KeptSpent(c: Config, calls: seq<Call>, key: string, i: nat, j: nat)
    requires Usable(c) && Monotone(calls) && i < j <= |calls|
    ensures AllowedIn(c, calls, false, key, i, j) as real + Level(c, KeptAfter(c, calls, j), key, calls[j - 1].now)
      <= c.burst as real + c.drip(calls[j - 1].now - calls[i].now)
  {
    KeptSpends(c, calls, key, i, j);
    LevelBounds(c, calls, i, key, calls[i].now);
  }

  lemma Stretch(c: Config, spent: real, level: real, level': real, from: Time, before: Time, now: Time)
    requires Usable(c) && spent + level <= c.burst as real + c.drip(before - from)
    requires level' <= level + c.drip(now - before)
    ensures spent + level' <= c.burst as real + c.drip(now - from)
  {
    DripAdd(c, before - from, now - before);
    assert (before - from) + (now - before) == now - from;
  }

  /** What is left for a key and what it was allowed since call `i` never exceed its due. */
  lemma LevelUpper(c: Config, calls: seq<Call>, key: string, i: nat, k: nat, now: Time)
    requires Usable(c) && Monotone(calls) && i <= k < |calls| && now == calls[k].now
    ensures AllowedIn(c, calls, false, key, i, k) as real + Level(c, KeptAfter(c, calls, k), key, now)
      <= c.burst as real + c.drip(now - calls[i].now)
  {
    if i < k {
      var before, kept := calls[k - 1].now, KeptAfter(c, calls, k);
      KeptSpent(c, calls, key, i, k);
      LevelLater(c, kept, key, before, now);
      Stretch(c, AllowedIn(c, calls, false, key, i, k) as real, Level(c, kept, key, before), Level(c, kept, key, now),
              calls[i].now, before, now);
    } else {
      LevelBounds(c, calls, k, key, now);
      DripAdd(c, 0.0, 0.0);
    }
  }

  /** What the level after `n` calls is made of: a full bucket, or all that dripped in since some call for the key. */
  ghost predicate MadeSince(c: Config, calls: seq<Call>, key: string, n: nat, now: Time, i: nat)
    requires c.rate > 0.0 && i <= n <= |calls|
  {
    var level := Level(c, KeptAfter(c, calls, n), key, now);
    if i == n then level == c.burst as real
    else
      && calls[i].key == key
      && level == c.burst as real + c.drip(now - calls[i].now) - AllowedIn(c, calls, false, key, i, n) as real
  }

  lemma {:induction false} LevelWitness(c: Config, calls: seq<Call>, key: string, n: nat, now: Time) returns (i: nat)
    requires Usable(c) && Monotone(calls) && n <= |calls| && (n > 0 ==> calls[n - 1].now <= now)
    ensures i <= n && MadeSince(c, calls, key, n, now, i)
    decreases n
  {
    if n == 0 {
      return 0;
    }
    var last := calls[n - 1];
    if last.key != key {
      i := LevelWitness(c, calls, key, n - 1, now);
      i := if i == n - 1 then n else i;
    } else {
      i := LevelWitness(c, calls, key, n - 1, last.now);
      i := OwnCallWitness(c, calls, n, now, i);
    }
  }

  /** A call of the key itself: its spending is counted, and the bucket may have filled up since. */
  lemma OwnCallWitness(c: Config, calls: seq<Call>, n: nat, now: Time, i: nat) returns (i': nat)
    requires Usable(c) && Monotone(calls) && 1 <= n <= |calls| && calls[n - 1].now <= now && i <= n - 1
    requires MadeSince(c, calls, calls[n - 1].key, n - 1, calls[n - 1].now, i)
    ensures i' <= n && MadeSince(c, calls, calls[n - 1].key, n, now, i')
  {
    var last, kept := calls[n - 1], KeptAfter(c, calls, n - 1);
    TokensAreLevel(c, calls, n - 1, last);
    DripAdd(c, last.now - calls[i].now, now - last.now);
    DripAdd(c, 0.0, 0.0);
    assert (last.now - calls[i].now) + (now - last.now) == now - calls[i].now;
    var spent := Spend(Current(c, kept, last)).tokens;
    i' := if spent + c.drip(now - last.now) >= c.burst as real then n else i;
  }

  // ---- The law ----

  lemma KeptLaw(c: Config, calls: seq<Call>, k: nat)
    requires Usable(c) && Monotone(calls) && k < |calls|
    ensures Reply(c, calls, false, k) == Allowed <==> HasRoom(c, calls, false, k)
  {
    var key, now := calls[k].key, calls[k].now;
    TokensAreLevel(c, calls, k, calls[k]);
    if Reply(c, calls, false, k) == Allowed {
      forall i: nat | i <= k && calls[i].key == key
        ensures Fits(c, calls, false, i, k)
      {
        LevelUpper(c, calls, key, i, k, now);
      }
    } else {
      var i := LevelWitness(c, calls, key, k, now);
      assert !Fits(c, calls, false, i, k);
    }
  }

  ghost predicate ExactAlways(c: Config)
    requires c.rate > 0.0
  {
    forall calls, k: nat :: Monotone(calls) && k < |calls| ==>
      (Reply(c, calls, true, k) == Allowed <==> HasRoom(c, calls, true, k))
  }

  lemma CollectedLaw(c: Config, calls: seq<Call>, k: nat)
    requires Usable(c) && c.burst as real <= c.drip(c.window) && Monotone(calls) && k < |calls|
    ensures Reply(c, calls, true, k) == Allowed <==> HasRoom(c, calls, true, k)
  {
    forall j: nat | j < |calls|
      ensures Reply(c, calls, true, j) == Reply(c, calls, false, j)
    {
      SameReply(c, calls, j);
    }
    KeptLaw(c, calls, k);
    forall i: nat | i <= k
      ensures Fits(c, calls, true, i, k) == Fits(c, calls, false, i, k)
    {
      SameAllowed(c, calls, calls[k].key, i, k);
    }
  }

  lemma LastDoesNotFit(c: Config, calls: seq<Call>, later: Time, k: nat)
    requires Usable(c) && later > c.window && c.drip(later) < c.burst as real && k == 2 * c.burst - 1
    requires |calls| == 2 * c.burst && FromBursts(c, calls, later)
    ensures !Fits(c, calls, true, 0, k)
  {
    AllAllowed(c, calls, later, k);
    assert calls[0] == Call("", 0.0) && calls[k] == Call("", later);
  }

  lemma LastIsAllowed(c: Config, calls: seq<Call>, later: Time, k: nat)
    requires Usable(c) && later > c.window && k == 2 * c.burst - 1
    requires |calls| == 2 * c.burst && FromBursts(c, calls, later)
    ensures Reply(c, calls, true, k) == Allowed
  {
    AllAllowed(c, calls, later, k + 1);
  }

  lemma LawBroken(c: Config, calls: seq<Call>, k: nat)
    requires c.rate > 0.0 && Monotone(calls) && k < |calls| && calls[0].key == calls[k].key
    requires Reply(c, calls, true, k) == Allowed && !Fits(c, calls, true, 0, k)
    ensures !ExactAlways(c)
  {
    assert !HasRoom(c, calls, true, k);
  }

  /** The last call of two bursts is allowed although it does not fit. */
  lemma TwoBurstsBreakLaw(c: Config)
    requires Usable(c) && c.burst as real > c.drip(c.window)
    ensures !ExactAlways(c)
  {
    var later, k := TooSoon(c), 2 * c.burst - 1;
    var calls := TwoBursts(c.burst, c.burst, later);
    HalfWay(c, later);
    LastDoesNotFit(c, calls, later, k);
    LastIsAllowed(c, calls, later, k);
    assert calls[0].key == calls[k].key;
    LawBroken(c, calls, k);
  }

  /**
   * A call is allowed if and only if it fits every stretch of calls for its key that ends with it;
   * this is so for all call sequences exactly when a bucket refills within the window.
   */
  lemma ExactIff(c: Config)
    requires Usable(c)
    ensures ExactAlways(c) <==> c.burst as real <= c.window * c.rate
  {
    DripIs(c, c.window);
    if c.burst as real <= c.drip(c.window) {
      forall calls, k: nat | Monotone(calls) && k < |calls|
        ensures Reply(c, calls, true, k) == Allowed <==> HasRoom(c, calls, true, k)
      {
        CollectedLaw(c, calls, k);
      }
    } else {
      TwoBurstsBreakLaw(c);
    }
  }

  // ---- The retry hint ----

  lemma {:induction false} Untouched(c: Config, calls: seq<Call>, key: string, m: nat, n: nat)
    requires m <= n <= |calls| && key in KeptAfter(c, calls, m)
    requires forall i :: m <= i < n ==> calls[i].key != key
    ensures key in KeptAfter(c, calls, n) && KeptAfter(c, calls, n)[key] == KeptAfter(c, calls, m)[key]
    decreases n
  {
    if m < n {
      Untouched(c, calls, key, m, n - 1);
    }
  }

  lemma MissingTime(c: Config, missing: real, dt: Time)
    requires Usable(c)
    ensures missing <= c.drip(dt) <==> missing / c.rate <= dt
  {
    DripIs(c, missing / c.rate);
    if dt < missing / c.rate {
      DripLe(c, dt, missing / c.rate);
    } else {
      DripLe(c, missing / c.rate, dt);
    }
  }

  /** `n` is the next call for the key of call `k`. */
  ghost predicate NextForKey(calls: seq<Call>, k: nat, n: nat) {
    && k < n < |calls| && calls[n].key == calls[k].key
    && forall i :: k < i < n ==> calls[i].key != calls[k].key
  }

  lemma KeptHint(c: Config, calls: seq<Call>, k: nat, n: nat)
    requires Usable(c) && Monotone(calls) && NextForKey(calls, k, n)
    requires Reply(c, calls, false, k).Denied?
    ensures var wait, dt := Reply(c, calls, false, k).wait, calls[n].now - calls[k].now;
      && wait >= 1.0
      && (dt >= wait ==> Reply(c, calls, false, n) == Allowed)
      && (wait > 1.0 && dt < wait ==> Reply(c, calls, false, n) != Allowed)
  {
    var call, kept := calls[k], KeptAfter(c, calls, k);
    var tokens := Current(c, kept, call).tokens;
    TokensAreLevel(c, calls, k, call);
    TokensAreLevel(c, calls, n, calls[n]);
    Untouched(c, calls, call.key, k + 1, n);
    MissingTime(c, 1.0 - tokens, calls[n].now - call.now);
  }

  /**
   * The retry hint is sound and, above its one-second floor, tight: the key's next call is allowed
   * if it comes after the hinted wait, and denied if it comes before.
   */
  lemma HintIsExact(c: Config, calls: seq<Call>, k: nat, n: nat)
    requires Usable(c) && c.burst as real <= c.window * c.rate && Monotone(calls) && NextForKey(calls, k, n)
    requires Reply(c, calls, true, k).Denied?
    ensures var wait, dt := Reply(c, calls, true, k).wait, calls[n].now - calls[k].now;
      && wait >= 1.0
      && (dt >= wait ==> Reply(c, calls, true, n) == Allowed)
      && (wait > 1.0 && dt < wait ==> Reply(c, calls, true, n) != Allowed)
  {
    DripIs(c, c.window);
    SameReply(c, calls, k);
    SameReply(c, calls, n);
    KeptHint(c, calls, k, n);
  }

  // ---- A new limiter ----

  /** What a per-minute limit earns in `dt` seconds. */
  function Earned(perMinute: int, dt: Time): real {
    dt * (Max(1, perMinute) as real / 60.0)
  }

  /** One more call is within the burst plus a sixtieth of the per-minute limit for each second elapsed. */
  predicate FitsPerMinute(perMinute: int, burst: int, calls: seq<Call>, i: nat, k: nat)
    requires i <= k < |calls|
  {
    OneMore(
      AllowedIn(NewConfig(perMinute, burst), calls, true, calls[k].key, i, k), Max(1, burst),
      Earned(perMinute, calls[k].now - calls[i].now))
  }

  lemma NewDripIs(perMinute: int, burst: int, dt: Time)
    ensures NewConfig(perMinute, burst).drip(dt) == Earned(perMinute, dt)
  {
  }

  lemma FitsPerMinuteIs(perMinute: int, burst: int, calls: seq<Call>, i: nat, k: nat, c: Config)
    requires i <= k < |calls| && c == NewConfig(perMinute, burst)
    ensures FitsPerMinute(perMinute, burst, calls, i, k) == Fits(c, calls, true, i, k)
  {
    NewDripIs(perMinute, burst, calls[k].now - calls[i].now);
  }

  ghost predicate HasRoomPerMinute(perMinute: int, burst: int, calls: seq<Call>, k: nat)
    requires k < |calls|
  {
    forall i: nat :: i <= k && calls[i].key == calls[k].key ==> FitsPerMinute(perMinute, burst, calls, i, k)
  }

  lemma RoomPerMinuteIs(perMinute: int, burst: int, calls: seq<Call>, k: nat, c: Config)
    requires c == NewConfig(perMinute, burst) && k < |calls|
    ensures HasRoomPerMinute(perMinute, burst, calls, k) <==> HasRoom(c, calls, true, k)
  {
    forall i: nat | i <= k
      ensures FitsPerMinute(perMinute, burst, calls, i, k) == Fits(c, calls, true, i, k)
    {
      FitsPerMinuteIs(perMinute, burst, calls, i, k, c);
    }
  }

  lemma NewLimiterRefills(perMinute: int, burst: int, c: Config)
    requires c == NewConfig(perMinute, burst) && Max(1, burst) <= 10 * Max(1, perMinute)
    ensures Usable(c) && c.burst as real <= c.drip(c.window)
  {
    NewConfigUsable(perMinute, burst);
    DripIs(c, c.window);
  }

  /**
   * With a burst of at most ten minutes of its rate, a new limiter allows a call exactly when it
   * fits every stretch of calls for its key that ends with it.
   */
  lemma NewLimiterAllows(perMinute: int, burst: int, calls: seq<Call>, k: nat, c: Config)
    requires c == NewConfig(perMinute, burst) && Max(1, burst) <= 10 * Max(1, perMinute)
    requires Monotone(calls) && k < |calls|
    ensures Reply(c, calls, true, k) == Allowed <==> HasRoomPerMinute(perMinute, burst, calls, k)
  {
    RoomPerMinuteIs(perMinute, burst, calls, k, c);
    NewLimiterRefills(perMinute, burst, c);
    CollectedLaw(c, calls, k);
  }
}
