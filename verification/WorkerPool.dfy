/** Worker ids as a pool assigns them, and what a fleet of pools must be configured with. */
module WorkerPool {
  import opened Common
  import opened SharedIds

  // ---- Ids ----

  function Decimal(n: nat): string {
    if n < 10 then ["0123456789"[n]] else Decimal(n / 10) + ["0123456789"[n % 10]]
  }

  /** `fmt.Sprintf("%s-%d", prefix, n)` */
  function WorkerId(prefix: string, n: nat): string {
    prefix + "-" + Decimal(n)
  }

  lemma {:induction false} DecimalHasNoDash(n: nat)
    ensures Decimal(n) != [] && '-' !in Decimal(n)
  {
    if n >= 10 {
      DecimalHasNoDash(n / 10);
    }
  }

  lemma {:induction false} DecimalInjective(m: nat, n: nat)
    requires Decimal(m) == Decimal(n)
    ensures m == n
  {
    var a, b := Decimal(m), Decimal(n);
    assert a[|a| - 1] == b[|b| - 1];
    if m >= 10 {
      DecimalHasNoDash(m / 10);
    }
    if n >= 10 {
      DecimalHasNoDash(n / 10);
    }
    if m >= 10 && n >= 10 {
      assert Decimal(m / 10) == a[..|a| - 1] == b[..|b| - 1] == Decimal(n / 10);
      DecimalInjective(m / 10, n / 10);
    }
  }

  /** The last dash splits an id, so neither prefix nor number can be confused. */
  lemma WorkerIdInjective(p: string, m: nat, q: string, n: nat)
    ensures WorkerId(p, m) == WorkerId(q, n) <==> p == q && m == n
  {
    if WorkerId(p, m) == WorkerId(q, n) {
      var id, dm, dn := WorkerId(p, m), Decimal(m), Decimal(n);
      DecimalHasNoDash(m);
      DecimalHasNoDash(n);
      assert id[|p| + 1..] == dm && id[|q| + 1..] == dn;
      assert forall k :: |p| < k < |id| ==> id[k] == dm[k - |p| - 1];
      assert forall k :: |q| < k < |id| ==> id[k] == dn[k - |q| - 1];
      assert id[|p|] == '-' && id[|q|] == '-';
      assert p == id[..|p|] && q == id[..|q|];
      DecimalInjective(m, n);
    }
  }

  // ---- Settings and pool start ----

  datatype Config = Config(
    prefix: string, concurrency: int, pollInterval: Time, heartbeatInterval: Time, handlerTimeout: Time,
    baseBackoff: Time, maxBackoff: Time, reaperInterval: Time, staleThreshold: Time)

  predicate Normal(c: Config) {
    && c.prefix != "" && c.concurrency >= 1
    && c.pollInterval > 0.0 && c.heartbeatInterval > 0.0 && c.handlerTimeout > 0.0
    && c.reaperInterval > 0.0 && c.staleThreshold > 0.0
    && 0.0 < c.baseBackoff <= c.maxBackoff
  }

  function Defaulted(x: Time, default: Time): Time {
    if x <= 0.0 then default else x
  }

  function CappedBase(base: Time, cap: Time): Time {
    if Defaulted(base, 10.0) > Defaulted(cap, 300.0) then Defaulted(cap, 300.0) else Defaulted(base, 10.0)
  }

  /** Unset fields get their default and a base backoff above the cap is lowered to it. */
  function Normalized(c: Config): Config {
    Config(
      if c.prefix == "" then "dhara-worker" else c.prefix, Max(1, c.concurrency),
      Defaulted(c.pollInterval, 0.25), Defaulted(c.heartbeatInterval, 30.0), Defaulted(c.handlerTimeout, 300.0),
      CappedBase(c.baseBackoff, c.maxBackoff), Defaulted(c.maxBackoff, 300.0),
      Defaulted(c.reaperInterval, 30.0), Defaulted(c.staleThreshold, 300.0))
  }

  /** Normalizing always ends usable, and is the identity exactly on usable settings. */
  lemma NormalizedIff(c: Config)
    ensures Normal(Normalized(c)) && Normalized(Normalized(c)) == Normalized(c)
    ensures Normalized(c) == c <==> Normal(c)
  {
    assert "dhara-worker" != "";
  }

  /** What is set is kept, except a base backoff above the cap. */
  lemma SetFieldsAreKept(c: Config)
    ensures var n := Normalized(c);
      && (c.prefix != "" ==> n.prefix == c.prefix) && (c.concurrency > 0 ==> n.concurrency == c.concurrency)
      && (c.pollInterval > 0.0 ==> n.pollInterval == c.pollInterval)
      && (c.heartbeatInterval > 0.0 ==> n.heartbeatInterval == c.heartbeatInterval)
      && (c.handlerTimeout > 0.0 ==> n.handlerTimeout == c.handlerTimeout)
      && (c.reaperInterval > 0.0 ==> n.reaperInterval == c.reaperInterval)
      && (c.staleThreshold > 0.0 ==> n.staleThreshold == c.staleThreshold)
      && (c.maxBackoff > 0.0 ==> n.maxBackoff == c.maxBackoff)
      && (c.baseBackoff > 0.0 ==> n.baseBackoff == if c.baseBackoff > n.maxBackoff then n.maxBackoff else c.baseBackoff)
  {
  }

  /** What is not set gets the documented default, whatever else is set. */
  lemma UnsetFieldsAreDefault(c: Config)
    ensures var n := Normalized(c);
      && (c.prefix == "" ==> n.prefix == "dhara-worker") && (c.concurrency <= 0 ==> n.concurrency == 1)
      && (c.pollInterval <= 0.0 ==> n.pollInterval == 0.25)
      && (c.heartbeatInterval <= 0.0 ==> n.heartbeatInterval == 30.0)
      && (c.handlerTimeout <= 0.0 ==> n.handlerTimeout == 300.0)
      && (c.reaperInterval <= 0.0 ==> n.reaperInterval == 30.0)
      && (c.staleThreshold <= 0.0 ==> n.staleThreshold == 300.0)
      && (c.maxBackoff <= 0.0 ==> n.maxBackoff == 300.0)
      && (c.baseBackoff <= 0.0 ==> n.baseBackoff == if n.maxBackoff < 10.0 then n.maxBackoff else 10.0)
  {
  }

  class Settings {
    var config: Config

    constructor (config: Config)
      ensures this.config == config
    {
      this.config := config;
    }

    method Normalize()
      modifies this
      ensures config == Normalized(old(config)) && Normal(config)
    {
      NormalizedIff(config);
      if config.prefix == "" { config := config.(prefix := "dhara-worker"); }
      if config.concurrency <= 0 { config := config.(concurrency := 1); }
      if config.pollInterval <= 0.0 { config := config.(pollInterval := 0.25); }
      if config.heartbeatInterval <= 0.0 { config := config.(heartbeatInterval := 30.0); }
      if config.reaperInterval <= 0.0 { config := config.(reaperInterval := 30.0); }
      if config.staleThreshold <= 0.0 { config := config.(staleThreshold := 300.0); }
      NormalizeExecution();
    }

    /** The handler timeout and the backoff bounds. */
    method NormalizeExecution()
      modifies this
      ensures config == old(config).(
        handlerTimeout := Defaulted(old(config).handlerTimeout, 300.0),
        baseBackoff := CappedBase(old(config).baseBackoff, old(config).maxBackoff),
        maxBackoff := Defaulted(old(config).maxBackoff, 300.0))
    {
      if config.handlerTimeout <= 0.0 { config := config.(handlerTimeout := 300.0); }
      if config.baseBackoff <= 0.0 { config := config.(baseBackoff := 10.0); }
      if config.maxBackoff <= 0.0 { config := config.(maxBackoff := 300.0); }
      if config.baseBackoff > config.maxBackoff { config := config.(baseBackoff := config.maxBackoff); }
    }
  }

  function PoolIds(prefix: string, n: nat): (ids: seq<string>)
    ensures |ids| == n
    ensures forall k :: 0 <= k < n ==> ids[k] == WorkerId(prefix, k + 1)
  {
    seq(n, k requires k >= 0 => WorkerId(prefix, k + 1))
  }

  /** A pool starts its workers at most once, numbered from 1. */
  class Pool {
    const prefix: string
    const concurrency: nat
    var started: bool
    var workers: seq<string>
    var reaper: string

    constructor (settings: Settings)
      requires Normal(settings.config)
      ensures prefix == settings.config.prefix && concurrency == settings.config.concurrency
      ensures !started && workers == []
    {
      prefix, concurrency := settings.config.prefix, settings.config.concurrency;
      started, workers, reaper := false, [], "";
    }

    method Start()
      modifies this
      ensures started
      ensures workers == if old(started) then old(workers) else PoolIds(prefix, concurrency)
      ensures reaper == if old(started) then old(reaper) else prefix + "-reaper"
    {
      if started {
        return;
      }
      started := true;
      workers := [];
      for i := 0 to concurrency
        invariant started && |workers| == i
        invariant forall k :: 0 <= k < i ==> workers[k] == WorkerId(prefix, k + 1)
      {
        workers := workers + [WorkerId(prefix, i + 1)];
      }
      reaper := prefix + "-reaper";
    }
  }

  // ---- A fleet of pools on one database ----

  /** The prefix a pool runs under: an empty one becomes the default. */
  function Prefix(c: Config): string {
    Normalized(c).prefix
  }

  function Workers(c: Config): seq<string> {
    PoolIds(Prefix(c), Normalized(c).concurrency)
  }

  function FleetIds(pools: seq<Config>): seq<string> {
    if pools == [] then [] else FleetIds(pools[..|pools| - 1]) + Workers(pools[|pools| - 1])
  }

  ghost predicate DistinctPrefixes(pools: seq<Config>) {
    forall a, b :: 0 <= a < b < |pools| ==> Prefix(pools[a]) != Prefix(pools[b])
  }

  lemma WorkersAre(c: Config, id: string)
    ensures id in Workers(c) <==> exists n: nat :: 1 <= n <= Normalized(c).concurrency && id == WorkerId(Prefix(c), n)
  {
    if n: nat :| 1 <= n <= Normalized(c).concurrency && id == WorkerId(Prefix(c), n) {
      assert Workers(c)[n - 1] == id;
    }
    if id in Workers(c) {
      var k :| 0 <= k < |Workers(c)| && Workers(c)[k] == id;
      assert id == WorkerId(Prefix(c), k + 1);
    }
  }

  lemma WorkersDistinct(c: Config)
    ensures Distinct(Workers(c))
  {
    forall i, j | 0 <= i < j < |Workers(c)|
      ensures Workers(c)[i] != Workers(c)[j]
    {
      WorkerIdInjective(Prefix(c), i + 1, Prefix(c), j + 1);
    }
  }

  /** Two pools share a worker id exactly when they run under the same prefix. */
  lemma WorkersMeetIff(c: Config, d: Config)
    ensures (exists id :: id in Workers(c) && id in Workers(d)) <==> Prefix(c) == Prefix(d)
  {
    if id :| id in Workers(c) && id in Workers(d) {
      WorkersAre(c, id);
      WorkersAre(d, id);
      var m: nat :| 1 <= m <= Normalized(c).concurrency && id == WorkerId(Prefix(c), m);
      var n: nat :| 1 <= n <= Normalized(d).concurrency && id == WorkerId(Prefix(d), n);
      WorkerIdInjective(Prefix(c), m, Prefix(d), n);
    }
    if Prefix(c) == Prefix(d) {
      var id := WorkerId(Prefix(c), 1);
      assert Workers(c)[0] == id && Workers(d)[0] == id;
      assert id in Workers(c) && id in Workers(d);
    }
  }

  lemma {:induction false} FleetHas(pools: seq<Config>, a: nat, id: string)
    requires a < |pools| && id in Workers(pools[a])
    ensures id in FleetIds(pools)
    decreases |pools|
  {
    if a < |pools| - 1 {
      FleetHas(pools[..|pools| - 1], a, id);
    }
  }

  lemma {:induction false} FleetFrom(pools: seq<Config>, id: string) returns (a: nat)
    requires id in FleetIds(pools)
    ensures a < |pools| && id in Workers(pools[a])
    decreases |pools|
  {
    if id in Workers(pools[|pools| - 1]) {
      a := |pools| - 1;
    } else {
      a := FleetFrom(pools[..|pools| - 1], id);
    }
  }

  /** Workers of a fleet have distinct ids exactly when its pools run under distinct prefixes. */
  lemma {:induction false} FleetDistinctIff(pools: seq<Config>)
    ensures Distinct(FleetIds(pools)) <==> DistinctPrefixes(pools)
    decreases |pools|
  {
    if pools != [] {
      var init, last := pools[..|pools| - 1], pools[|pools| - 1];
      var a, b := FleetIds(init), Workers(last);
      FleetDistinctIff(init);
      WorkersDistinct(last);
      DistinctConcat(a, b);
      if x :| x in a && x in b {
        var i := FleetFrom(init, x);
        WorkersMeetIff(init[i], last);
        assert Prefix(pools[i]) == Prefix(pools[|pools| - 1]);
      }
      if i :| 0 <= i < |init| && Prefix(init[i]) == Prefix(last) {
        WorkersMeetIff(init[i], last);
        var x :| x in Workers(init[i]) && x in b;
        FleetHas(init, i, x);
      }
      assert DistinctPrefixes(pools) <==>
        DistinctPrefixes(init) && forall i :: 0 <= i < |init| ==> Prefix(init[i]) != Prefix(last);
    }
  }

  /**
   * The attempt budget is kept over all runs of a fleet exactly when no two of its pools run under
   * the same prefix.
   */
  lemma FleetBudgetIff(pools: seq<Config>)
    ensures BudgetAlwaysHolds(FleetIds(pools)) <==> DistinctPrefixes(pools)
  {
    FleetDistinctIff(pools);
    BudgetIffDistinctIds(FleetIds(pools));
  }

  /** And so are fencing, the retry decisions and the handling of late outcomes. */
  lemma FleetFencedIff(pools: seq<Config>)
    ensures AlwaysFenced(FleetIds(pools)) <==> DistinctPrefixes(pools)
    ensures AlwaysDecidedAsCurrent(FleetIds(pools)) <==> DistinctPrefixes(pools)
    ensures LateOutcomesIgnored(FleetIds(pools)) <==> DistinctPrefixes(pools)
  {
    FleetDistinctIff(pools);
    FencedIffDistinctIds(FleetIds(pools));
    DecisionsIffDistinctIds(FleetIds(pools));
    LateOutcomesIffDistinctIds(FleetIds(pools));
  }

  /** Different configured prefixes do not suffice: an unset one meets the default spelled out. */
  lemma UnsetPrefixMeetsDefault(c: Config, d: Config)
    requires c.prefix == "" && d.prefix == "dhara-worker"
    ensures c.prefix != d.prefix && !BudgetAlwaysHolds(FleetIds([c, d]))
  {
    FleetBudgetIff([c, d]);
    assert Prefix([c, d][0]) == Prefix([c, d][1]);
  }
}
