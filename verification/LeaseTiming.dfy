/** Heartbeat, stale threshold and reaper interval: which leases are lost, and how soon. */
module LeaseTiming {
  import opened Common
  import opened Tables
  import opened Protocol
  import opened Fencing
  import opened Reaper
  import WorkerPool

  function Ticks(n: nat, interval: Time): Time {
    n as real * interval
  }

  /** The row after `k` on-time ticks of its worker; `beats` says which of them reached the store. */
  function Beaten(r: Row, start: Time, interval: Time, beats: seq<bool>, k: nat): Row
    requires k <= |beats|
  {
    if k == 0 then r
    else
      var before := Beaten(r, start, interval, beats, k - 1);
      if beats[k - 1] then BeatRow(before, start + Ticks(k, interval)) else before
  }

  /** Between any tick and the next, up to and including the next, the reaper would leave the row alone. */
  ghost predicate NeverStale(r: Row, start: Time, interval: Time, beats: seq<bool>, threshold: Time) {
    forall k: nat, at: Time ::
      k <= |beats| && start + Ticks(k, interval) <= at <= start + Ticks(k + 1, interval) ==>
      !Stale(Beaten(r, start, interval, beats, k), threshold, at)
  }

  ghost predicate Failing(beats: seq<bool>, i: nat, j: nat) {
    i <= j <= |beats| && forall k :: i <= k < j ==> !beats[k]
  }

  /** Every stretch of consecutive failed heartbeats is shorter than `m`. */
  ghost predicate ShortGaps(beats: seq<bool>, m: int) {
    forall i: nat, j: nat :: Failing(beats, i, j) ==> j - i < m
  }

  /** The last tick at or before `k` that refreshed the lease; the claim counts as tick 0. */
  function LastBeat(beats: seq<bool>, k: nat): (n: nat)
    requires k <= |beats|
    ensures n <= k && Failing(beats, n, k) && (n > 0 ==> beats[n - 1])
  {
    if k == 0 then 0 else if beats[k - 1] then k else LastBeat(beats, k - 1)
  }

  lemma {:induction false} LockedSince(r: Row, start: Time, interval: Time, beats: seq<bool>, k: nat)
    requires k <= |beats| && r.status == Running && r.lockedAt == Some(start)
    ensures var r' := Beaten(r, start, interval, beats, k);
      r'.status == Running && r'.lockedAt == Some(start + Ticks(LastBeat(beats, k), interval))
  {
    if k > 0 {
      LockedSince(r, start, interval, beats, k - 1);
    }
  }

  lemma TicksLe(a: nat, b: nat, interval: Time)
    requires a <= b && interval >= 0.0
    ensures Ticks(a, interval) <= Ticks(b, interval)
  {
    assert 0.0 <= (b - a) as real * interval;
  }

  lemma TicksAdd(a: nat, b: nat, interval: Time)
    ensures Ticks(a + b, interval) == Ticks(a, interval) + Ticks(b, interval)
  {
    assert (a + b) as real == a as real + b as real;
  }

  /** How many whole intervals fit into a span. */
  function Fits(span: Time, interval: Time): int
    requires interval > 0.0
  {
    (span / interval).Floor
  }

  lemma FitsIs(span: Time, interval: Time, n: nat)
    requires interval > 0.0
    ensures Ticks(n, interval) <= span <==> n <= Fits(span, interval)
  {
    var q := span / interval;
    assert q * interval == span;
    if n as real <= q {
      assert (q - n as real) * interval >= 0.0;
    } else {
      assert (n as real - q) * interval > 0.0;
    }
  }

  /** A gap of `f` failed beats after tick `n` is survivable exactly when `f + 1` intervals fit. */
  lemma GapSurvives(start: Time, interval: Time, threshold: Time, n: nat, f: nat)
    requires interval > 0.0
    ensures f < Fits(threshold, interval) <==>
      start + Ticks(n + f + 1, interval) - threshold <= start + Ticks(n, interval)
  {
    FitsIs(threshold, interval, f + 1);
    TicksAdd(n, f + 1, interval);
  }

  /**
   * A lease refreshed by on-time ticks never looks stale exactly when no stretch of consecutive
   * failed heartbeats reaches the number of whole intervals in the threshold.
   */
  lemma NeverStaleIff(r: Row, start: Time, interval: Time, beats: seq<bool>, threshold: Time)
    requires r.status == Running && r.lockedAt == Some(start) && interval > 0.0
    ensures NeverStale(r, start, interval, beats, threshold) <==> ShortGaps(beats, Fits(threshold, interval))
  {
    var m := Fits(threshold, interval);
    if ShortGaps(beats, m) {
      forall k: nat, at: Time | k <= |beats| && start + Ticks(k, interval) <= at <= start + Ticks(k + 1, interval)
        ensures !Stale(Beaten(r, start, interval, beats, k), threshold, at)
      {
        var n := LastBeat(beats, k);
        LockedSince(r, start, interval, beats, k);
        assert k - n < m;
        GapSurvives(start, interval, threshold, n, k - n);
      }
    }
    if NeverStale(r, start, interval, beats, threshold) {
      forall i: nat, j: nat | Failing(beats, i, j)
        ensures j - i < m
      {
        GapIsShort(r, start, interval, beats, threshold, i, j);
      }
    }
  }

  lemma GapIsShort(r: Row, start: Time, interval: Time, beats: seq<bool>, threshold: Time, i: nat, j: nat)
    requires r.status == Running && r.lockedAt == Some(start) && interval > 0.0
    requires NeverStale(r, start, interval, beats, threshold) && Failing(beats, i, j)
    ensures j - i < Fits(threshold, interval)
  {
    var n := LastBeat(beats, j);
    var at := start + Ticks(j + 1, interval);
    LockedSince(r, start, interval, beats, j);
    TicksLe(j, j + 1, interval);
    assert !Stale(Beaten(r, start, interval, beats, j), threshold, at);
    GapSurvives(start, interval, threshold, n, j - n);
    assert n <= i;
  }

  // ---- Leases over runs ----

  ghost predicate InForce(s: Sys, t: TaskId, c: nat) {
    t in RunningSet(s.db) && t in s.lease && s.lease[t] == c && c < s.claims
  }

  predicate OwnedSince(s: Sys, t: TaskId, w: string, locked: Time) {
    OwnedBy(s.db, t, w) && s.db.tasks[t].lockedAt == Some(locked)
  }

  /** Claim `c` of `t`, by a worker with id `w`, is in force and was last refreshed at `locked`. */
  ghost predicate Leased(s: Sys, t: TaskId, c: nat, w: string, locked: Time) {
    InForce(s, t, c) && OwnedSince(s, t, w, locked)
  }

  /** A heartbeat under another id has no effect, so it does not count. */
  predicate Beats(ids: seq<string>, step: Step, t: TaskId, w: string) {
    step.Beat? && step.task == t && step.slot < |ids| && ids[step.slot] == w
  }

  /** A lease that is not refreshed stays as it is until it is over for good. */
  lemma StepKeepsLease(ids: seq<string>, s: Sys, step: Step, t: TaskId, c: nat, w: string, locked: Time)
    requires |s.held| == |ids| && Enabled(ids, s, step) && Leased(s, t, c, w, locked) && !Beats(ids, step, t, w)
    ensures Leased(Next(ids, s, step), t, c, w, locked) || Over(Next(ids, s, step), t, c)
  {
    match step
    case Reap(order, _, at) => ReapEachRows(s.db, order, at);
    case _ =>
  }

  lemma {:induction false} RunKeepsLease(
    ids: seq<string>, s: Sys, steps: seq<Step>, t: TaskId, c: nat, w: string, locked: Time)
    requires |s.held| == |ids| && Run(ids, s, steps) && forall x <- steps :: !Beats(ids, x, t, w)
    requires Leased(s, t, c, w, locked) || Over(s, t, c)
    ensures var s' := Final(ids, s, steps); Leased(s', t, c, w, locked) || Over(s', t, c)
    decreases |steps|
  {
    if steps != [] {
      if Over(s, t, c) {
        StepKeepsOver(ids, s, steps[0], t, c);
      } else {
        StepKeepsLease(ids, s, steps[0], t, c, w, locked);
      }
      RunKeepsLease(ids, Next(ids, s, steps[0]), steps[1..], t, c, w, locked);
    }
  }

  // ---- Abandoned tasks ----

  /** The first reaper tick at which a lease last refreshed at `locked` is stale. */
  function FirstReap(first: Time, every: Time, locked: Time, threshold: Time): (n: nat)
    requires every > 0.0 && first <= locked + threshold
  {
    FitsIs(locked + threshold - first, every, 0);
    Fits(locked + threshold - first, every) + 1
  }

  lemma FirstReapIs(first: Time, every: Time, locked: Time, threshold: Time)
    requires every > 0.0 && first <= locked + threshold
    ensures var at := first + Ticks(FirstReap(first, every, locked, threshold), every);
      locked + threshold < at <= locked + threshold + every
  {
    var span, n := locked + threshold - first, FirstReap(first, every, locked, threshold);
    FitsIs(span, every, 0);
    FitsIs(span, every, n);
    FitsIs(span, every, n - 1);
    TicksAdd(n - 1, 1, every);
  }

  /** A pass over everything stale ends a lease past its threshold, if nothing ended it before. */
  lemma PassEndsLease(
    ids: seq<string>, s: Sys, order: seq<TaskId>, threshold: Time, at: Time, t: TaskId, c: nat, w: string, locked: Time)
    requires |s.held| == |ids| && Enabled(ids, s, Reap(order, threshold, at))
    requires Elems(order) == Takes(s.db, threshold, at, {}) && locked + threshold < at
    requires Leased(s, t, c, w, locked) || Over(s, t, c)
    ensures Over(Next(ids, s, Reap(order, threshold, at)), t, c)
  {
    if Over(s, t, c) {
      StepKeepsOver(ids, s, Reap(order, threshold, at), t, c);
    } else {
      assert t in Takes(s.db, threshold, at, {});
      ReapEachRows(s.db, order, at);
    }
  }

  /** A reachable RUNNING row is under the latest claim of its task. */
  lemma RunningIsLeased(ids: seq<string>, s: Sys, t: TaskId, w: string, locked: Time)
    requires Reachable(ids, s) && OwnedSince(s, t, w, locked)
    ensures t in s.lease && Leased(s, t, s.lease[t], w, locked)
  {
    ReachableOk(ids, s);
    assert t in RunningSet(s.db);
  }

  /** No reaper tick up to the threshold takes a claim that is refreshed no more. */
  lemma AbandonedIsLeftAlone(
    ids: seq<string>, s: Sys, t: TaskId, w: string, locked: Time, steps: seq<Step>,
    first: Time, every: Time, threshold: Time, n: nat, order: seq<TaskId>)
    requires Reachable(ids, s) && |s.held| == |ids| && OwnedSince(s, t, w, locked)
    requires Run(ids, s, steps) && forall x <- steps :: !Beats(ids, x, t, w)
    requires every > 0.0 && first <= locked + threshold && n < FirstReap(first, every, locked, threshold)
    requires Enabled(ids, Final(ids, s, steps), Reap(order, threshold, first + Ticks(n, every)))
    ensures t in s.lease && (t in order ==> Over(Final(ids, s, steps), t, s.lease[t]))
  {
    RunningIsLeased(ids, s, t, w, locked);
    RunKeepsLease(ids, s, steps, t, s.lease[t], w, locked);
    FitsIs(locked + threshold - first, every, n);
  }

  /**
   * Over every run: a claim that is refreshed no more is over, for good, from the first reaper
   * tick past the threshold on, less than one interval later.
   */
  lemma AbandonedIsReaped(
    ids: seq<string>, s: Sys, t: TaskId, w: string, locked: Time, steps: seq<Step>,
    first: Time, every: Time, threshold: Time, at: Time, order: seq<TaskId>, later: seq<Step>)
    requires Reachable(ids, s) && |s.held| == |ids| && OwnedSince(s, t, w, locked)
    requires Run(ids, s, steps) && forall x <- steps :: !Beats(ids, x, t, w)
    requires every > 0.0 && first <= locked + threshold
    requires at == first + Ticks(FirstReap(first, every, locked, threshold), every)
    requires Enabled(ids, Final(ids, s, steps), Reap(order, threshold, at))
    requires Elems(order) == Takes(Final(ids, s, steps).db, threshold, at, {})
    requires Run(ids, Next(ids, Final(ids, s, steps), Reap(order, threshold, at)), later)
    ensures locked + threshold < at <= locked + threshold + every
    ensures t in s.lease
    ensures Over(Final(ids, Next(ids, Final(ids, s, steps), Reap(order, threshold, at)), later), t, s.lease[t])
  {
    RunningIsLeased(ids, s, t, w, locked);
    FirstReapIs(first, every, locked, threshold);
    var s1 := Final(ids, s, steps);
    RunKeepsLease(ids, s, steps, t, s.lease[t], w, locked);
    PassEndsLease(ids, s1, order, threshold, at, t, s.lease[t], w, locked);
    RunKeepsOver(ids, Next(ids, s1, Reap(order, threshold, at)), later, t, s.lease[t]);
  }

  // ---- Leases kept by a heartbeat ----

  /** One claim, the ticks of the worker executing it, and the least threshold any reaper uses. */
  datatype Schedule = Schedule(
    task: TaskId, slot: nat, start: Time, interval: Time, beats: seq<bool>, threshold: Time)

  /** A step of the system, or a heartbeat that failed to reach the store. */
  datatype Event = Do(step: Step) | Missed

  function TickAt(p: Schedule, k: nat): Time {
    p.start + Ticks(k, p.interval)
  }

  /** Anything but an outcome for the task under the worker's id; the clock stops at the next tick. */
  predicate Allowed(ids: seq<string>, s: Sys, p: Schedule, k: nat, step: Step) {
    match step
    case Tick(to) => to <= TickAt(p, k + 1)
    case Finish(i, _, _) =>
      i < |ids| && p.slot < |ids| && Busy(s, i) && (s.held[i].value.task == p.task ==> ids[i] != ids[p.slot])
    case Reap(_, threshold, _) => threshold >= p.threshold
    case _ => true
  }

  /** After `k` ticks: what follows keeps every tick on time, and `beats` says which of them succeed. */
  ghost predicate OnTime(ids: seq<string>, s: Sys, p: Schedule, k: nat, events: seq<Event>)
    requires |s.held| == |ids| && p.slot < |ids|
    decreases |events|
  {
    events == [] ||
    match events[0]
    case Missed => k < |p.beats| && !p.beats[k] && s.now == TickAt(p, k + 1) && OnTime(ids, s, p, k + 1, events[1..])
    case Do(step) =>
      && Enabled(ids, s, step)
      && if Beats(ids, step, p.task, ids[p.slot]) then
          && k < |p.beats| && p.beats[k] && step.slot == p.slot && step.at == s.now == TickAt(p, k + 1)
          && OnTime(ids, Next(ids, s, step), p, k + 1, events[1..])
        else Allowed(ids, s, p, k, step) && OnTime(ids, Next(ids, s, step), p, k, events[1..])
  }

  ghost function AfterEvents(ids: seq<string>, s: Sys, p: Schedule, k: nat, events: seq<Event>): (s': Sys)
    requires |s.held| == |ids| && p.slot < |ids| && OnTime(ids, s, p, k, events)
    ensures |s'.held| == |ids|
    decreases |events|
  {
    if events == [] then s
    else
      match events[0]
      case Missed => AfterEvents(ids, s, p, k + 1, events[1..])
      case Do(step) =>
        var k' := if Beats(ids, step, p.task, ids[p.slot]) then k + 1 else k;
        AfterEvents(ids, Next(ids, s, step), p, k', events[1..])
  }

  ghost predicate AlwaysKept(ids: seq<string>, s: Sys, p: Schedule, c: nat)
    requires |s.held| == |ids| && p.slot < |ids|
  {
    forall events :: OnTime(ids, s, p, 0, events) ==> InForce(AfterEvents(ids, s, p, 0, events), p.task, c)
  }

  /** The claim after `k` ticks. */
  ghost predicate Kept(ids: seq<string>, s: Sys, p: Schedule, k: nat, c: nat) {
    && |s.held| == |ids| && p.slot < |ids| && p.interval > 0.0 && k <= |p.beats|
    && Leased(s, p.task, c, ids[p.slot], TickAt(p, LastBeat(p.beats, k)))
    && s.now <= TickAt(p, k + 1)
  }

  lemma TickGrows(p: Schedule, k: nat)
    requires p.interval > 0.0
    ensures TickAt(p, k) < TickAt(p, k + 1)
  {
    TicksAdd(k, 1, p.interval);
  }

  lemma BeatKeeps(ids: seq<string>, s: Sys, p: Schedule, k: nat, c: nat)
    requires Kept(ids, s, p, k, c) && k < |p.beats| && s.now == TickAt(p, k + 1)
    ensures p.beats[k] ==> Kept(ids, Next(ids, s, Beat(p.slot, p.task, s.now)), p, k + 1, c)
    ensures !p.beats[k] ==> Kept(ids, s, p, k + 1, c)
  {
    TickGrows(p, k + 1);
  }

  /** With short gaps the reaper never lists the task, and nothing else allowed touches its lease. */
  lemma AllowedKeeps(ids: seq<string>, s: Sys, p: Schedule, k: nat, c: nat, step: Step)
    requires Kept(ids, s, p, k, c) && ShortGaps(p.beats, Fits(p.threshold, p.interval))
    requires Enabled(ids, s, step) && !Beats(ids, step, p.task, ids[p.slot]) && Allowed(ids, s, p, k, step)
    ensures Kept(ids, Next(ids, s, step), p, k, c)
  {
    match step
    case Reap(order, _, at) =>
      var n := LastBeat(p.beats, k);
      assert k - n < Fits(p.threshold, p.interval);
      GapSurvives(p.start, p.interval, p.threshold, n, k - n);
      assert p.task !in order;
      ReapEachRows(s.db, order, at);
    case _ =>
  }

  lemma {:induction false} ShortGapsKeep(ids: seq<string>, s: Sys, p: Schedule, k: nat, c: nat, events: seq<Event>)
    requires Kept(ids, s, p, k, c) && ShortGaps(p.beats, Fits(p.threshold, p.interval))
    requires OnTime(ids, s, p, k, events)
    ensures InForce(AfterEvents(ids, s, p, k, events), p.task, c)
    decreases |events|
  {
    if events != [] {
      match events[0]
      case Missed =>
        BeatKeeps(ids, s, p, k, c);
        ShortGapsKeep(ids, s, p, k + 1, c, events[1..]);
      case Do(step) =>
        if Beats(ids, step, p.task, ids[p.slot]) {
          BeatKeeps(ids, s, p, k, c);
          ShortGapsKeep(ids, Next(ids, s, step), p, k + 1, c, events[1..]);
        } else {
          AllowedKeeps(ids, s, p, k, c, step);
          ShortGapsKeep(ids, Next(ids, s, step), p, k, c, events[1..]);
        }
    }
  }

  lemma EventsBack(ids: seq<string>, s: Sys, p: Schedule, k: nat, step: Step, rest: seq<Event>)
    requires |s.held| == |ids| && p.slot < |ids| && Enabled(ids, s, step)
    requires !Beats(ids, step, p.task, ids[p.slot]) && Allowed(ids, s, p, k, step)
    requires OnTime(ids, Next(ids, s, step), p, k, rest)
    ensures OnTime(ids, s, p, k, [Do(step)] + rest)
    ensures AfterEvents(ids, s, p, k, [Do(step)] + rest) == AfterEvents(ids, Next(ids, s, step), p, k, rest)
  {
    assert ([Do(step)] + rest)[1..] == rest;
  }

  /** At the end of a long gap the reaper takes the task. */
  lemma LongGapReaped(ids: seq<string>, s: Sys, p: Schedule, j: nat, c: nat)
    requires Kept(ids, s, p, j, c) && s.now == TickAt(p, j + 1)
    requires j - LastBeat(p.beats, j) >= Fits(p.threshold, p.interval)
    ensures var reap := Do(Reap([p.task], p.threshold, s.now));
      OnTime(ids, s, p, j, [reap]) && !InForce(AfterEvents(ids, s, p, j, [reap]), p.task, c)
  {
    var n := LastBeat(p.beats, j);
    GapSurvives(p.start, p.interval, p.threshold, n, j - n);
    var reap := Reap([p.task], p.threshold, s.now);
    ReapEachRows(s.db, [p.task], s.now);
    EventsBack(ids, s, p, j, reap, []);
    assert [Do(reap)] + [] == [Do(reap)];
  }

  /** Ticking through to the end of a long gap and reaping there loses the claim. */
  lemma {:induction false} LongGapLoses(ids: seq<string>, s: Sys, p: Schedule, k: nat, c: nat, j: nat)
    returns (events: seq<Event>)
    requires Kept(ids, s, p, k, c) && k <= j <= |p.beats|
    requires j - LastBeat(p.beats, j) >= Fits(p.threshold, p.interval)
    ensures OnTime(ids, s, p, k, events) && !InForce(AfterEvents(ids, s, p, k, events), p.task, c)
    decreases j - k
  {
    var tick := Tick(TickAt(p, k + 1));
    var s1 := Next(ids, s, tick);
    if k == j {
      LongGapReaped(ids, s1, p, j, c);
      events := [Do(Reap([p.task], p.threshold, s1.now))];
    } else {
      BeatKeeps(ids, s1, p, k, c);
      var event := if p.beats[k] then Do(Beat(p.slot, p.task, s1.now)) else Missed;
      var rest := LongGapLoses(ids, if p.beats[k] then Next(ids, s1, event.step) else s1, p, k + 1, c, j);
      events := [event] + rest;
      assert events[1..] == rest;
    }
    EventsBack(ids, s, p, k, tick, events);
    events := [Do(tick)] + events;
  }

  /**
   * Over every run in which the executing worker's ticks are on time: its claim is kept whatever
   * else happens exactly when no stretch of failed heartbeats reaches the number of whole
   * intervals in the stale threshold.
   */
  lemma AlwaysKeptIff(ids: seq<string>, s: Sys, p: Schedule, c: nat)
    requires |s.held| == |ids| && p.slot < |ids| && p.interval > 0.0 && s.now <= TickAt(p, 1)
    requires Leased(s, p.task, c, ids[p.slot], p.start)
    ensures AlwaysKept(ids, s, p, c) <==> ShortGaps(p.beats, Fits(p.threshold, p.interval))
  {
    assert TickAt(p, 0) == p.start;
    assert Kept(ids, s, p, 0, c);
    var m := Fits(p.threshold, p.interval);
    if ShortGaps(p.beats, m) {
      forall events | OnTime(ids, s, p, 0, events)
        ensures InForce(AfterEvents(ids, s, p, 0, events), p.task, c)
      {
        ShortGapsKeep(ids, s, p, 0, c, events);
      }
    } else {
      var i: nat, j: nat :| Failing(p.beats, i, j) && j - i >= m;
      assert LastBeat(p.beats, j) <= i;
      var events := LongGapLoses(ids, s, p, 0, c, j);
    }
  }

  /**
   * With heartbeat interval and stale threshold left at their defaults a claim is kept exactly when
   * no ten heartbeats in a row fail.
   */
  lemma DefaultsKeepIff(ids: seq<string>, s: Sys, p: Schedule, c: nat, config: WorkerPool.Config)
    requires config.heartbeatInterval <= 0.0 && config.staleThreshold <= 0.0
    requires p.interval == WorkerPool.Normalized(config).heartbeatInterval
    requires p.threshold == WorkerPool.Normalized(config).staleThreshold
    requires |s.held| == |ids| && p.slot < |ids| && p.interval > 0.0 && s.now <= TickAt(p, 1)
    requires Leased(s, p.task, c, ids[p.slot], p.start)
    ensures AlwaysKept(ids, s, p, c) <==> ShortGaps(p.beats, 10)
  {
    AlwaysKeptIff(ids, s, p, c);
    assert p.threshold / p.interval == 10.0;
  }
}
