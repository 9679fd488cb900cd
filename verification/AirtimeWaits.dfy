/** How long the governor makes a frame wait: the delays it returns are exact, asking again
    after each of them ends in a transmission, and the read-only query agrees with `check`. */
module AirtimeWaits {
  import opened Common
  import opened Airtime

  // ---- Which burst a refusal waits for ----

  /** Bursts that do not overlap end in the order they were sent. */
  predicate Sorted(bursts: seq<Burst>) {
    forall i, j :: 0 <= i < j < |bursts| ==> bursts[i].end <= bursts[j].end
  }

  function Pre(bursts: seq<Burst>, n: nat): nat
    requires n <= |bursts|
  {
    if n == 0 then 0 else Pre(bursts, n - 1) + bursts[n - 1].len
  }

  /** Airtime of burst `i` and everything after it. */
  function Tail(bursts: seq<Burst>, i: nat): int
    requires i <= |bursts|
  {
    Pre(bursts, |bursts|) - Pre(bursts, i)
  }

  lemma {:induction false} PreMono(bursts: seq<Burst>, i: nat, j: nat)
    requires i <= j <= |bursts|
    ensures Pre(bursts, i) <= Pre(bursts, j)
  {
    if i < j {
      PreMono(bursts, i, j - 1);
    }
  }

  lemma {:induction false} FirstKept(bursts: seq<Burst>, now: Instant, window: nat, from: nat)
    requires from <= |bursts|
    ensures var d := Dropped(bursts, now, window, from);
            d < |bursts| ==> Recent(bursts[d], now, window)
    decreases |bursts| - from
  {
    if from < |bursts| && Since(now, bursts[from].end) > window {
      FirstKept(bursts, now, window, from + 1);
    }
  }

  lemma {:induction false} WithinIsTail(bursts: seq<Burst>, now: Instant, window: nat, i: nat, n: nat)
    requires i <= n <= |bursts|
    requires forall j :: 0 <= j < |bursts| ==> (Recent(bursts[j], now, window) <==> i <= j)
    ensures WithinPrefix(bursts, now, window, n) == Pre(bursts, n) - Pre(bursts, i)
  {
    if n > i {
      WithinIsTail(bursts, now, window, i, n - 1);
    } else {
      NoneRecent(bursts, now, window, n);
    }
  }

  /** What is counted at `now` is a tail of the history, cut where the trim would cut it. */
  lemma CountedTail(bursts: seq<Burst>, now: Instant, window: nat) returns (i: nat)
    requires Sorted(bursts)
    ensures i <= |bursts| && Within(bursts, now, window) == Tail(bursts, i)
    ensures forall j :: 0 <= j < |bursts| ==> (Recent(bursts[j], now, window) <==> i <= j)
  {
    i := Dropped(bursts, now, window, 0);
    FirstKept(bursts, now, window, 0);
    forall j | 0 <= j < |bursts| ensures Recent(bursts[j], now, window) <==> i <= j {
      if j < i {
        DroppedAreOld(bursts, now, window, 0, j);
      }
    }
    WithinIsTail(bursts, now, window, i, |bursts|);
  }

  /** Burst `k` is the last one that must leave the window before `room` suffices. */
  predicate LastNeeded(bursts: seq<Burst>, room: nat, k: nat) {
    k < |bursts| && Tail(bursts, k) > room >= Tail(bursts, k + 1)
  }

  lemma {:induction false} FindNeeded(bursts: seq<Burst>, room: nat, n: nat) returns (k: nat)
    requires n <= |bursts| && Tail(bursts, 0) > room >= Tail(bursts, n)
    ensures LastNeeded(bursts, room, k)
  {
    k := n - 1;
    if Tail(bursts, n - 1) <= room {
      k := FindNeeded(bursts, room, n - 1);
    }
  }

  /** The room is short up to and including the instant that burst is one window old. */
  lemma ShortUntil(bursts: seq<Burst>, window: nat, room: nat, k: nat, t: Instant)
    requires Sorted(bursts) && LastNeeded(bursts, room, k)
    ensures Within(bursts, t, window) > room <==> t <= bursts[k].end + window
  {
    var i := CountedTail(bursts, t, window);
    if i <= k {
      PreMono(bursts, i, k);
    } else {
      PreMono(bursts, k + 1, i);
    }
  }

  /** The expiry loop stops at that burst. */
  lemma {:induction false} RetryFromTail(bursts: seq<Burst>, i: nat, k: nat, now: Instant, window: nat, allowance: nat, cost: nat)
    requires cost <= allowance && LastNeeded(bursts, allowance - cost, k) && i <= k && Tail(bursts, i) >= 0
    requires forall j :: i <= j < |bursts| ==> Recent(bursts[j], now, window)
    ensures RetryFrom(bursts, i, Tail(bursts, i), now, window, allowance, cost)
         == Max(Since(bursts[k].end + window, now), MIN_DELAY)
    decreases k - i
  {
    PreMono(bursts, i, k);
    PreMono(bursts, i + 1, |bursts|);
    if i < k {
      PreMono(bursts, i + 1, k);
      RetryFromTail(bursts, i + 1, k, now, window, allowance, cost);
    }
  }

  lemma RetryWaits(bursts: seq<Burst>, now: Instant, window: nat, allowance: nat, cost: nat, k: nat)
    requires Sorted(bursts) && cost <= allowance && LastNeeded(bursts, allowance - cost, k)
    requires Within(bursts, now, window) + cost > allowance
    ensures RetryDelay(bursts, now, window, allowance, cost) == Max(Since(bursts[k].end + window, now), MIN_DELAY)
  {
    var i := CountedTail(bursts, now, window);
    if i > k {
      PreMono(bursts, k + 1, i);
    }
    RetrySkips(bursts, 0, i, Within(bursts, now, window), now, window, allowance, cost);
    RetryFromTail(bursts, i, k, now, window, allowance, cost);
  }

  lemma RefusedNeeds(bursts: seq<Burst>, now: Instant, window: nat, room: nat) returns (k: nat)
    requires Sorted(bursts) && Within(bursts, now, window) > room
    ensures LastNeeded(bursts, room, k)
  {
    var i := CountedTail(bursts, now, window);
    PreMono(bursts, 0, i);
    k := FindNeeded(bursts, room, |bursts|);
  }

  /** A duty refusal is exact. There is a burst such that the delay runs to the instant it is one
      window old (or the floor of 100 ms); nothing is sent up to and including that instant; and
      strictly after the delay the duty limit does not refuse. */
  lemma DutyDelayTight(g: GovState, allowance: nat, cost: nat, now: Instant, delay: nat) returns (k: nat)
    requires g.cfg.enabled && Sorted(g.bursts) && cost <= allowance
    requires Decision(g, allowance, cost, now) == Defer(delay, Duty)
    ensures k < |g.bursts| && delay == Max(Since(g.bursts[k].end + g.cfg.window, now), MIN_DELAY)
    ensures forall t :: now <= t <= g.bursts[k].end + g.cfg.window ==> !Decision(Checked(g, now), allowance, cost, t).Send?
    ensures forall t :: t > now + delay ==>
              var later := Decision(Checked(g, now), allowance, cost, t); !(later.Defer? && later.reason == Duty)
  {
    k := RefusedNeeds(g.bursts, now, g.cfg.window, allowance - cost);
    RetryWaits(g.bursts, now, g.cfg.window, allowance, cost, k);
    forall t | t >= now
      ensures OverDuty(Checked(g, now), allowance, cost, t) <==> t <= g.bursts[k].end + g.cfg.window
    {
      TrimKeepsSums(g.bursts, now, g.cfg.Retention(), t, g.cfg.window);
      ShortUntil(g.bursts, g.cfg.window, allowance - cost, k, t);
    }
  }

  // ---- Asking again after every delay ----

  /** Asking, waiting as told and asking again is answered `Send` after at most `n` deferrals. */
  predicate SendsWithin(g: GovState, allowance: nat, cost: nat, now: Instant, n: nat)
    decreases n
  {
    match Decision(g, allowance, cost, now)
    case Send => true
    case Defer(delay, _) => n > 0 && SendsWithin(Checked(g, now), allowance, cost, now + delay, n - 1)
  }

  predicate RunBlocks(g: GovState, cost: nat, t: Instant) {
    Cooling(g, t) || OverRun(g, cost, t)
  }

  ghost predicate RunFree(g: GovState, cost: nat, now: Instant) {
    forall t :: t >= now ==> !RunBlocks(g, cost, t)
  }

  /** From `now` on, `window` has no room for `cost` exactly up to and including `limit`. */
  ghost predicate Until(bursts: seq<Burst>, window: nat, room: int, now: Instant, limit: Instant) {
    forall t :: t >= now ==> (Within(bursts, t, window) > room <==> t <= limit)
  }

  lemma FindUntil(bursts: seq<Burst>, window: nat, room: nat, now: Instant) returns (limit: Instant)
    requires Sorted(bursts)
    ensures Until(bursts, window, room, now, limit)
  {
    if Tail(bursts, 0) > room {
      var k := FindNeeded(bursts, room, |bursts|);
      limit := bursts[k].end + window;
      forall t | t >= now ensures Within(bursts, t, window) > room <==> t <= limit {
        ShortUntil(bursts, window, room, k, t);
      }
    } else {
      limit := now - 1;
      forall t | t >= now ensures Within(bursts, t, window) <= room {
        var i := CountedTail(bursts, t, window);
        PreMono(bursts, 0, i);
      }
    }
  }

  lemma TrimKeepsUntil(bursts: seq<Burst>, horizon: nat, window: nat, room: int, now: Instant, later: Instant, limit: Instant)
    requires Until(bursts, window, room, now, limit) && window <= horizon && now <= later
    ensures Until(Trimmed(bursts, now, horizon), window, room, later, limit)
  {
    forall t | t >= later ensures Within(Trimmed(bursts, now, horizon), t, window) > room <==> t <= limit {
      TrimKeepsSums(bursts, now, horizon, t, window);
    }
  }

  lemma RetryReaches(bursts: seq<Burst>, window: nat, allowance: nat, cost: nat, now: Instant, limit: Instant)
    requires Sorted(bursts) && cost <= allowance && Until(bursts, window, allowance - cost, now, limit)
    requires Within(bursts, now, window) + cost > allowance
    ensures now <= limit && RetryDelay(bursts, now, window, allowance, cost) == Max(limit - now, MIN_DELAY)
  {
    var k := RefusedNeeds(bursts, now, window, allowance - cost);
    RetryWaits(bursts, now, window, allowance, cost, k);
    ShortUntil(bursts, window, allowance - cost, k, now);
    ShortUntil(bursts, window, allowance - cost, k, limit);
    assert Within(bursts, limit, window) > allowance - cost;
    ShortUntil(bursts, window, allowance - cost, k, bursts[k].end + window);
    assert Within(bursts, bursts[k].end + window, window) > allowance - cost;
  }

  /** A limit ahead costs two more deferrals: up to it, and past it. */
  function Rank(now: Instant, limit: Instant): nat {
    if now < limit then 2 else if now == limit then 1 else 0
  }

  lemma RankDrops(now: Instant, limit: Instant, delay: nat)
    requires now <= limit && delay == Max(limit - now, MIN_DELAY)
    ensures Rank(now + delay, limit) < Rank(now, limit)
  {
  }

  /** A cooldown deferral happens once: afterwards the run is over. */
  lemma CooldownOnce(g: GovState, allowance: nat, cost: nat, now: Instant)
    requires g.cfg.enabled && (g.run > 0 ==> g.lastEnd.Some?) && RunBlocks(g, cost, now)
    ensures Decision(g, allowance, cost, now).Defer? && Decision(g, allowance, cost, now).delay > 0
    ensures RunFree(Checked(g, now), cost, now + Decision(g, allowance, cost, now).delay)
  {
  }

  lemma CheckedKeepsFree(g: GovState, cost: nat, now: Instant, later: Instant)
    requires g.cfg.enabled && now <= later && !RunBlocks(g, cost, now)
    ensures RunFree(Checked(g, now), cost, later)
  {
  }

  lemma FreeAfterDelay(g: GovState, allowance: nat, cost: nat, now: Instant)
    requires g.cfg.enabled && (g.run > 0 ==> g.lastEnd.Some?) && Decision(g, allowance, cost, now).Defer?
    ensures RunFree(Checked(g, now), cost, now + Decision(g, allowance, cost, now).delay)
  {
    if RunBlocks(g, cost, now) {
      CooldownOnce(g, allowance, cost, now);
    } else {
      CheckedKeepsFree(g, cost, now, now + Decision(g, allowance, cost, now).delay);
    }
  }

  predicate Askable(g: GovState, allowance: nat, cost: nat) {
    && g.cfg.enabled && (g.run > 0 ==> g.lastEnd.Some?)
    && cost <= allowance && (g.cfg.hourlyBudget > 0 ==> cost <= g.cfg.hourlyBudget)
  }

  ghost predicate Limits(g: GovState, allowance: nat, cost: nat, now: Instant, duty: Instant, hour: Instant) {
    && Sorted(g.bursts)
    && Until(g.bursts, g.cfg.window, allowance - cost, now, duty)
    && (g.cfg.hourlyBudget == 0 ==> hour < now)
    && (g.cfg.hourlyBudget > 0 ==> Until(g.bursts, HOUR, g.cfg.hourlyBudget - cost, now, hour))
  }

  lemma LimitsKept(g: GovState, allowance: nat, cost: nat, now: Instant, later: Instant, duty: Instant, hour: Instant)
    requires Askable(g, allowance, cost) && Limits(g, allowance, cost, now, duty, hour) && now <= later
    ensures Limits(Checked(g, now), allowance, cost, later, duty, hour)
  {
    TrimKeepsUntil(g.bursts, g.cfg.Retention(), g.cfg.window, allowance - cost, now, later, duty);
    if g.cfg.hourlyBudget > 0 {
      TrimKeepsUntil(g.bursts, g.cfg.Retention(), HOUR, g.cfg.hourlyBudget - cost, now, later, hour);
    }
  }

  /** A budget deferral moves past its limit, or onto it. */
  lemma BudgetRank(g: GovState, allowance: nat, cost: nat, now: Instant, duty: Instant, hour: Instant)
    requires Askable(g, allowance, cost) && Limits(g, allowance, cost, now, duty, hour)
    requires Budgets(g, allowance, cost, now).Defer?
    ensures var later := now + Budgets(g, allowance, cost, now).delay;
            Rank(later, duty) + Rank(later, hour) < Rank(now, duty) + Rank(now, hour)
  {
    if OverDuty(g, allowance, cost, now) {
      RetryReaches(g.bursts, g.cfg.window, allowance, cost, now, duty);
      RankDrops(now, duty, Budgets(g, allowance, cost, now).delay);
    } else {
      RetryReaches(g.bursts, HOUR, g.cfg.hourlyBudget, cost, now, hour);
      RankDrops(now, hour, Budgets(g, allowance, cost, now).delay);
    }
  }

  lemma {:induction false} SendsOnceFree(g: GovState, allowance: nat, cost: nat, now: Instant, duty: Instant, hour: Instant)
    requires Askable(g, allowance, cost) && Limits(g, allowance, cost, now, duty, hour) && RunFree(g, cost, now)
    ensures SendsWithin(g, allowance, cost, now, Rank(now, duty) + Rank(now, hour))
    decreases Rank(now, duty) + Rank(now, hour)
  {
    assert !RunBlocks(g, cost, now);
    assert Decision(g, allowance, cost, now) == Budgets(g, allowance, cost, now);
    if Budgets(g, allowance, cost, now).Defer? {
      var later := now + Budgets(g, allowance, cost, now).delay;
      BudgetRank(g, allowance, cost, now, duty, hour);
      LimitsKept(g, allowance, cost, now, later, duty, hour);
      CheckedKeepsFree(g, cost, now, later);
      SendsOnceFree(Checked(g, now), allowance, cost, later, duty, hour);
      SendsMore(Checked(g, now), allowance, cost, later, Rank(later, duty) + Rank(later, hour),
                Rank(now, duty) + Rank(now, hour) - 1);
    }
  }

  lemma {:induction false} SendsMore(g: GovState, allowance: nat, cost: nat, now: Instant, n: nat, m: nat)
    requires SendsWithin(g, allowance, cost, now, n) && n <= m
    ensures SendsWithin(g, allowance, cost, now, m)
    decreases n
  {
    var d := Decision(g, allowance, cost, now);
    if d.Defer? {
      SendsMore(Checked(g, now), allowance, cost, now + d.delay, n - 1, m - 1);
    }
  }

  lemma FourOnceFree(g: GovState, allowance: nat, cost: nat, now: Instant, later: Instant, duty: Instant, hour: Instant, n: nat)
    requires Askable(g, allowance, cost) && Limits(g, allowance, cost, now, duty, hour) && now <= later
    requires RunFree(Checked(g, now), cost, later) && n >= 4
    ensures SendsWithin(Checked(g, now), allowance, cost, later, n)
  {
    LimitsKept(g, allowance, cost, now, later, duty, hour);
    SendsOnceFree(Checked(g, now), allowance, cost, later, duty, hour);
    SendsMore(Checked(g, now), allowance, cost, later, Rank(later, duty) + Rank(later, hour), n);
  }

  lemma OneMore(g: GovState, allowance: nat, cost: nat, now: Instant, n: nat)
    requires Decision(g, allowance, cost, now).Defer? ==>
               SendsWithin(Checked(g, now), allowance, cost, now + Decision(g, allowance, cost, now).delay, n)
    ensures SendsWithin(g, allowance, cost, now, n + 1)
  {
  }

  lemma FindLimits(g: GovState, allowance: nat, cost: nat, now: Instant) returns (duty: Instant, hour: Instant)
    requires Askable(g, allowance, cost) && Sorted(g.bursts)
    ensures Limits(g, allowance, cost, now, duty, hour)
  {
    duty := FindUntil(g.bursts, g.cfg.window, allowance - cost, now);
    hour := now - 1;
    if g.cfg.hourlyBudget > 0 {
      hour := FindUntil(g.bursts, HOUR, g.cfg.hourlyBudget - cost, now);
    }
  }

  lemma FourAfterDelay(g: GovState, allowance: nat, cost: nat, now: Instant, n: nat)
    requires Askable(g, allowance, cost) && Sorted(g.bursts) && n >= 4
    requires Decision(g, allowance, cost, now).Defer?
    ensures SendsWithin(Checked(g, now), allowance, cost, now + Decision(g, allowance, cost, now).delay, n)
  {
    var duty, hour := FindLimits(g, allowance, cost, now);
    FreeAfterDelay(g, allowance, cost, now);
    FourOnceFree(g, allowance, cost, now, now + Decision(g, allowance, cost, now).delay, duty, hour, n);
  }

  /** A frame that fits the allowance and the hourly budget goes out after at most five deferrals:
      one for the run, two for the duty window, two for the rolling hour. */
  lemma FiveDeferralsSuffice(g: GovState, allowance: nat, cost: nat, now: Instant, n: nat)
    requires Askable(g, allowance, cost) && Sorted(g.bursts) && n >= 5
    ensures SendsWithin(g, allowance, cost, now, n)
  {
    if Decision(g, allowance, cost, now).Defer? {
      FourAfterDelay(g, allowance, cost, now, n - 1);
    }
  }

  // ---- Any history at all ----

  lemma {:induction false} RetryIsPositive(bursts: seq<Burst>, i: nat, used: nat, now: Instant, window: nat, allowance: nat, cost: nat)
    requires i <= |bursts|
    ensures RetryFrom(bursts, i, used, now, window, allowance, cost) >= MIN_DELAY
    decreases |bursts| - i
  {
    if i < |bursts| {
      var rest := if used >= bursts[i].len then used - bursts[i].len else 0;
      RetryIsPositive(bursts, i + 1, used, now, window, allowance, cost);
      RetryIsPositive(bursts, i + 1, rest, now, window, allowance, cost);
    }
  }

  /** Nothing remembered matters any more after this instant. */
  predicate Horizon(g: GovState, h: Instant) {
    && (forall i :: 0 <= i < |g.bursts| ==> g.bursts[i].end + g.cfg.Retention() < h)
    && (g.lastEnd.Some? ==> g.lastEnd.value + RUN_GAP < h)
    && (g.coolingUntil.Some? ==> g.coolingUntil.value < h)
  }

  lemma {:induction false} FindHorizon(bursts: seq<Burst>, retention: nat, base: Instant) returns (h: Instant)
    ensures base <= h && forall i :: 0 <= i < |bursts| ==> bursts[i].end + retention < h
  {
    if bursts == [] {
      h := base;
    } else {
      h := FindHorizon(bursts[1..], retention, base);
      h := Max(h, bursts[0].end + retention + 1);
      forall i | 0 <= i < |bursts| ensures bursts[i].end + retention < h {
        assert i > 0 ==> bursts[i] == bursts[1..][i - 1];
      }
    }
  }

  lemma SendsPastHorizon(g: GovState, allowance: nat, cost: nat, now: Instant, h: Instant)
    requires Askable(g, allowance, cost) && Horizon(g, h) && now >= h
    ensures Decision(g, allowance, cost, now).Send?
  {
    NoneRecent(g.bursts, now, g.cfg.window, |g.bursts|);
    if g.cfg.hourlyBudget > 0 {
      NoneRecent(g.bursts, now, HOUR, |g.bursts|);
    }
  }

  lemma DelaysArePositive(g: GovState, allowance: nat, cost: nat, now: Instant)
    ensures Decision(g, allowance, cost, now).Defer? ==> Decision(g, allowance, cost, now).delay > 0
  {
    RetryIsPositive(g.bursts, 0, Within(g.bursts, now, g.cfg.window), now, g.cfg.window, allowance, cost);
    RetryIsPositive(g.bursts, 0, Within(g.bursts, now, HOUR), now, HOUR, g.cfg.hourlyBudget, cost);
  }

  lemma CheckedKeepsHorizon(g: GovState, allowance: nat, cost: nat, now: Instant, h: Instant)
    requires Askable(g, allowance, cost) && Horizon(g, h)
    ensures Askable(Checked(g, now), allowance, cost) && Horizon(Checked(g, now), h)
  {
  }

  lemma {:induction false} SendsByHorizon(g: GovState, allowance: nat, cost: nat, now: Instant, h: Instant) returns (n: nat)
    requires Askable(g, allowance, cost) && Horizon(g, h)
    ensures SendsWithin(g, allowance, cost, now, n)
    decreases h - now
  {
    n := 0;
    var d := Decision(g, allowance, cost, now);
    if d.Defer? {
      if now >= h {
        SendsPastHorizon(g, allowance, cost, now, h);
      } else {
        DelaysArePositive(g, allowance, cost, now);
        CheckedKeepsHorizon(g, allowance, cost, now, h);
        n := SendsByHorizon(Checked(g, now), allowance, cost, now + d.delay, h);
        OneMore(g, allowance, cost, now, n);
        n := n + 1;
      }
    }
  }

  /** Whatever was transmitted before, waiting as told ends: a frame whose cost fits is sent. */
  lemma DeferralEnds(g: GovState, allowance: nat, cost: nat, now: Instant) returns (n: nat)
    requires Askable(g, allowance, cost)
    ensures SendsWithin(g, allowance, cost, now, n)
  {
    var base := 1 + Max(if g.lastEnd.Some? then g.lastEnd.value + RUN_GAP else 0,
                        if g.coolingUntil.Some? then g.coolingUntil.value else 0);
    var h := FindHorizon(g.bursts, g.cfg.Retention(), base);
    n := SendsByHorizon(g, allowance, cost, now, h);
  }

  // ---- The read-only query ----

  /** A cooldown is over but the gap is not: `check` starts a new run, the query does not. */
  predicate StaleRun(g: GovState, allowance: nat, cost: nat, now: Instant) {
    && g.cfg.enabled && g.coolingUntil.Some? && !Cooling(g, now) && g.lastEnd.Some? && !GapOver(g, now)
    && g.run > 0 && g.run + cost > g.cfg.maxContinuous
    && !OverDuty(g, allowance, cost, now) && !OverHour(g, cost, now)
  }

  /** `time_until_clear` is zero exactly when `check` would send, except for a stale run. */
  lemma ClearMeansSend(g: GovState, allowance: nat, cost: nat, now: Instant)
    requires g.run > 0 ==> g.lastEnd.Some?
    ensures (UntilClear(g, allowance, cost, now) == 0 <==> Decision(g, allowance, cost, now).Send?)
            <==> !StaleRun(g, allowance, cost, now)
  {
    RetryIsPositive(g.bursts, 0, Within(g.bursts, now, g.cfg.window), now, g.cfg.window, allowance, cost);
    RetryIsPositive(g.bursts, 0, Within(g.bursts, now, HOUR), now, HOUR, g.cfg.hourlyBudget, cost);
  }
}
