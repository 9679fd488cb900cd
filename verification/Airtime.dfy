/** The transmitter airtime governor: what `check` and `record` decide and remember, and the
    class that does it in place. Durations are microseconds; duty and stuffing are exact. */
module Airtime {
  import opened Common

  const FRAMING_OCTETS := 4
  const RUN_GAP := 3_000_000
  const HOUR := 3_600_000_000
  const MIN_DELAY := 100_000
  const FALLBACK_DELAY := 30_000_000
  const HARD_MAX_DUTY := 0.5

  datatype AirtimeConfig = AirtimeConfig(
    enabled: bool,
    baud: nat,
    txdelay: nat,
    txtail: nat,
    window: nat,
    maxDuty: real,
    maxContinuous: nat,
    cooldown: nat,
    hourlyBudget: nat,
    maxHold: nat,
    stuffing: real)
  {
    function EffectiveDuty(): real { Clamp(maxDuty) }

    function Allowance(): (a: nat)
      ensures 2 * a <= window
      ensures a as real <= EffectiveDuty() * window as real
    {
      DutyShare(window, EffectiveDuty());
      (window as real * EffectiveDuty()).Floor
    }

    function HourWindow(): nat { if hourlyBudget == 0 then 0 else HOUR }

    function Retention(): nat { Max(window, HourWindow()) }

    /** Key-down time of a frame, rounded down to the microsecond. */
    function AirtimeFor(octets: nat): nat {
      var bits := ((octets + FRAMING_OCTETS) * 8) as real;
      var stuffed := bits * (if stuffing >= 1.0 then stuffing else 1.0);
      Positive(stuffed, Max(baud, 1));
      txdelay + (stuffed * 1_000_000.0 / Max(baud, 1) as real).Floor + txtail
    }
  }

  function Clamp(duty: real): (d: real)
    ensures 0.0 <= d <= HARD_MAX_DUTY
  {
    if duty < 0.0 then 0.0 else if duty > HARD_MAX_DUTY then HARD_MAX_DUTY else duty
  }

  lemma DutyShare(window: nat, duty: real)
    requires 0.0 <= duty <= HARD_MAX_DUTY
    ensures 0 <= (window as real * duty).Floor
    ensures 2 * (window as real * duty).Floor <= window
  {
    var share := window as real * duty;
    ScaledByHalf(window as real, duty, share);
    HalfFloor(share, window);
  }

  lemma ScaledByHalf(a: real, x: real, share: real)
    requires a >= 0.0 && 0.0 <= x <= 0.5 && share == a * x
    ensures 0.0 <= share && share + share <= a
  {
    var rest := a * (0.5 - x);
    assert rest >= 0.0;
    assert rest == a * 0.5 - share;
  }

  lemma HalfFloor(share: real, window: nat)
    requires 0.0 <= share && share + share <= window as real
    ensures 0 <= share.Floor && 2 * share.Floor <= window
  {
    assert share.Floor as real <= share;
    assert (2 * share.Floor) as real <= window as real;
  }

  lemma Positive(stuffed: real, baud: nat)
    requires baud >= 1 && stuffed >= 0.0
    ensures (stuffed * 1_000_000.0 / baud as real).Floor >= 0
  {
    assert stuffed * 1_000_000.0 / baud as real >= 0.0;
  }

  /** `duty_limit`: the operator's percentage when one is set, within the hard ceiling. */
  function DutyLimit(overridePercent: nat, configured: real): real {
    Clamp(if overridePercent == 0 then configured else overridePercent as real / 100.0)
  }

  /** `set_duty_override`: the percentage stored. */
  function StoredDuty(percent: Option<nat>): nat {
    match percent case None => 0 case Some(p) => Min(p, 50)
  }

  /** `pacing`: an override can only lengthen the configured gap. Milliseconds to microseconds. */
  function Pacing(overrideMs: nat, configured: nat): nat {
    if overrideMs == 0 then configured else Max(overrideMs * 1000, configured)
  }

  datatype DeferReason = Duty | Cooldown | HourlyBudget

  datatype TxDecision = Send | Defer(delay: nat, reason: DeferReason)

  datatype Burst = Burst(end: Instant, len: nat)

  datatype GovState = GovState(
    cfg: AirtimeConfig,
    bursts: seq<Burst>,
    lastEnd: Option<Instant>,
    run: nat,
    coolingUntil: Option<Instant>,
    total: nat)

  function NewGovernor(cfg: AirtimeConfig): GovState {
    GovState(cfg, [], None, 0, None, 0)
  }

  // ---- Specification ----

  predicate Recent(b: Burst, now: Instant, window: nat) {
    Since(now, b.end) <= window
  }

  /** Airtime of the first `n` bursts that ended at most `window` before `now`. */
  function WithinPrefix(bursts: seq<Burst>, now: Instant, window: nat, n: nat): nat
    requires n <= |bursts|
  {
    if n == 0 then 0
    else WithinPrefix(bursts, now, window, n - 1) + (if Recent(bursts[n - 1], now, window) then bursts[n - 1].len else 0)
  }

  function Within(bursts: seq<Burst>, now: Instant, window: nat): nat {
    WithinPrefix(bursts, now, window, |bursts|)
  }

  /** How many bursts the trim drops: the leading ones, up to the first still within `horizon`. */
  function Dropped(bursts: seq<Burst>, now: Instant, horizon: nat, from: nat): (d: nat)
    requires from <= |bursts|
    ensures from <= d <= |bursts|
    decreases |bursts| - from
  {
    if from < |bursts| && Since(now, bursts[from].end) > horizon then Dropped(bursts, now, horizon, from + 1) else from
  }

  function Trimmed(bursts: seq<Burst>, now: Instant, horizon: nat): seq<Burst> {
    bursts[Dropped(bursts, now, horizon, 0)..]
  }

  function Fallback(window: nat): nat {
    Max(Min(window, FALLBACK_DELAY), MIN_DELAY)
  }

  /** The expiry loop of `retry_delay` from burst `i` on, `used` still counted. */
  function RetryFrom(bursts: seq<Burst>, i: nat, used: nat, now: Instant, window: nat, allowance: nat, cost: nat): nat
    requires i <= |bursts|
    decreases |bursts| - i
  {
    if i == |bursts| then Fallback(window)
    else if !Recent(bursts[i], now, window) then RetryFrom(bursts, i + 1, used, now, window, allowance, cost)
    else if used + cost <= allowance then Fallback(window)
    else
      var rest := if used >= bursts[i].len then used - bursts[i].len else 0;
      if rest + cost <= allowance then Max(Since(bursts[i].end + window, now), MIN_DELAY)
      else RetryFrom(bursts, i + 1, rest, now, window, allowance, cost)
  }

  function RetryDelay(bursts: seq<Burst>, now: Instant, window: nat, allowance: nat, cost: nat): nat {
    RetryFrom(bursts, 0, Within(bursts, now, window), now, window, allowance, cost)
  }

  predicate Cooling(g: GovState, now: Instant) {
    g.coolingUntil.Some? && now < g.coolingUntil.value
  }

  predicate GapOver(g: GovState, now: Instant) {
    g.lastEnd.Some? && Since(now, g.lastEnd.value) >= RUN_GAP
  }

  /** The run in progress once cooldowns and gaps that are over have been noticed. */
  function RunAt(g: GovState, now: Instant): nat {
    if g.coolingUntil.Some? || GapOver(g, now) then 0 else g.run
  }

  /** What `check` leaves behind. */
  function Checked(g: GovState, now: Instant): GovState {
    if !g.cfg.enabled then g
    else
      var t := g.(bursts := Trimmed(g.bursts, now, g.cfg.Retention()));
      if Cooling(g, now) then t else t.(coolingUntil := None, run := RunAt(g, now))
  }

  predicate OverRun(g: GovState, cost: nat, now: Instant) {
    RunAt(g, now) > 0 && RunAt(g, now) + cost > g.cfg.maxContinuous
  }

  predicate OverDuty(g: GovState, allowance: nat, cost: nat, now: Instant) {
    Within(g.bursts, now, g.cfg.window) + cost > allowance
  }

  predicate OverHour(g: GovState, cost: nat, now: Instant) {
    g.cfg.hourlyBudget > 0 && Within(g.bursts, now, HOUR) + cost > g.cfg.hourlyBudget
  }

  function LastEnd(g: GovState, now: Instant): Instant {
    if g.lastEnd.Some? then g.lastEnd.value else now
  }

  function Budgets(g: GovState, allowance: nat, cost: nat, now: Instant): TxDecision {
    if OverDuty(g, allowance, cost, now) then
      Defer(RetryDelay(g.bursts, now, g.cfg.window, allowance, cost), Duty)
    else if OverHour(g, cost, now) then
      Defer(RetryDelay(g.bursts, now, HOUR, g.cfg.hourlyBudget, cost), HourlyBudget)
    else Send
  }

  /** What `check` answers for a frame of this airtime while this allowance is in force. */
  function Decision(g: GovState, allowance: nat, cost: nat, now: Instant): TxDecision {
    if !g.cfg.enabled then Send
    else if Cooling(g, now) then Defer(g.coolingUntil.value - now, Cooldown)
    else if OverRun(g, cost, now) then Defer(Max(Since(LastEnd(g, now) + RUN_GAP, now), 1_000), Cooldown)
    else Budgets(g, allowance, cost, now)
  }

  /** What `record` leaves behind. */
  function Recorded(g: GovState, cost: nat, now: Instant): GovState {
    if !g.cfg.enabled then g
    else
      var end := now + cost;
      var run := (if GapOver(g, now) then 0 else g.run) + cost;
      GovState(g.cfg,
               Trimmed(g.bursts + [Burst(end, cost)], now, g.cfg.Retention()),
               Some(end),
               run,
               if run >= g.cfg.maxContinuous then Some(end + g.cfg.cooldown) else g.coolingUntil,
               g.total + cost)
  }

  /** What `time_until_clear` answers: the longest of the waits, nothing expired or reset. */
  function UntilClear(g: GovState, allowance: nat, cost: nat, now: Instant): nat {
    if !g.cfg.enabled then 0
    else
      var run := if g.lastEnd.None? || GapOver(g, now) then 0 else g.run;
      var cool := if g.coolingUntil.Some? then Since(g.coolingUntil.value, now) else 0;
      var gap := if run > 0 && run + cost > g.cfg.maxContinuous then Since(LastEnd(g, now) + RUN_GAP, now) else 0;
      var duty := if OverDuty(g, allowance, cost, now) then RetryDelay(g.bursts, now, g.cfg.window, allowance, cost) else 0;
      var hour := if OverHour(g, cost, now) then RetryDelay(g.bursts, now, HOUR, g.cfg.hourlyBudget, cost) else 0;
      Max(Max(Max(cool, gap), duty), hour)
  }

  // ---- Trimming never forgets a burst that is still counted ----

  lemma {:induction false} DroppedAreOld(bursts: seq<Burst>, now: Instant, horizon: nat, from: nat, i: nat)
    requires from <= |bursts| && from <= i < Dropped(bursts, now, horizon, from)
    ensures Since(now, bursts[i].end) > horizon
    decreases |bursts| - from
  {
    if i > from {
      DroppedAreOld(bursts, now, horizon, from + 1, i);
    }
  }

  lemma {:induction false} WithinSuffix(bursts: seq<Burst>, d: nat, now: Instant, window: nat, n: nat)
    requires d <= n <= |bursts|
    requires forall i :: 0 <= i < d ==> !Recent(bursts[i], now, window)
    ensures WithinPrefix(bursts[d..], now, window, n - d) == WithinPrefix(bursts, now, window, n)
  {
    if n > d {
      WithinSuffix(bursts, d, now, window, n - 1);
    } else if n > 0 {
      NoneRecent(bursts, now, window, n);
    }
  }

  lemma {:induction false} NoneRecent(bursts: seq<Burst>, now: Instant, window: nat, n: nat)
    requires n <= |bursts| && forall i :: 0 <= i < n ==> !Recent(bursts[i], now, window)
    ensures WithinPrefix(bursts, now, window, n) == 0
  {
    if n > 0 {
      NoneRecent(bursts, now, window, n - 1);
    }
  }

  lemma TrimKeepsSums(bursts: seq<Burst>, trimAt: Instant, horizon: nat, now: Instant, window: nat)
    requires trimAt <= now && window <= horizon
    ensures Within(Trimmed(bursts, trimAt, horizon), now, window) == Within(bursts, now, window)
  {
    var d := Dropped(bursts, trimAt, horizon, 0);
    forall i | 0 <= i < d ensures !Recent(bursts[i], now, window) {
      DroppedAreOld(bursts, trimAt, horizon, 0, i);
    }
    WithinSuffix(bursts, d, now, window, |bursts|);
  }

  lemma {:induction false} RetrySuffix(bursts: seq<Burst>, d: nat, i: nat, used: nat, now: Instant, window: nat, allowance: nat, cost: nat)
    requires d <= i <= |bursts|
    ensures RetryFrom(bursts[d..], i - d, used, now, window, allowance, cost)
         == RetryFrom(bursts, i, used, now, window, allowance, cost)
    decreases |bursts| - i
  {
    if i < |bursts| {
      var rest := if used >= bursts[i].len then used - bursts[i].len else 0;
      RetrySuffix(bursts, d, i + 1, used, now, window, allowance, cost);
      RetrySuffix(bursts, d, i + 1, rest, now, window, allowance, cost);
    }
  }

  lemma {:induction false} RetrySkips(bursts: seq<Burst>, i: nat, d: nat, used: nat, now: Instant, window: nat, allowance: nat, cost: nat)
    requires i <= d <= |bursts|
    requires forall j :: i <= j < d ==> !Recent(bursts[j], now, window)
    ensures RetryFrom(bursts, i, used, now, window, allowance, cost)
         == RetryFrom(bursts, d, used, now, window, allowance, cost)
    decreases d - i
  {
    if i < d {
      RetrySkips(bursts, i + 1, d, used, now, window, allowance, cost);
    }
  }

  lemma TrimKeepsRetry(bursts: seq<Burst>, now: Instant, horizon: nat, window: nat, allowance: nat, cost: nat)
    requires window <= horizon
    ensures RetryDelay(Trimmed(bursts, now, horizon), now, window, allowance, cost)
         == RetryDelay(bursts, now, window, allowance, cost)
  {
    TrimKeepsSums(bursts, now, horizon, now, window);
    var d := Dropped(bursts, now, horizon, 0);
    forall i | 0 <= i < d ensures !Recent(bursts[i], now, window) {
      DroppedAreOld(bursts, now, horizon, 0, i);
    }
    RetrySuffix(bursts, d, d, Within(bursts, now, window), now, window, allowance, cost);
    RetrySkips(bursts, 0, d, Within(bursts, now, window), now, window, allowance, cost);
  }

  lemma BudgetsTrimmed(g: GovState, allowance: nat, cost: nat, now: Instant)
    ensures Budgets(Checked(g, now), allowance, cost, now) == Budgets(g, allowance, cost, now)
  {
    var horizon := g.cfg.Retention();
    TrimKeepsSums(g.bursts, now, horizon, now, g.cfg.window);
    TrimKeepsRetry(g.bursts, now, horizon, g.cfg.window, allowance, cost);
    if g.cfg.hourlyBudget > 0 {
      TrimKeepsSums(g.bursts, now, horizon, now, HOUR);
      TrimKeepsRetry(g.bursts, now, horizon, HOUR, g.cfg.hourlyBudget, cost);
    }
  }

  /** What is left of `check` once the state has settled. */
  function Settled(h: GovState, allowance: nat, cost: nat, now: Instant): TxDecision {
    if h.run + cost > h.cfg.maxContinuous && h.run > 0 then
      Defer(Max(Since(LastEnd(h, now) + RUN_GAP, now), 1_000), Cooldown)
    else Budgets(h, allowance, cost, now)
  }

  lemma DecisionSettled(g: GovState, allowance: nat, cost: nat, now: Instant)
    requires g.cfg.enabled && !Cooling(g, now)
    ensures Decision(g, allowance, cost, now) == Settled(Checked(g, now), allowance, cost, now)
  {
    BudgetsTrimmed(g, allowance, cost, now);
  }

  // ---- The governor in place ----

  class Governor {
    var cfg: AirtimeConfig
    var bursts: seq<Burst>
    var lastEnd: Option<Instant>
    var run: nat
    var coolingUntil: Option<Instant>
    var total: nat

    ghost function State(): GovState
      reads this
    {
      GovState(cfg, bursts, lastEnd, run, coolingUntil, total)
    }

    constructor (cfg: AirtimeConfig)
      ensures State() == NewGovernor(cfg)
    {
      this.cfg := cfg;
      bursts := [];
      lastEnd := None;
      run := 0;
      coolingUntil := None;
      total := 0;
    }

    method SetDuty(duty: real)
      modifies this`cfg
      ensures cfg == old(cfg).(maxDuty := duty)
    {
      cfg := cfg.(maxDuty := duty);
    }

    method Trim(now: Instant)
      modifies this`bursts
      ensures bursts == Trimmed(old(bursts), now, cfg.Retention())
    {
      var horizon := cfg.Retention();
      ghost var d := 0;
      while |bursts| > 0 && Since(now, bursts[0].end) > horizon
        invariant d <= |old(bursts)| && bursts == old(bursts)[d..]
        invariant Dropped(old(bursts), now, horizon, d) == Dropped(old(bursts), now, horizon, 0)
        decreases |bursts|
      {
        bursts := bursts[1..];
        d := d + 1;
      }
    }

    method AirtimeWithin(now: Instant, window: nat) returns (sum: nat)
      ensures sum == Within(bursts, now, window)
    {
      sum := 0;
      for i := 0 to |bursts|
        invariant sum == WithinPrefix(bursts, now, window, i)
      {
        if Since(now, bursts[i].end) <= window {
          sum := sum + bursts[i].len;
        }
      }
    }

    /** Expire bursts oldest first until `cost` fits. */
    method RetryAfter(now: Instant, window: nat, allowance: nat, cost: nat) returns (delay: nat)
      ensures delay == RetryDelay(bursts, now, window, allowance, cost)
    {
      var used: nat := AirtimeWithin(now, window);
      var i: nat := 0;
      while i < |bursts|
        invariant i <= |bursts|
        invariant RetryFrom(bursts, i, used, now, window, allowance, cost) == RetryDelay(bursts, now, window, allowance, cost)
      {
        var b := bursts[i];
        if Since(now, b.end) <= window {
          if used + cost <= allowance {
            break;
          }
          used := if used >= b.len then used - b.len else 0;
          if used + cost <= allowance {
            return Max(Since(b.end + window, now), MIN_DELAY);
          }
        }
        i := i + 1;
      }
      delay := Max(Min(window, FALLBACK_DELAY), MIN_DELAY);
    }

    /** The wait, when `cost` more does not fit what `window` still allows. */
    method BudgetDelay(now: Instant, window: nat, allowance: nat, cost: nat) returns (delay: Option<nat>)
      ensures delay == if Within(bursts, now, window) + cost > allowance
                       then Some(RetryDelay(bursts, now, window, allowance, cost)) else None
    {
      var used := AirtimeWithin(now, window);
      if used + cost > allowance {
        var d := RetryAfter(now, window, allowance, cost);
        return Some(d);
      }
      return None;
    }

    /** The duty window, then the rolling hour. */
    method CheckBudgets(allowance: nat, cost: nat, now: Instant) returns (decision: TxDecision)
      ensures decision == Budgets(State(), allowance, cost, now)
    {
      var duty := BudgetDelay(now, cfg.window, allowance, cost);
      if duty.Some? {
        return Defer(duty.value, Duty);
      }
      if cfg.hourlyBudget != 0 {
        var hour := BudgetDelay(now, HOUR, cfg.hourlyBudget, cost);
        if hour.Some? {
          return Defer(hour.value, HourlyBudget);
        }
      }
      return Send;
    }

    /** Expire old bursts, and notice a cooldown or a gap that is over. */
    method Settle(now: Instant) returns (cooling: bool)
      requires cfg.enabled
      modifies this
      ensures State() == Checked(old(State()), now)
      ensures cooling == Cooling(old(State()), now)
    {
      Trim(now);
      if coolingUntil.Some? {
        if now < coolingUntil.value {
          return true;
        }
        coolingUntil := None;
        run := 0;
      }
      if lastEnd.Some? && Since(now, lastEnd.value) >= RUN_GAP {
        run := 0;
      }
      return false;
    }

    /** May a frame of this size be transmitted right now? */
    method Check(octets: nat, now: Instant) returns (decision: TxDecision)
      modifies this
      ensures State() == Checked(old(State()), now)
      ensures decision == Decision(old(State()), cfg.Allowance(), cfg.AirtimeFor(octets), now)
    {
      var cost, allowance := cfg.AirtimeFor(octets), cfg.Allowance();
      decision := CheckCost(allowance, cost, now);
    }

    method CheckCost(allowance: nat, cost: nat, now: Instant) returns (decision: TxDecision)
      modifies this
      ensures State() == Checked(old(State()), now)
      ensures decision == Decision(old(State()), allowance, cost, now)
    {
      if !cfg.enabled {
        return Send;
      }
      var cooling := Settle(now);
      if cooling {
        return Defer(coolingUntil.value - now, Cooldown);
      }
      DecisionSettled(old(State()), allowance, cost, now);
      if run + cost > cfg.maxContinuous && run > 0 {
        var until := (if lastEnd.Some? then lastEnd.value else now) + RUN_GAP;
        return Defer(Max(Since(until, now), 1_000), Cooldown);
      }
      decision := CheckBudgets(allowance, cost, now);
    }

    /** Record a transmission that has just been made. */
    method Record(octets: nat, now: Instant) returns (cost: nat)
      modifies this
      ensures State() == Recorded(old(State()), cfg.AirtimeFor(octets), now)
      ensures cost == if cfg.enabled then cfg.AirtimeFor(octets) else 0
    {
      if !cfg.enabled {
        return 0;
      }
      cost := cfg.AirtimeFor(octets);
      RecordCost(cost, now);
    }

    method RecordCost(cost: nat, now: Instant)
      requires cfg.enabled
      modifies this
      ensures State() == Recorded(old(State()), cost, now)
    {
      var end := now + cost;
      if lastEnd.Some? && Since(now, lastEnd.value) >= RUN_GAP {
        run := 0;
      }
      run := run + cost;
      total := total + cost;
      lastEnd := Some(end);
      bursts := bursts + [Burst(end, cost)];
      Trim(now);
      if run >= cfg.maxContinuous {
        coolingUntil := Some(end + cfg.cooldown);
      }
    }

    /** How long before such a frame could go, asked without changing anything. */
    method TimeUntilClear(octets: nat, now: Instant) returns (wait: nat)
      ensures wait == UntilClear(State(), cfg.Allowance(), cfg.AirtimeFor(octets), now)
    {
      var cost, allowance := cfg.AirtimeFor(octets), cfg.Allowance();
      wait := UntilCostClear(allowance, cost, now);
    }

    method UntilCostClear(allowance: nat, cost: nat, now: Instant) returns (wait: nat)
      ensures wait == UntilClear(State(), allowance, cost, now)
    {
      if !cfg.enabled {
        return 0;
      }
      wait := 0;
      if coolingUntil.Some? {
        wait := Max(wait, Since(coolingUntil.value, now));
      }
      var current := if lastEnd.None? || Since(now, lastEnd.value) >= RUN_GAP then 0 else run;
      if current > 0 && current + cost > cfg.maxContinuous {
        var until := (if lastEnd.Some? then lastEnd.value else now) + RUN_GAP;
        wait := Max(wait, Since(until, now));
      }
      var duty := BudgetDelay(now, cfg.window, allowance, cost);
      if duty.Some? {
        wait := Max(wait, duty.value);
      }
      if cfg.hourlyBudget != 0 {
        var hour := BudgetDelay(now, HOUR, cfg.hourlyBudget, cost);
        if hour.Some? {
          wait := Max(wait, hour.value);
        }
      }
    }

    method Reset()
      modifies this
      ensures State() == old(State()).(bursts := [], lastEnd := None, run := 0, coolingUntil := None)
    {
      bursts := [];
      lastEnd := None;
      run := 0;
      coolingUntil := None;
    }
  }
}
