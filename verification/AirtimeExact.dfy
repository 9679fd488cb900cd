/** The governor's numbers, from the configuration and the history alone: what a frame costs, what
    a window allows, when a frame is sent, for what reason it is not, and how long that lasts. */
module AirtimeExact {
  import opened Common
  import opened Airtime
  import opened AirtimeRuns
  import opened AirtimeWaits

  // ---- What a frame costs ----

  lemma FloorBounds(x: real, baud: nat, d: int)
    requires baud >= 1 && d == (x / baud as real).Floor
    ensures d as real * baud as real <= x < (d + 1) as real * baud as real
  {
    var y := x / baud as real;
    assert y * baud as real == x;
    assert d as real <= y < (d + 1) as real;
    Scaled(d as real, y, baud as real);
    ScaledStrictly(y, (d + 1) as real, baud as real);
  }

  lemma Scaled(a: real, b: real, c: real)
    requires a <= b && c > 0.0
    ensures a * c <= b * c
  {
  }

  lemma ScaledStrictly(a: real, b: real, c: real)
    requires a < b && c > 0.0
    ensures a * c < b * c
  {
  }

  /** The key-up delay, the tail, and in between as many whole microseconds as the frame's bits,
      flags and checksum included and stretched by bit stuffing, take on the air. */
  lemma CostExactly(cfg: AirtimeConfig, octets: nat)
    ensures var baud := if cfg.baud == 0 then 1 else cfg.baud;
            var stuffing := if cfg.stuffing < 1.0 then 1.0 else cfg.stuffing;
            var d := cfg.AirtimeFor(octets) - cfg.txdelay - cfg.txtail;
            && d >= 0
            && d as real * baud as real <= ((octets + 4) * 8) as real * stuffing * 1_000_000.0 < (d + 1) as real * baud as real
  {
    var baud := if cfg.baud == 0 then 1 else cfg.baud;
    var stuffing := if cfg.stuffing < 1.0 then 1.0 else cfg.stuffing;
    var bits := ((octets + 4) * 8) as real * stuffing;
    var d := (bits * 1_000_000.0 / baud as real).Floor;
    FloorBounds(bits * 1_000_000.0, baud, d);
    Positive(bits, baud);
    assert cfg.AirtimeFor(octets) == cfg.txdelay + d + cfg.txtail by {
      assert Max(cfg.baud, 1) == baud;
      assert (if cfg.stuffing >= 1.0 then cfg.stuffing else 1.0) == stuffing;
    }
  }

  // ---- What a window allows ----

  /** The whole microseconds of the duty's share of the window, the duty held between none of it
      and half of it. */
  lemma AllowanceExactly(cfg: AirtimeConfig)
    ensures var duty := if cfg.maxDuty < 0.0 then 0.0 else if cfg.maxDuty > 0.5 then 0.5 else cfg.maxDuty;
            cfg.Allowance() as real <= cfg.window as real * duty < (cfg.Allowance() + 1) as real
  {
  }

  /** An operator's percentage, when set, is what counts, up to fifty; cleared, the configuration. */
  lemma OverrideExactly(cfg: AirtimeConfig, percent: Option<nat>)
    ensures var a := cfg.(maxDuty := DutyLimit(StoredDuty(percent), cfg.maxDuty)).Allowance();
            && (percent.Some? && 0 < percent.value ==>
                  100 * a <= cfg.window * (if percent.value > 50 then 50 else percent.value) < 100 * (a + 1))
            && (percent == None || percent == Some(0) ==> a == cfg.Allowance())
  {
    var c := cfg.(maxDuty := DutyLimit(StoredDuty(percent), cfg.maxDuty));
    if percent.Some? && 0 < percent.value {
      var p := if percent.value > 50 then 50 else percent.value;
      AllowanceExactly(c);
      Percent(cfg.window, p, c.Allowance());
    }
  }

  lemma Percent(window: nat, p: nat, a: nat)
    requires a as real <= window as real * (p as real / 100.0) < (a + 1) as real
    ensures 100 * a <= window * p < 100 * (a + 1)
  {
    var x := p as real / 100.0;
    assert x * 100.0 == p as real;
    Rescale(window as real, x, p as real);
    assert (window * p) as real == window as real * p as real;
    assert (100 * a) as real <= (window * p) as real < (100 * (a + 1)) as real;
  }

  lemma Rescale(w: real, x: real, p: real)
    requires x * 100.0 == p
    ensures (w * x) * 100.0 == w * p
  {
    assert (w * x) * 100.0 == w * (x * 100.0);
  }

  // ---- When a frame is sent ----

  /** The run before is over, or leaves room: no cooldown is due, and unless three seconds of
      silence broke it the run may go on for `cost` more. */
  predicate Rested(cfg: AirtimeConfig, hist: seq<Burst>, cost: nat, at: Instant) {
    hist != [] ==>
      var n := |hist| - 1;
      var length := RunLength(cfg, hist, n);
      if length >= cfg.maxContinuous then at >= hist[n].end + cfg.cooldown
      else length == 0 || at >= hist[n].end + 3_000_000 || length + cost <= cfg.maxContinuous
  }

  /** What ended at most `span` ago leaves room for `cost` more. */
  predicate Fits(hist: seq<Burst>, at: Instant, span: nat, cost: nat, budget: nat) {
    Within(hist, at, span) + cost <= budget
  }

  lemma RestedExactly(cfg: AirtimeConfig, w: Log, cost: nat, at: Instant)
    requires RunOk(cfg, w) && cfg.enabled && at >= w.clock
    ensures Rested(cfg, w.hist, cost, at) <==> !RunBlocks(w.gov, cost, at)
  {
  }

  /** In every run, for every frame and at every moment: it is sent exactly if the station is rested
      and both windows have room for it, and otherwise the reason given is the first that applies. */
  lemma SentExactly(cfg: AirtimeConfig, logs: seq<Log>, evs: seq<Event>, n: nat, octets: nat, at: Instant)
    requires IsRun(cfg, logs, evs) && cfg.enabled && n < |logs| && at >= logs[n].clock
    ensures var w := logs[n];
            var cost, allowance := w.gov.cfg.AirtimeFor(octets), w.gov.cfg.Allowance();
            var answer := Decision(w.gov, allowance, cost, at);
            var rested := Rested(cfg, w.hist, cost, at);
            var windowOk := Fits(w.hist, at, cfg.window, cost, allowance);
            var hourOk := cfg.hourlyBudget > 0 ==> Fits(w.hist, at, 3_600_000_000, cost, cfg.hourlyBudget);
            && (answer.Send? <==> rested && windowOk && hourOk)
            && (answer.Defer? && answer.reason == Cooldown <==> !rested)
            && (answer.Defer? && answer.reason == Duty <==> rested && !windowOk)
            && (answer.Defer? && answer.reason == HourlyBudget <==> rested && windowOk && !hourOk)
  {
    var w := logs[n];
    RunKeeps(cfg, logs, evs, n);
    RunsKeep(cfg, logs, evs, n);
    RestedExactly(cfg, w, w.gov.cfg.AirtimeFor(octets), at);
    CountsHistory(cfg, w, at, cfg.window);
    if cfg.hourlyBudget > 0 {
      CountsHistory(cfg, w, at, HOUR);
    }
  }

  /** A frame that finds the run too long is told to wait until the cooldown is over, or until three
      seconds of silence have broken the run. */
  lemma CooldownDelayExactly(cfg: AirtimeConfig, logs: seq<Log>, evs: seq<Event>, n: nat, octets: nat, at: Instant)
    requires IsRun(cfg, logs, evs) && cfg.enabled && n < |logs| && at >= logs[n].clock
    requires !Rested(cfg, logs[n].hist, logs[n].gov.cfg.AirtimeFor(octets), at)
    ensures var w := logs[n];
            var answer := Decision(w.gov, w.gov.cfg.Allowance(), w.gov.cfg.AirtimeFor(octets), at);
            var last := |w.hist| - 1;
            var pause := if RunLength(cfg, w.hist, last) >= cfg.maxContinuous then cfg.cooldown else 3_000_000;
            && answer.Defer? && at < w.hist[last].end + pause
            && answer.delay == if RunLength(cfg, w.hist, last) >= cfg.maxContinuous then w.hist[last].end + pause - at
                               else Max(w.hist[last].end + pause - at, 1_000)
  {
    RunsKeep(cfg, logs, evs, n);
  }

  lemma AskTotal(w: Log, allowance: nat, cost: nat, at: Instant)
    requires w.gov.cfg.enabled && w.gov.total == Pre(w.hist, |w.hist|)
    ensures var w' := AskCost(w, allowance, cost, at); w'.gov.total == Pre(w'.hist, |w'.hist|)
  {
    PreAppend(w.hist, Burst(at + cost, cost), |w.hist|);
  }

  /** The running total is the key-down of everything sent. */
  lemma {:induction false} TotalExactly(cfg: AirtimeConfig, logs: seq<Log>, evs: seq<Event>, n: nat)
    requires IsRun(cfg, logs, evs) && cfg.enabled && n < |logs|
    ensures logs[n].gov.cfg.enabled && logs[n].gov.total == Pre(logs[n].hist, |logs[n].hist|)
  {
    if n > 0 {
      TotalExactly(cfg, logs, evs, n - 1);
      var w, ev := logs[n - 1], evs[n - 1];
      assert logs[n] == AirtimeRuns.Next(w, ev);
      if ev.Ask? {
        AskTotal(w, w.gov.cfg.Allowance(), w.gov.cfg.AirtimeFor(ev.octets), ev.at);
      }
    }
  }

  lemma {:induction false} PreAppend(hist: seq<Burst>, b: Burst, n: nat)
    requires n <= |hist|
    ensures Pre(hist + [b], n) == Pre(hist, n)
  {
    if n > 0 {
      PreAppend(hist, b, n - 1);
    }
  }

  // ---- How long a refusal lasts ----

  lemma {:induction false} NeverRoom(bursts: seq<Burst>, i: nat, used: nat, now: Instant, window: nat, allowance: nat, cost: nat)
    requires i <= |bursts| && cost > allowance
    ensures RetryFrom(bursts, i, used, now, window, allowance, cost) == Max(Min(window, 30_000_000), 100_000)
    decreases |bursts| - i
  {
    if i < |bursts| {
      var rest := if used >= bursts[i].len then used - bursts[i].len else 0;
      NeverRoom(bursts, i + 1, used, now, window, allowance, cost);
      NeverRoom(bursts, i + 1, rest, now, window, allowance, cost);
    }
  }

  /** A frame larger than the allowance is never sent, and asked again every window, or every thirty
      seconds if that is shorter. */
  lemma TooLargeWaits(g: GovState, allowance: nat, cost: nat, now: Instant)
    requires g.cfg.enabled && cost > allowance
    ensures var answer := Decision(g, allowance, cost, now);
            answer.Defer? && (answer.reason == Duty ==> answer.delay == Max(Min(g.cfg.window, 30_000_000), 100_000))
  {
    NeverRoom(g.bursts, 0, Within(g.bursts, now, g.cfg.window), now, g.cfg.window, allowance, cost);
  }

  /** The read-only query is an upper bound: once that time has passed with nothing sent, `check`
      sends. */
  lemma ClearWaitsEnough(g: GovState, allowance: nat, cost: nat, now: Instant, t: Instant)
    requires Askable(g, allowance, cost) && Sorted(g.bursts)
    requires t > now + UntilClear(g, allowance, cost, now)
    ensures Decision(g, allowance, cost, t).Send?
  {
    var duty, hour := FindLimits(g, allowance, cost, now);
    if OverDuty(g, allowance, cost, now) {
      RetryReaches(g.bursts, g.cfg.window, allowance, cost, now, duty);
    }
    if OverHour(g, cost, now) {
      RetryReaches(g.bursts, HOUR, g.cfg.hourlyBudget, cost, now, hour);
    }
  }

  /** The cooldown that is due is no shorter than the run gap. */
  predicate LongCooldown(g: GovState) {
    g.coolingUntil.Some? && g.lastEnd.Some? ==> g.lastEnd.value + 3_000_000 <= g.coolingUntil.value
  }

  /** And it is a lower bound: before that time nothing is sent, but for the floor of 100 ms under
      a budget's wait. */
  lemma ClearWaitsNoLonger(g: GovState, allowance: nat, cost: nat, now: Instant, t: Instant)
    requires Askable(g, allowance, cost) && Sorted(g.bursts) && LongCooldown(g)
    requires now <= t < now + UntilClear(g, allowance, cost, now) && UntilClear(g, allowance, cost, now) != 100_000
    ensures Decision(g, allowance, cost, t).Defer?
  {
    var duty, hour := FindLimits(g, allowance, cost, now);
    if OverDuty(g, allowance, cost, now) {
      RetryReaches(g.bursts, g.cfg.window, allowance, cost, now, duty);
    }
    if OverHour(g, cost, now) {
      RetryReaches(g.bursts, HOUR, g.cfg.hourlyBudget, cost, now, hour);
    }
  }

  /** What is forgotten has left both windows, and what is remembered begins with a burst that has not:
      the duty window, and the hour if there is an hourly budget. */
  lemma TrimExactly(g: GovState, now: Instant)
    requires g.cfg.enabled
    ensures var horizon := if g.cfg.hourlyBudget > 0 && g.cfg.window < 3_600_000_000 then 3_600_000_000 else g.cfg.window;
            var kept := Checked(g, now).bursts;
            && |kept| <= |g.bursts| && kept == g.bursts[|g.bursts| - |kept|..]
            && (forall i :: 0 <= i < |g.bursts| - |kept| ==> now - g.bursts[i].end > horizon)
            && (kept != [] ==> now - kept[0].end <= horizon)
  {
    var horizon := g.cfg.Retention();
    var d := Dropped(g.bursts, now, horizon, 0);
    FirstKept(g.bursts, now, horizon, 0);
    forall i | 0 <= i < d ensures Since(now, g.bursts[i].end) > horizon {
      DroppedAreOld(g.bursts, now, horizon, 0, i);
    }
  }

  /** An override, in milliseconds, can only lengthen the gap. */
  lemma PacingExactly(ms: nat, configured: nat)
    ensures Pacing(ms, configured) >= configured && Pacing(ms, configured) >= 1_000 * ms
    ensures Pacing(ms, configured) == configured || Pacing(ms, configured) == 1_000 * ms
  {
  }
}
