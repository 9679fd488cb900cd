/** What a cooldown shorter than the run gap does: `check` starts a new run when the cooldown is
    over, although the silence was shorter than the gap that otherwise ends one. */
module AirtimeCooldown {
  import opened Common
  import opened Airtime
  import opened AirtimeRuns
  import opened AirtimeWaits

  /** Key-down of the bursts up to `j` that lie less than the run gap apart. */
  function GapRun(hist: seq<Burst>, j: nat): nat
    requires j < |hist|
  {
    if j == 0 || GapBefore(hist, j) >= RUN_GAP then hist[j].len else GapRun(hist, j - 1) + hist[j].len
  }

  /** Some run of the governor, enabled, gets to `w`. */
  ghost predicate Reached(cfg: AirtimeConfig, w: Log) {
    cfg.enabled && exists logs, evs :: IsRun(cfg, logs, evs) && w in logs
  }

  lemma ReachedRuns(cfg: AirtimeConfig, w: Log)
    requires Reached(cfg, w)
    ensures RunOk(cfg, w)
  {
    var logs, evs :| IsRun(cfg, logs, evs) && w in logs;
    var n :| 0 <= n < |logs| && logs[n] == w;
    RunsKeep(cfg, logs, evs, n);
  }

  /** Under this cooldown, whatever else is configured and whatever is asked when: bursts less than
      the run gap apart never add up to more than `max_continuous`, but for a single frame. */
  ghost predicate GapBounded(cooldown: nat) {
    forall cfg: AirtimeConfig, w: Log, j: nat :: cfg.cooldown == cooldown && Reached(cfg, w) && j < |w.hist| ==>
      GapRun(w.hist, j) <= Max(cfg.maxContinuous, w.hist[j].len)
  }

  lemma {:induction false} LongCooldownIsGap(cfg: AirtimeConfig, hist: seq<Burst>, j: nat)
    requires j < |hist| && cfg.cooldown >= RUN_GAP
    ensures RunLength(cfg, hist, j) == GapRun(hist, j)
  {
    if j > 0 {
      LongCooldownIsGap(cfg, hist, j - 1);
    }
  }

  // ---- What the gateway's configuration may be ----

  const SECOND := 1_000_000

  predicate Seconds(d: nat) { d % SECOND == 0 }

  /** What `check_hardware_safe` accepts. */
  predicate HardwareSafe(cfg: AirtimeConfig) {
    cfg.enabled ==> cfg.maxContinuous + cfg.cooldown > 0 && cfg.maxContinuous <= cfg.cooldown
  }

  /** The longest frame the pump lets through. */
  function FullFrame(paclen: nat): nat { paclen + 64 }

  /** What validation accepts, without overrides of it: standard rates, times in whole seconds,
      and a full frame that fits the allowance, a run and the hour. */
  predicate GatewayTakes(cfg: AirtimeConfig, paclen: nat) {
    var biggest := cfg.AirtimeFor(FullFrame(paclen));
    && cfg.enabled && cfg.baud in {300, 1200, 9600} && cfg.stuffing == 1.05 && 32 <= paclen <= 256
    && cfg.txdelay <= 2_550_000 && cfg.txtail <= 2_550_000 && 0.01 <= cfg.maxDuty <= HARD_MAX_DUTY
    && cfg.window >= SECOND && cfg.maxContinuous >= SECOND && HardwareSafe(cfg)
    && Seconds(cfg.window) && Seconds(cfg.maxContinuous) && Seconds(cfg.cooldown) && Seconds(cfg.hourlyBudget) && Seconds(cfg.maxHold)
    && biggest <= cfg.Allowance() && biggest <= cfg.maxContinuous && (cfg.hourlyBudget > 0 ==> biggest <= cfg.hourlyBudget)
  }

  // ---- A run, for every shorter cooldown ----

  /** 1200 baud, half of ten minutes, runs of a second or as long as the cooldown if that is less. */
  function Short(cooldown: nat): AirtimeConfig {
    AirtimeConfig(true, 1200, 300_000, 0, 600_000_000, 0.5, Min(cooldown, SECOND), cooldown, 0, 120_000_000, 1.05)
  }

  const LONG := 96     // octets: a second, key-up included
  const BRIEF := 46    // 0.65 seconds

  lemma Numbers(cooldown: nat)
    ensures Short(cooldown).AirtimeFor(LONG) == 1_000_000 && Short(cooldown).AirtimeFor(BRIEF) == 650_000
    ensures Short(cooldown).Allowance() == 300_000_000
  {
    assert 800.0 * 1.05 * 1_000_000.0 / 1200.0 == 700_000.0;
    assert 400.0 * 1.05 * 1_000_000.0 / 1200.0 == 350_000.0;
  }

  lemma ShortIsTaken(cooldown: nat)
    requires Seconds(cooldown) && SECOND <= cooldown < RUN_GAP
    ensures GatewayTakes(Short(cooldown), 32) && BRIEF <= LONG <= FullFrame(32)
  {
    Numbers(cooldown);
  }

  lemma AskSends(w: Log, allowance: nat, octets: nat, cost: nat, at: Instant)
    requires w.gov.cfg.enabled && !Cooling(w.gov, at) && RunAt(w.gov, at) == 0 && w.gov.cfg.hourlyBudget == 0
    requires w.gov.cfg.Allowance() == allowance && w.gov.cfg.AirtimeFor(octets) == cost
    requires Within(w.gov.bursts, at, w.gov.cfg.window) + cost <= allowance
    ensures Next(w, Ask(octets, at))
         == Log(Recorded(Checked(w.gov, at), cost, at), w.hist + [Burst(at + cost, cost)], w.allowed + [allowance], at)
  {
  }

  /** When the first of two frames has been keyed from 0 on. */
  function AfterFirst(cfg: AirtimeConfig, cost: nat): GovState {
    GovState(cfg, [Burst(cost, cost)], Some(cost), cost, if cost >= cfg.maxContinuous then Some(cost + cfg.cooldown) else None, cost)
  }

  /** Two frames, the second after the pause that ends the first one's run. */
  lemma TwoFrames(cfg: AirtimeConfig, first: nat, second: nat, x: nat, y: nat) returns (logs: seq<Log>, evs: seq<Event>)
    requires cfg.enabled && cfg.hourlyBudget == 0 && cfg.AirtimeFor(first) == x && cfg.AirtimeFor(second) == y
    requires x + y <= cfg.Allowance()
    ensures IsRun(cfg, logs, evs) && |logs| == 3 && logs[1].gov == AfterFirst(cfg, x)
    ensures logs[2].hist == [Burst(x, x), Burst(x + Pause(cfg, x) + y, y)]
  {
    var start, next := Log(NewGovernor(cfg), [], [], 0), x + Pause(cfg, x);
    AskSends(start, cfg.Allowance(), first, x, 0);
    var one := Next(start, Ask(first, 0));
    var bursts := [Burst(x, x)];
    assert [] + bursts == bursts;
    assert Trimmed(bursts, 0, cfg.Retention()) == bursts;
    assert Within(bursts, next, cfg.window) <= WithinPrefix(bursts, next, cfg.window, 0) + x;
    AskSends(one, cfg.Allowance(), second, y, next);
    logs := [start, one, Next(one, Ask(second, next))];
    evs := [Ask(first, 0), Ask(second, next)];
  }

  /** Bursts less than the run gap apart are bounded by `max_continuous` exactly if the cooldown is
      no shorter than the run gap. */
  lemma GapBoundedExactly(cooldown: nat)
    ensures GapBounded(cooldown) <==> cooldown >= RUN_GAP
  {
    if cooldown >= RUN_GAP {
      forall cfg: AirtimeConfig, w: Log, j: nat | cfg.cooldown == cooldown && Reached(cfg, w) && j < |w.hist|
        ensures GapRun(w.hist, j) <= Max(cfg.maxContinuous, w.hist[j].len)
      {
        ReachedRuns(cfg, w);
        assert LimitedAt(cfg, w.hist, j);
        LongCooldownIsGap(cfg, w.hist, j);
      }
    } else {
      Numbers(cooldown);
      GapBroken(Short(cooldown), LONG, BRIEF, 1_000_000, 650_000);
    }
  }

  lemma GapBroken(cfg: AirtimeConfig, first: nat, second: nat, x: nat, y: nat)
    requires cfg.enabled && cfg.hourlyBudget == 0 && cfg.AirtimeFor(first) == x && cfg.AirtimeFor(second) == y
    requires x + y <= cfg.Allowance() && cfg.cooldown < RUN_GAP && x >= cfg.maxContinuous && x > 0 && y > 0
    ensures !GapBounded(cfg.cooldown)
  {
    var logs, evs := TwoFrames(cfg, first, second, x, y);
    var hist := logs[2].hist;
    assert GapBefore(hist, 1) == cfg.cooldown;
    assert GapRun(hist, 1) == GapRun(hist, 0) + y;
    assert Reached(cfg, logs[2]) && GapRun(logs[2].hist, 1) > Max(cfg.maxContinuous, logs[2].hist[1].len);
  }

  // ---- The read-only query ----

  /** `time_until_clear` and `check` disagree in some state the governor gets into. */
  ghost predicate StaleReached(cooldown: nat) {
    exists cfg: AirtimeConfig, w: Log, allowance: nat, cost: nat, now: Instant ::
      cfg.cooldown == cooldown && Reached(cfg, w) && StaleRun(w.gov, allowance, cost, now)
  }

  lemma StaleNeedsShort(cfg: AirtimeConfig, w: Log, allowance: nat, cost: nat, now: Instant)
    requires RunOk(cfg, w) && StaleRun(w.gov, allowance, cost, now)
    ensures cfg.cooldown < RUN_GAP
  {
  }

  /** They ever disagree exactly if the cooldown is shorter than the run gap. */
  lemma StaleExactly(cooldown: nat)
    ensures StaleReached(cooldown) <==> cooldown < RUN_GAP
  {
    if StaleReached(cooldown) {
      var cfg: AirtimeConfig, w: Log, allowance: nat, cost: nat, now: Instant :|
        cfg.cooldown == cooldown && Reached(cfg, w) && StaleRun(w.gov, allowance, cost, now);
      ReachedRuns(cfg, w);
      StaleNeedsShort(cfg, w, allowance, cost, now);
    }
    if cooldown < RUN_GAP {
      Numbers(cooldown);
      StaleThere(Short(cooldown), LONG, BRIEF, 1_000_000, 650_000);
    }
  }

  lemma StaleThere(cfg: AirtimeConfig, first: nat, second: nat, x: nat, y: nat)
    requires cfg.enabled && cfg.hourlyBudget == 0 && cfg.AirtimeFor(first) == x && cfg.AirtimeFor(second) == y
    requires x + y <= cfg.Allowance() && cfg.cooldown < RUN_GAP && x >= cfg.maxContinuous && x > 0 && y > 0
    ensures StaleReached(cfg.cooldown)
  {
    var logs, evs := TwoFrames(cfg, first, second, x, y);
    var g, now := logs[1].gov, x + cfg.cooldown;
    assert Within(g.bursts, now, cfg.window) <= WithinPrefix(g.bursts, now, cfg.window, 0) + x;
    assert Reached(cfg, logs[1]) && StaleRun(g, cfg.Allowance(), y, now);
  }
}
