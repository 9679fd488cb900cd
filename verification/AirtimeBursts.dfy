/** What the run and the cooldown bound in bursts. The program takes run / (run + cooldown) for the
    worst duty over one run and one cooldown; but a run that stops short of its limit earns no
    cooldown, only the run gap. */
module AirtimeBursts {
  import opened Common
  import opened Airtime
  import opened AirtimeRuns
  import opened AirtimeCooldown

  /** Nothing is keyed before the frame before it is over. */
  predicate Spaced(hist: seq<Burst>) {
    forall j :: 0 < j < |hist| ==> hist[j - 1].end <= Start(hist[j])
  }

  predicate NoneLonger(cfg: AirtimeConfig, hist: seq<Burst>) {
    forall j :: 0 <= j < |hist| ==> hist[j].len <= cfg.maxContinuous
  }

  /** Key-down in the interval of this length that begins at `x`. */
  function KeyedWithin(w: Log, x: Instant, length: nat): nat {
    KeyedIn(w.hist, |w.hist|, x, x + length)
  }

  /** One run and one cooldown from `x` on hold no more key-down than one run. */
  predicate HoldsOneRun(cfg: AirtimeConfig, w: Log, x: Instant) {
    KeyedWithin(w, x, cfg.maxContinuous + cfg.cooldown) <= cfg.maxContinuous
  }

  /** Under this cooldown, whatever else is configured: if no frame is longer than `max_continuous`,
      no interval of one run and one cooldown holds more key-down than one run. */
  ghost predicate BurstBounded(cooldown: nat) {
    forall cfg: AirtimeConfig, w: Log, x: Instant ::
      cfg.cooldown == cooldown && Reached(cfg, w) && Spaced(w.hist) && NoneLonger(cfg, w.hist) ==>
        HoldsOneRun(cfg, w, x)
  }

  // ---- A cooldown no longer than the gap ----

  /** Spaced bursts are keyed no longer than from the first one's start to the last one's end. */
  lemma {:induction false} KeyedBetween(hist: seq<Burst>, i: nat, n: nat, x: Instant, y: Instant)
    requires Spaced(hist) && i < n <= |hist|
    ensures Start(hist[i]) <= Start(hist[n - 1])
    ensures KeyedIn(hist, n, x, y) - KeyedIn(hist, i, x, y) <= Since(Min(hist[n - 1].end, y), Max(Start(hist[i]), x))
  {
    if n > i + 1 {
      KeyedBetween(hist, i, n - 1, x, y);
    }
  }

  /** Where the unbroken run that ends with burst `j` begins. */
  lemma {:induction false} RunBegins(cfg: AirtimeConfig, hist: seq<Burst>, j: nat, x: Instant, y: Instant) returns (i: nat)
    requires Spaced(hist) && j < |hist| && cfg.cooldown <= RUN_GAP
    ensures i <= j && KeyedIn(hist, j + 1, x, y) <= KeyedIn(hist, i, x, y) + RunLength(cfg, hist, j)
    ensures i > 0 ==> Start(hist[i]) >= hist[i - 1].end + cfg.cooldown
  {
    i := j;
    if j > 0 && RunLength(cfg, hist, j) == RunLength(cfg, hist, j - 1) + hist[j].len
       && !(GapBefore(hist, j) >= RUN_GAP || (RunLength(cfg, hist, j - 1) >= cfg.maxContinuous && GapBefore(hist, j) >= cfg.cooldown)) {
      i := RunBegins(cfg, hist, j - 1, x, y);
    }
  }

  lemma {:induction false} ShortPauseBounds(cfg: AirtimeConfig, hist: seq<Burst>, n: nat, x: Instant)
    requires Spaced(hist) && NoneLonger(cfg, hist) && Limited(cfg, hist) && cfg.cooldown <= RUN_GAP && n <= |hist|
    ensures KeyedIn(hist, n, x, x + cfg.maxContinuous + cfg.cooldown) <= cfg.maxContinuous
  {
    var y := x + cfg.maxContinuous + cfg.cooldown;
    if n > 0 {
      if Overlap(hist[n - 1], x, y) == 0 {
        ShortPauseBounds(cfg, hist, n - 1, x);
      } else {
        assert LimitedAt(cfg, hist, n - 1);
        var i := RunBegins(cfg, hist, n - 1, x, y);
        KeyedBetween(hist, i, n, x, y);
        if i > 0 {
          KeyedBetween(hist, 0, i, x, y);
        }
      }
    }
  }

  // ---- A longer one ----

  /** Two frames, each short of a run, with the run gap between them. */
  lemma TwoBursts(cfg: AirtimeConfig, octets: nat, x: nat) returns (w: Log)
    requires cfg.enabled && cfg.hourlyBudget == 0 && cfg.AirtimeFor(octets) == x && 2 * x <= cfg.Allowance()
    requires x < cfg.maxContinuous < 2 * x && 2 * x + RUN_GAP <= cfg.maxContinuous + cfg.cooldown
    ensures Reached(cfg, w) && Spaced(w.hist) && NoneLonger(cfg, w.hist)
    ensures forall j :: 0 <= j < |w.hist| ==> w.hist[j].len == x
    ensures KeyedWithin(w, 0, cfg.maxContinuous + cfg.cooldown) == 2 * x > cfg.maxContinuous
  {
    var logs, evs := TwoFrames(cfg, octets, octets, x, x);
    w := logs[2];
    assert KeyedIn(w.hist, 2, 0, cfg.maxContinuous + cfg.cooldown) == KeyedIn(w.hist, 1, 0, cfg.maxContinuous + cfg.cooldown) + x;
    assert KeyedIn(w.hist, 1, 0, cfg.maxContinuous + cfg.cooldown) == KeyedIn(w.hist, 0, 0, cfg.maxContinuous + cfg.cooldown) + x;
  }

  /** Runs of seven microseconds, frames of four. */
  function Tight(cooldown: nat): AirtimeConfig {
    AirtimeConfig(true, 8_000_000, 0, 0, 600_000_000, 0.5, 7, cooldown, 0, 0, 1.0)
  }

  lemma TightNumbers(cooldown: nat)
    ensures Tight(cooldown).AirtimeFor(0) == 4 && Tight(cooldown).Allowance() == 300_000_000
  {
    assert 32.0 * 1.0 * 1_000_000.0 / 8_000_000.0 == 4.0;
  }

  /** 300 baud, half of ten minutes, runs of three seconds. */
  function Roomy(cooldown: nat): AirtimeConfig {
    AirtimeConfig(true, 300, 0, 0, 600_000_000, 0.5, 3_000_000, cooldown, 0, 120_000_000, 1.05)
  }

  lemma RoomyNumbers(cooldown: nat)
    ensures Roomy(cooldown).AirtimeFor(96) == 2_800_000 && Roomy(cooldown).Allowance() == 300_000_000
  {
    assert 800.0 * 1.05 * 1_000_000.0 / 300.0 == 2_800_000.0;
  }

  /** No interval of one run and one cooldown holds more key-down than one run, exactly if the
      cooldown is no longer than the run gap. */
  lemma BurstBoundedExactly(cooldown: nat)
    ensures BurstBounded(cooldown) <==> cooldown <= RUN_GAP
  {
    if cooldown <= RUN_GAP {
      forall cfg: AirtimeConfig, w: Log, x: Instant |
        cfg.cooldown == cooldown && Reached(cfg, w) && Spaced(w.hist) && NoneLonger(cfg, w.hist)
        ensures HoldsOneRun(cfg, w, x)
      {
        ReachedRuns(cfg, w);
        ShortPauseBounds(cfg, w.hist, |w.hist|, x);
      }
    } else {
      TightNumbers(cooldown);
      var w := TwoBursts(Tight(cooldown), 0, 4);
      assert !HoldsOneRun(Tight(cooldown), w, 0);
    }
  }

  /** The same with frames the gateway sends, in a configuration it takes as hardware-safe: 5.6
      seconds keyed where one run and one cooldown allow three. */
  lemma GatewayExceedsBurst(cooldown: nat) returns (w: Log)
    requires Seconds(cooldown) && cooldown >= 6_000_000
    ensures GatewayTakes(Roomy(cooldown), 32) && Reached(Roomy(cooldown), w) && Spaced(w.hist)
    ensures forall j :: 0 <= j < |w.hist| ==> w.hist[j].len == Roomy(cooldown).AirtimeFor(FullFrame(32))
    ensures KeyedWithin(w, 0, 3_000_000 + cooldown) == 5_600_000
  {
    RoomyNumbers(cooldown);
    w := TwoBursts(Roomy(cooldown), 96, 2_800_000);
  }
}
