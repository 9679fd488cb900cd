/** The governor inside the pump: whatever the other threads do between its decision and the
    write, what is on the air stays within the window and the hour. */
module PumpBudget {
  import opened Common
  import opened Airtime
  import opened Scheduling
  import opened AirtimeRuns
  import opened Pump

  function GovLog(w: World): AirtimeRuns.Log {
    AirtimeRuns.Log(w.gov, w.hist, w.allowed, w.clock)
  }

  function CostOf(cfg: PumpConfig, item: Queued): nat {
    cfg.airtime.AirtimeFor(item.payload.octets)
  }

  /** The key-downs of the log, as bursts. */
  function Bursts(log: seq<Entry>, n: nat): seq<Burst>
    requires n <= |log|
  {
    if n == 0 then []
    else
      var k := log[n - 1];
      Bursts(log, n - 1) + (if k.KeyDown? then [Burst(k.end, Since(k.end, k.start))] else [])
  }

  /** The cost of `item` fits both budgets as they stand. */
  predicate Fits(cfg: AirtimeConfig, g: GovState, at: Instant, allowance: nat, cost: nat) {
    && Within(g.bursts, at, cfg.window) + cost <= allowance
    && (cfg.hourlyBudget > 0 ==> Within(g.bursts, at, HOUR) + cost <= cfg.hourlyBudget)
  }

  /** The governor said yes, and has not been told of the transmission. */
  predicate Asked(p: Phase) { p.Admitted? || p.Writing? }

  predicate BudgetOk(cfg: PumpConfig, w: World) {
    && LogOk(cfg.airtime, GovLog(w))
    && (InHand(w.phase) ==> w.phase.at == w.clock)
    && (Asked(w.phase) ==> Fits(cfg.airtime, w.gov, w.clock, w.phase.allowance, CostOf(cfg, w.phase.item)))
  }

  predicate LogMatches(w: World) {
    w.hist == Bursts(w.log, |w.log|)
  }

  /** Time passing only makes forgotten bursts older. */
  lemma LaterKeeps(cfg: AirtimeConfig, w: AirtimeRuns.Log, now: Instant)
    requires LogOk(cfg, w) && now >= w.clock
    ensures LogOk(cfg, w.(clock := now))
  {
  }

  lemma DecideKeeps(cfg: PumpConfig, w: World, allowance: nat)
    requires BudgetOk(cfg, w) && Shaped(w.sched) && w.phase.Cleared? && cfg.airtime.enabled
    ensures BudgetOk(cfg, Decided(w, allowance, CostOf(cfg, w.phase.item)))
  {
    var cost := CostOf(cfg, w.phase.item);
    CheckedKeeps(cfg.airtime, GovLog(w), w.clock);
    if Decision(w.gov, allowance, cost, w.clock).Send? {
      SendFits(w.gov, allowance, cost, w.clock);
    }
  }

  lemma SentKeeps(cfg: PumpConfig, w: World, cost: nat, later: Instant)
    requires BudgetOk(cfg, w) && Shaped(w.sched) && w.phase.Writing? && cfg.airtime.enabled
    requires cost == CostOf(cfg, w.phase.item)
    ensures BudgetOk(cfg, Written(w, cost, true, later))
  {
    SendKeeps(cfg.airtime, GovLog(w), w.phase.allowance, cost, w.clock);
    assert GovLog(Written(w, cost, true, later))
        == AirtimeRuns.Log(Recorded(w.gov, cost, w.clock), w.hist + [Burst(w.clock + cost, cost)],
                           w.allowed + [w.phase.allowance], w.clock);
  }

  lemma WriteKeeps(cfg: PumpConfig, w: World, cost: nat, written: bool, later: Instant)
    requires BudgetOk(cfg, w) && Shaped(w.sched) && w.phase.Writing? && cfg.airtime.enabled && later >= w.clock
    requires cost == CostOf(cfg, w.phase.item)
    ensures BudgetOk(cfg, Written(w, cost, written, later))
  {
    if written {
      SentKeeps(cfg, w, cost, later);
    } else {
      LaterKeeps(cfg.airtime, GovLog(w), later);
    }
  }

  lemma {:induction false} BurstsAppend(log: seq<Entry>, k: Entry, n: nat)
    requires n <= |log|
    ensures Bursts(log + [k], n) == Bursts(log, n)
  {
    if n > 0 {
      BurstsAppend(log, k, n - 1);
    }
  }

  lemma WriteMatches(w: World, cost: nat, written: bool, later: Instant)
    requires LogMatches(w) && Shaped(w.sched) && w.phase.Writing? && w.gov.cfg.enabled
    ensures LogMatches(Written(w, cost, written, later))
  {
    if written {
      BurstsAppend(w.log, KeyDown(w.phase.at, w.phase.at + cost, w.phase.item), |w.log|);
    }
  }

  lemma HearMatches(w: World, now: Instant)
    requires LogMatches(w)
    ensures LogMatches(HeardNow(w, now))
  {
    BurstsAppend(w.log, HeardAt(now), |w.log|);
  }

  lemma CostSame(cfg: AirtimeConfig, g: AirtimeConfig, octets: nat)
    requires g.(maxDuty := cfg.maxDuty) == cfg
    ensures g.AirtimeFor(octets) == cfg.AirtimeFor(octets)
  {
  }

  predicate Governs(ev: Pump.Event) { ev.Decide? || ev.Write? }

  lemma GovernedKeeps(cfg: PumpConfig, w: World, ev: Pump.Event)
    requires BudgetOk(cfg, w) && LogMatches(w) && Shaped(w.sched) && Pump.Enabled(w, ev) && Governs(ev) && cfg.airtime.enabled
    ensures BudgetOk(cfg, Pump.Next(cfg, w, ev)) && LogMatches(Pump.Next(cfg, w, ev))
  {
    CostSame(cfg.airtime, w.gov.cfg, w.phase.item.payload.octets);
    if ev.Decide? {
      DecideKeeps(cfg, w, w.gov.cfg.Allowance());
    } else {
      WriteKeeps(cfg, w, CostOf(cfg, w.phase.item), ev.written, ev.later);
      WriteMatches(w, CostOf(cfg, w.phase.item), ev.written, ev.later);
    }
  }

  lemma DutyKeeps(cfg: AirtimeConfig, w: AirtimeRuns.Log, duty: real)
    requires LogOk(cfg, w)
    ensures LogOk(cfg, w.(gov := w.gov.(cfg := w.gov.cfg.(maxDuty := duty))))
  {
  }

  predicate SameAnswer(p: Phase, p': Phase) {
    Asked(p) && Asked(p') && p.item == p'.item && p.allowance == p'.allowance
  }

  /** A step that leaves the governor and the log alone. */
  lemma QuietKeeps(cfg: PumpConfig, w: World, w': World)
    requires BudgetOk(cfg, w) && LogMatches(w) && w'.clock >= w.clock
    requires w'.gov == w.gov && w'.hist == w.hist && w'.allowed == w.allowed && w'.log == w.log
    requires InHand(w'.phase) ==> w'.phase.at == w'.clock
    requires Asked(w'.phase) ==> SameAnswer(w.phase, w'.phase) && w'.clock == w.clock
    ensures BudgetOk(cfg, w') && LogMatches(w')
  {
    LaterKeeps(cfg.airtime, GovLog(w), w'.clock);
  }

  lemma QuietStep(cfg: PumpConfig, w: World, ev: Pump.Event)
    requires Shaped(w.sched) && Pump.Enabled(w, ev) && !Governs(ev) && !ev.ApplyDuty? && !ev.Hear?
    requires InHand(w.phase) ==> w.phase.at == w.clock
    ensures var w' := Pump.Next(cfg, w, ev);
            && w'.clock >= w.clock
            && w'.gov == w.gov && w'.hist == w.hist && w'.allowed == w.allowed && w'.log == w.log
            && (InHand(w'.phase) ==> w'.phase.at == w'.clock)
            && (Asked(w'.phase) ==> SameAnswer(w.phase, w'.phase) && w'.clock == w.clock)
  {
  }

  lemma OthersKeep(cfg: PumpConfig, w: World, ev: Pump.Event)
    requires BudgetOk(cfg, w) && LogMatches(w) && Shaped(w.sched) && Pump.Enabled(w, ev) && !Governs(ev)
    ensures BudgetOk(cfg, Pump.Next(cfg, w, ev)) && LogMatches(Pump.Next(cfg, w, ev))
  {
    if ev.ApplyDuty? {
      DutyKeeps(cfg.airtime, GovLog(w), DutyLimit(w.dutyOverride, cfg.airtime.maxDuty));
    } else if ev.Hear? {
      LaterKeeps(cfg.airtime, GovLog(w), ev.now);
      HearMatches(w, ev.now);
    } else {
      QuietStep(cfg, w, ev);
      QuietKeeps(cfg, w, Pump.Next(cfg, w, ev));
    }
  }

  /** The allowance in force never exceeds half the window. */
  predicate Halved(cfg: AirtimeConfig, w: World) {
    && (forall k :: 0 <= k < |w.allowed| ==> 2 * w.allowed[k] <= cfg.window)
    && (Asked(w.phase) ==> 2 * w.phase.allowance <= cfg.window)
  }

  lemma NextHalved(cfg: PumpConfig, w: World, ev: Pump.Event)
    requires Halved(cfg.airtime, w) && SameConfig(cfg.airtime, w.gov) && Shaped(w.sched) && Pump.Enabled(w, ev)
    ensures Halved(cfg.airtime, Pump.Next(cfg, w, ev))
  {
  }

  lemma {:induction false} RunKeeps(cfg: PumpConfig, worlds: seq<World>, evs: seq<Pump.Event>, n: nat)
    requires Pump.IsRun(cfg, worlds, evs) && cfg.airtime.enabled && n < |worlds|
    ensures BudgetOk(cfg, worlds[n]) && LogMatches(worlds[n]) && Halved(cfg.airtime, worlds[n])
  {
    if n > 0 {
      RunKeeps(cfg, worlds, evs, n - 1);
      NextHalved(cfg, worlds[n - 1], evs[n - 1]);
      if Governs(evs[n - 1]) {
        GovernedKeeps(cfg, worlds[n - 1], evs[n - 1]);
      } else {
        OthersKeep(cfg, worlds[n - 1], evs[n - 1]);
      }
    }
  }

  /** Key-down inside [x, y], summed over the first `n` entries of the pump's own log. */
  function OnAir(log: seq<Entry>, n: nat, x: Instant, y: Instant): nat
    requires n <= |log|
  {
    if n == 0 then 0
    else OnAir(log, n - 1, x, y)
         + (if log[n - 1].KeyDown? then Since(Min(log[n - 1].end, y), Max(log[n - 1].start, x)) else 0)
  }

  lemma {:induction false} OnAirIsKeyed(log: seq<Entry>, n: nat, x: Instant, y: Instant)
    requires n <= |log| && Forward(log)
    ensures OnAir(log, n, x, y) == KeyedIn(Bursts(log, n), |Bursts(log, n)|, x, y)
  {
    if n > 0 {
      OnAirIsKeyed(log, n - 1, x, y);
      assert Bursts(log, n - 1) + [] == Bursts(log, n - 1);
      if log[n - 1].KeyDown? {
        KeyedAppend(Bursts(log, n - 1), Burst(log[n - 1].end, Since(log[n - 1].end, log[n - 1].start)), |Bursts(log, n - 1)|, x, y);
      }
    }
  }

  lemma {:induction false} KeyedAppend(hist: seq<Burst>, b: Burst, n: nat, x: Instant, y: Instant)
    requires n <= |hist|
    ensures KeyedIn(hist + [b], n, x, y) == KeyedIn(hist, n, x, y)
  {
    if n > 0 {
      KeyedAppend(hist, b, n - 1, x, y);
    }
  }

  predicate Forward(log: seq<Entry>) {
    forall i :: 0 <= i < |log| && log[i].KeyDown? ==> log[i].start <= log[i].end
  }

  lemma NextForward(cfg: PumpConfig, w: World, ev: Pump.Event)
    requires Forward(w.log) && Shaped(w.sched) && Pump.Enabled(w, ev)
    ensures Forward(Pump.Next(cfg, w, ev).log)
  {
  }

  lemma {:induction false} KeysForward(cfg: PumpConfig, worlds: seq<World>, evs: seq<Pump.Event>, n: nat)
    requires Pump.IsRun(cfg, worlds, evs) && n < |worlds|
    ensures Forward(worlds[n].log)
  {
    if n > 0 {
      KeysForward(cfg, worlds, evs, n - 1);
      NextForward(cfg, worlds[n - 1], evs[n - 1]);
    }
  }

  /** Over any run of the pump, whatever the operator, the interlock and the other threads do:
      every interval one window long holds at most half a window of key-down, and every hour at
      most a non-zero hourly budget. */
  lemma AirStaysWithinBudget(cfg: PumpConfig, worlds: seq<World>, evs: seq<Pump.Event>, n: nat, x: Instant)
    requires Pump.IsRun(cfg, worlds, evs) && cfg.airtime.enabled && n < |worlds|
    ensures 2 * OnAir(worlds[n].log, |worlds[n].log|, x, x + cfg.airtime.window) <= cfg.airtime.window
    ensures cfg.airtime.hourlyBudget > 0 ==>
              OnAir(worlds[n].log, |worlds[n].log|, x, x + HOUR) <= cfg.airtime.hourlyBudget
  {
    RunKeeps(cfg, worlds, evs, n);
    KeysForward(cfg, worlds, evs, n);
    var w := worlds[n];
    OnAirIsKeyed(w.log, |w.log|, x, x + cfg.airtime.window);
    OnAirIsKeyed(w.log, |w.log|, x, x + HOUR);
    IntervalLoad(w.hist, |w.hist|, x, cfg.airtime.window);
    IntervalLoad(w.hist, |w.hist|, x, HOUR);
  }

  // ---- Without an override ----

  /** Nobody sets a duty override in the first `n` events; taking one back is no override. */
  predicate NoOverride(evs: seq<Pump.Event>, n: nat)
    requires n <= |evs|
  {
    forall i :: 0 <= i < n && evs[i].SetDuty? ==> StoredDuty(evs[i].percent) == 0
  }

  /** The configured allowance is the only one ever in force. */
  predicate Configured(cfg: AirtimeConfig, w: World) {
    && w.dutyOverride == 0
    && w.gov.cfg.Allowance() == cfg.Allowance()
    && (forall k :: 0 <= k < |w.allowed| ==> w.allowed[k] == cfg.Allowance())
    && (Asked(w.phase) ==> w.phase.allowance == cfg.Allowance())
  }

  lemma ClampedAllowance(cfg: AirtimeConfig, g: AirtimeConfig)
    requires g.(maxDuty := cfg.maxDuty) == cfg && g.maxDuty == DutyLimit(0, cfg.maxDuty)
    ensures g.Allowance() == cfg.Allowance()
  {
    assert g.EffectiveDuty() == cfg.EffectiveDuty();
  }

  lemma DutyConfigured(cfg: PumpConfig, w: World)
    requires Configured(cfg.airtime, w) && SameConfig(cfg.airtime, w.gov) && Shaped(w.sched) && w.phase.Resting?
    ensures Configured(cfg.airtime, Pump.Next(cfg, w, ApplyDuty))
  {
    ClampedAllowance(cfg.airtime, Pump.Next(cfg, w, ApplyDuty).gov.cfg);
  }

  /** Nothing else reconfigures the governor. */
  lemma OthersConfigured(cfg: PumpConfig, w: World, ev: Pump.Event)
    requires Configured(cfg.airtime, w) && Shaped(w.sched) && Pump.Enabled(w, ev) && !ev.ApplyDuty?
    requires ev.SetDuty? ==> StoredDuty(ev.percent) == 0
    ensures Configured(cfg.airtime, Pump.Next(cfg, w, ev))
  {
  }

  lemma NextConfigured(cfg: PumpConfig, w: World, ev: Pump.Event)
    requires Configured(cfg.airtime, w) && SameConfig(cfg.airtime, w.gov) && Shaped(w.sched) && Pump.Enabled(w, ev)
    requires ev.SetDuty? ==> StoredDuty(ev.percent) == 0
    ensures Configured(cfg.airtime, Pump.Next(cfg, w, ev))
  {
    if ev.ApplyDuty? {
      DutyConfigured(cfg, w);
    } else {
      OthersConfigured(cfg, w, ev);
    }
  }

  lemma {:induction false} RunConfigured(cfg: PumpConfig, worlds: seq<World>, evs: seq<Pump.Event>, n: nat)
    requires Pump.IsRun(cfg, worlds, evs) && cfg.airtime.enabled && n < |worlds| && NoOverride(evs, n)
    ensures Configured(cfg.airtime, worlds[n])
  {
    if n > 0 {
      RunConfigured(cfg, worlds, evs, n - 1);
      RunKeeps(cfg, worlds, evs, n - 1);
      NextConfigured(cfg, worlds[n - 1], evs[n - 1]);
    }
  }

  /** As long as nobody sets an override, every interval one window long holds at most the
      configured allowance of key-down, which is at most the effective duty of it. */
  lemma AirStaysWithinDuty(cfg: PumpConfig, worlds: seq<World>, evs: seq<Pump.Event>, n: nat, x: Instant)
    requires Pump.IsRun(cfg, worlds, evs) && cfg.airtime.enabled && n < |worlds| && NoOverride(evs, n)
    ensures OnAir(worlds[n].log, |worlds[n].log|, x, x + cfg.airtime.window) <= cfg.airtime.Allowance()
  {
    var w := worlds[n];
    RunKeeps(cfg, worlds, evs, n);
    KeysForward(cfg, worlds, evs, n);
    RunConfigured(cfg, worlds, evs, n);
    OnAirIsKeyed(w.log, |w.log|, x, x + cfg.airtime.window);
    WithinAllowance(cfg.airtime, GovLog(w), cfg.airtime.Allowance(), x);
  }
}
