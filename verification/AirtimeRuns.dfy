/** What the governor guarantees over every run of check-then-record, whatever duty overrides
    the operator applies on the way, and for every position of the window. */
module AirtimeRuns {
  import opened Common
  import opened Airtime

  /** The governor, every burst it admitted, the allowance in force at each, and the time. */
  datatype Log = Log(gov: GovState, hist: seq<Burst>, allowed: seq<nat>, clock: Instant)

  datatype Event =
    | Override(duty: real)
    | Ask(octets: nat, at: Instant)

  function Start(b: Burst): Instant { b.end - b.len }

  /** `check`, and `record` if the answer is to send. */
  function AskCost(w: Log, allowance: nat, cost: nat, at: Instant): Log {
    var g := Checked(w.gov, at);
    if Decision(w.gov, allowance, cost, at).Send? then
      Log(Recorded(g, cost, at), w.hist + [Burst(at + cost, cost)], w.allowed + [allowance], at)
    else Log(g, w.hist, w.allowed, at)
  }

  function Next(w: Log, ev: Event): Log {
    match ev
    case Override(duty) => w.(gov := w.gov.(cfg := w.gov.cfg.(maxDuty := duty)))
    case Ask(octets, at) => AskCost(w, w.gov.cfg.Allowance(), w.gov.cfg.AirtimeFor(octets), at)
  }

  ghost predicate IsRun(cfg: AirtimeConfig, logs: seq<Log>, evs: seq<Event>) {
    && |logs| == |evs| + 1
    && (exists t :: logs[0] == Log(NewGovernor(cfg), [], [], t))
    && forall i :: 0 <= i < |evs| ==>
         && (evs[i].Ask? ==> evs[i].at >= logs[i].clock)
         && logs[i + 1] == Next(logs[i], evs[i])
  }

  // ---- The invariant ----

  predicate SameConfig(cfg: AirtimeConfig, g: GovState) {
    g.cfg.(maxDuty := cfg.maxDuty) == cfg
  }

  /** The governor still holds every admitted burst young enough for either window. */
  predicate Kept(cfg: AirtimeConfig, w: Log) {
    && |w.gov.bursts| <= |w.hist|
    && w.gov.bursts == w.hist[|w.hist| - |w.gov.bursts|..]
    && forall j :: 0 <= j < |w.hist| - |w.gov.bursts| ==> Since(w.clock, w.hist[j].end) > cfg.Retention()
  }

  predicate Ordered(w: Log) {
    && (forall j, k :: 0 <= j < k < |w.hist| ==> Start(w.hist[j]) <= Start(w.hist[k]))
    && (forall j :: 0 <= j < |w.hist| ==> Start(w.hist[j]) <= w.clock)
  }

  /** Burst `k` and the bursts before it that ended within `window` of its start. */
  function Load(hist: seq<Burst>, window: nat, k: nat): nat
    requires k < |hist|
  {
    WithinPrefix(hist, Start(hist[k]), window, k) + hist[k].len
  }

  predicate Budgeted(cfg: AirtimeConfig, w: Log) {
    && |w.allowed| == |w.hist|
    && (forall k :: 0 <= k < |w.hist| ==> Load(w.hist, cfg.window, k) <= w.allowed[k])
    && (cfg.hourlyBudget > 0 ==> forall k :: 0 <= k < |w.hist| ==> Load(w.hist, HOUR, k) <= cfg.hourlyBudget)
  }

  predicate LogOk(cfg: AirtimeConfig, w: Log) {
    SameConfig(cfg, w.gov) && Kept(cfg, w) && Ordered(w) && Budgeted(cfg, w)
  }

  lemma {:induction false} WithinAppend(hist: seq<Burst>, b: Burst, now: Instant, window: nat, n: nat)
    requires n <= |hist|
    ensures WithinPrefix(hist + [b], now, window, n) == WithinPrefix(hist, now, window, n)
  {
    if n > 0 {
      WithinAppend(hist, b, now, window, n - 1);
    }
  }

  /** What the governor counts is what happened. */
  lemma CountsHistory(cfg: AirtimeConfig, w: Log, now: Instant, window: nat)
    requires Kept(cfg, w) && now >= w.clock && window <= cfg.Retention()
    ensures Within(w.gov.bursts, now, window) == Within(w.hist, now, window)
  {
    WithinSuffix(w.hist, |w.hist| - |w.gov.bursts|, now, window, |w.hist|);
  }

  lemma TrimKeeps(cfg: AirtimeConfig, w: Log, now: Instant)
    requires Kept(cfg, w) && now >= w.clock
    ensures Kept(cfg, w.(gov := w.gov.(bursts := Trimmed(w.gov.bursts, now, cfg.Retention())), clock := now))
  {
    var d := Dropped(w.gov.bursts, now, cfg.Retention(), 0);
    var base := |w.hist| - |w.gov.bursts|;
    assert w.gov.bursts[d..] == w.hist[base + d..];
    forall j | 0 <= j < base + d ensures Since(now, w.hist[j].end) > cfg.Retention() {
      if j >= base {
        DroppedAreOld(w.gov.bursts, now, cfg.Retention(), 0, j - base);
        assert w.hist[j] == w.gov.bursts[j - base];
      }
    }
  }

  lemma AppendKeeps(cfg: AirtimeConfig, w: Log, b: Burst)
    requires Kept(cfg, w)
    ensures Kept(cfg, w.(gov := w.gov.(bursts := w.gov.bursts + [b]), hist := w.hist + [b]))
  {
  }

  lemma AppendBudgeted(cfg: AirtimeConfig, w: Log, cost: nat, at: Instant, allowance: nat)
    requires Budgeted(cfg, w) && Ordered(w) && at >= w.clock
    requires Within(w.hist, at, cfg.window) + cost <= allowance
    requires cfg.hourlyBudget > 0 ==> Within(w.hist, at, HOUR) + cost <= cfg.hourlyBudget
    ensures var w' := w.(hist := w.hist + [Burst(at + cost, cost)], allowed := w.allowed + [allowance], clock := at);
            Budgeted(cfg, w') && Ordered(w')
  {
    var b := Burst(at + cost, cost);
    var hist := w.hist + [b];
    forall k, window: nat | 0 <= k < |hist|
      ensures Load(hist, window, k) == if k < |w.hist| then Load(w.hist, window, k) else Within(w.hist, at, window) + cost
    {
      WithinAppend(w.hist, b, Start(hist[k]), window, k);
    }
  }

  lemma RecordKeeps(cfg: AirtimeConfig, w: Log, cost: nat, at: Instant)
    requires Kept(cfg, w) && at == w.clock && SameConfig(cfg, w.gov) && cfg.enabled
    ensures Kept(cfg, w.(gov := Recorded(w.gov, cost, at), hist := w.hist + [Burst(at + cost, cost)]))
  {
    var b := Burst(at + cost, cost);
    AppendKeeps(cfg, w, b);
    TrimKeeps(cfg, w.(gov := w.gov.(bursts := w.gov.bursts + [b]), hist := w.hist + [b]), at);
  }

  lemma SendKeeps(cfg: AirtimeConfig, w: Log, allowance: nat, cost: nat, at: Instant)
    requires LogOk(cfg, w) && cfg.enabled && at == w.clock
    requires Within(w.gov.bursts, at, cfg.window) + cost <= allowance
    requires cfg.hourlyBudget > 0 ==> Within(w.gov.bursts, at, HOUR) + cost <= cfg.hourlyBudget
    ensures LogOk(cfg, Log(Recorded(w.gov, cost, at), w.hist + [Burst(at + cost, cost)], w.allowed + [allowance], at))
  {
    CountsHistory(cfg, w, at, cfg.window);
    if cfg.hourlyBudget > 0 {
      CountsHistory(cfg, w, at, HOUR);
    }
    AppendBudgeted(cfg, w, cost, at, allowance);
    RecordKeeps(cfg, w, cost, at);
  }

  lemma KeptSame(cfg: AirtimeConfig, w: Log, w': Log)
    requires Kept(cfg, w) && w'.gov.bursts == w.gov.bursts && w'.hist == w.hist && w'.clock == w.clock
    ensures Kept(cfg, w')
  {
  }

  lemma LaterKeeps(cfg: AirtimeConfig, w: Log, w': Log)
    requires Ordered(w) && Budgeted(cfg, w) && w'.hist == w.hist && w'.allowed == w.allowed && w'.clock >= w.clock
    ensures Ordered(w') && Budgeted(cfg, w')
  {
  }

  lemma CheckedKeeps(cfg: AirtimeConfig, w: Log, at: Instant)
    requires LogOk(cfg, w) && cfg.enabled && at >= w.clock
    ensures LogOk(cfg, w.(gov := Checked(w.gov, at), clock := at))
  {
    var w' := w.(gov := Checked(w.gov, at), clock := at);
    TrimKeeps(cfg, w, at);
    KeptSame(cfg, w.(gov := w.gov.(bursts := Trimmed(w.gov.bursts, at, cfg.Retention())), clock := at), w');
    LaterKeeps(cfg, w, w');
  }

  /** Sending means that neither budget, counted on what is still remembered, is exceeded. */
  lemma SendFits(g: GovState, allowance: nat, cost: nat, at: Instant)
    requires g.cfg.enabled && Decision(g, allowance, cost, at).Send?
    ensures var h := Checked(g, at);
            && Within(h.bursts, at, g.cfg.window) + cost <= allowance
            && (g.cfg.hourlyBudget > 0 ==> Within(h.bursts, at, HOUR) + cost <= g.cfg.hourlyBudget)
  {
    BudgetsTrimmed(g, allowance, cost, at);
  }

  lemma AskKeeps(cfg: AirtimeConfig, w: Log, allowance: nat, cost: nat, at: Instant)
    requires LogOk(cfg, w) && cfg.enabled && at >= w.clock
    ensures LogOk(cfg, AskCost(w, allowance, cost, at))
  {
    CheckedKeeps(cfg, w, at);
    if Decision(w.gov, allowance, cost, at).Send? {
      SendFits(w.gov, allowance, cost, at);
      SendKeeps(cfg, w.(gov := Checked(w.gov, at), clock := at), allowance, cost, at);
    }
  }

  lemma NextKeeps(cfg: AirtimeConfig, w: Log, ev: Event)
    requires LogOk(cfg, w) && cfg.enabled && (ev.Ask? ==> ev.at >= w.clock)
    ensures LogOk(cfg, Next(w, ev))
  {
    match ev
    case Override(duty) =>
    case Ask(octets, at) => AskKeeps(cfg, w, w.gov.cfg.Allowance(), w.gov.cfg.AirtimeFor(octets), at);
  }

  lemma {:induction false} RunKeeps(cfg: AirtimeConfig, logs: seq<Log>, evs: seq<Event>, n: nat)
    requires IsRun(cfg, logs, evs) && cfg.enabled && n < |logs|
    ensures LogOk(cfg, logs[n])
  {
    if n > 0 {
      RunKeeps(cfg, logs, evs, n - 1);
      NextKeeps(cfg, logs[n - 1], evs[n - 1]);
    }
  }

  // ---- Every window position ----

  /** Key-down time of a burst inside [x, y]. */
  function Overlap(b: Burst, x: Instant, y: Instant): nat {
    Since(Min(b.end, y), Max(Start(b), x))
  }

  /** Key-down time of the first `n` bursts inside [x, y]. */
  function KeyedIn(hist: seq<Burst>, n: nat, x: Instant, y: Instant): nat
    requires n <= |hist|
  {
    if n == 0 then 0 else KeyedIn(hist, n - 1, x, y) + Overlap(hist[n - 1], x, y)
  }

  /** Bursts that reach past `x` ended within `window` of any `now` up to `x + window`. */
  lemma {:induction false} OverlapsAreRecent(hist: seq<Burst>, n: nat, x: Instant, window: nat, now: Instant)
    requires n <= |hist| && now <= x + window
    ensures KeyedIn(hist, n, x, x + window) <= WithinPrefix(hist, now, window, n)
  {
    if n > 0 {
      OverlapsAreRecent(hist, n - 1, x, window, now);
    }
  }

  /** Wherever the window lies, what is keyed inside it is covered by the load admitted with the
      last burst that touches it. */
  lemma {:induction false} IntervalLoad(hist: seq<Burst>, n: nat, x: Instant, window: nat)
    requires n <= |hist|
    ensures KeyedIn(hist, n, x, x + window) == 0
            || exists k :: 0 <= k < n && KeyedIn(hist, n, x, x + window) <= Load(hist, window, k)
  {
    if n > 0 {
      if Overlap(hist[n - 1], x, x + window) > 0 {
        OverlapsAreRecent(hist, n - 1, x, window, Start(hist[n - 1]));
        assert KeyedIn(hist, n, x, x + window) <= Load(hist, window, n - 1);
      } else {
        IntervalLoad(hist, n - 1, x, window);
      }
    }
  }

  lemma {:induction false} RunHalved(cfg: AirtimeConfig, logs: seq<Log>, evs: seq<Event>, n: nat, k: nat)
    requires IsRun(cfg, logs, evs) && cfg.enabled && n < |logs| && k < |logs[n].allowed|
    ensures 2 * logs[n].allowed[k] <= cfg.window
  {
    if n > 0 {
      RunKeeps(cfg, logs, evs, n - 1);
      if k < |logs[n - 1].allowed| {
        RunHalved(cfg, logs, evs, n - 1, k);
      }
    }
  }

  /** Every window-long interval, wherever it lies, holds at most half a window of key-down,
      whatever overrides were applied. */
  lemma WindowHalfIdle(cfg: AirtimeConfig, logs: seq<Log>, evs: seq<Event>, n: nat, x: Instant)
    requires IsRun(cfg, logs, evs) && cfg.enabled && n < |logs|
    ensures 2 * KeyedIn(logs[n].hist, |logs[n].hist|, x, x + cfg.window) <= cfg.window
  {
    RunKeeps(cfg, logs, evs, n);
    var hist := logs[n].hist;
    IntervalLoad(hist, |hist|, x, cfg.window);
    if KeyedIn(hist, |hist|, x, x + cfg.window) > 0 {
      var k :| 0 <= k < |hist| && KeyedIn(hist, |hist|, x, x + cfg.window) <= Load(hist, cfg.window, k);
      RunHalved(cfg, logs, evs, n, k);
    }
  }

  lemma {:induction false} RunConfigured(cfg: AirtimeConfig, logs: seq<Log>, evs: seq<Event>, n: nat)
    requires IsRun(cfg, logs, evs) && cfg.enabled && n < |logs|
    requires forall i :: 0 <= i < |evs| ==> evs[i].Ask?
    ensures logs[n].gov.cfg == cfg
    ensures forall k :: 0 <= k < |logs[n].allowed| ==> logs[n].allowed[k] == cfg.Allowance()
  {
    if n > 0 {
      RunConfigured(cfg, logs, evs, n - 1);
      assert evs[n - 1].Ask?;
    }
  }

  /** Without overrides, at most the configured allowance of it, which is the duty's share. */
  lemma WindowWithinDuty(cfg: AirtimeConfig, logs: seq<Log>, evs: seq<Event>, n: nat, x: Instant)
    requires IsRun(cfg, logs, evs) && cfg.enabled && n < |logs|
    requires forall i :: 0 <= i < |evs| ==> evs[i].Ask?
    ensures KeyedIn(logs[n].hist, |logs[n].hist|, x, x + cfg.window) <= cfg.Allowance()
    ensures cfg.Allowance() as real <= cfg.EffectiveDuty() * cfg.window as real
  {
    RunKeeps(cfg, logs, evs, n);
    RunConfigured(cfg, logs, evs, n);
    WithinAllowance(cfg, logs[n], cfg.Allowance(), x);
  }

  lemma WithinAllowance(cfg: AirtimeConfig, w: Log, allowance: nat, x: Instant)
    requires LogOk(cfg, w) && forall k :: 0 <= k < |w.allowed| ==> w.allowed[k] == allowance
    ensures KeyedIn(w.hist, |w.hist|, x, x + cfg.window) <= allowance
  {
    IntervalLoad(w.hist, |w.hist|, x, cfg.window);
  }

  /** Every 3600-second interval respects a non-zero hourly budget. */
  lemma HourWithinBudget(cfg: AirtimeConfig, logs: seq<Log>, evs: seq<Event>, n: nat, x: Instant)
    requires IsRun(cfg, logs, evs) && cfg.enabled && n < |logs| && cfg.hourlyBudget > 0
    ensures KeyedIn(logs[n].hist, |logs[n].hist|, x, x + HOUR) <= cfg.hourlyBudget
  {
    RunKeeps(cfg, logs, evs, n);
    IntervalLoad(logs[n].hist, |logs[n].hist|, x, HOUR);
  }

  // ---- Unbroken runs and the cooldown ----

  /** The silence before burst `j`. */
  function GapBefore(hist: seq<Burst>, j: nat): nat
    requires 0 < j < |hist|
  {
    Since(Start(hist[j]), hist[j - 1].end)
  }

  /** Key-down of the unbroken run that ends with burst `j`. A run is broken by the run gap, and
      once it has reached `max_continuous` by the cooldown. */
  function RunLength(cfg: AirtimeConfig, hist: seq<Burst>, j: nat): nat
    requires j < |hist|
  {
    if j == 0 then hist[j].len
    else
      var before := RunLength(cfg, hist, j - 1);
      if GapBefore(hist, j) >= RUN_GAP || (before >= cfg.maxContinuous && GapBefore(hist, j) >= cfg.cooldown) then hist[j].len
      else before + hist[j].len
  }

  lemma {:induction false} RunLengthAppend(cfg: AirtimeConfig, hist: seq<Burst>, b: Burst, j: nat)
    requires j < |hist|
    ensures RunLength(cfg, hist + [b], j) == RunLength(cfg, hist, j)
  {
    if j > 0 {
      RunLengthAppend(cfg, hist, b, j - 1);
    }
  }

  /** The silence that ends a run of this length. */
  function Pause(cfg: AirtimeConfig, length: nat): nat {
    if length >= cfg.maxContinuous then cfg.cooldown else RUN_GAP
  }

  /** What the governor remembers of the run of this length that ended at `end`: all of it, with
      the cooldown it earned, or nothing once the pause that ends it is over. */
  predicate Tracked(cfg: AirtimeConfig, g: GovState, end: Option<Instant>, length: nat, clock: Instant) {
    && g.lastEnd == end
    && (end.None? ==> g.run == 0 && g.coolingUntil.None?)
    && (end.Some? ==>
          || (g.run == length && g.coolingUntil == if length >= cfg.maxContinuous then Some(end.value + cfg.cooldown) else None)
          || (g.run == 0 && g.coolingUntil.None? && clock >= end.value + Pause(cfg, length)))
  }

  function HistEnd(hist: seq<Burst>): Option<Instant> {
    if hist == [] then None else Some(hist[|hist| - 1].end)
  }

  function HistRun(cfg: AirtimeConfig, hist: seq<Burst>): nat {
    if hist == [] then 0 else RunLength(cfg, hist, |hist| - 1)
  }

  /** The run up to burst `j` is no longer than allowed, but for a single frame that is; and if
      it is that long it is followed by the cooldown. */
  predicate LimitedAt(cfg: AirtimeConfig, hist: seq<Burst>, j: nat)
    requires j < |hist|
  {
    && RunLength(cfg, hist, j) <= Max(cfg.maxContinuous, hist[j].len)
    && (j + 1 < |hist| && RunLength(cfg, hist, j) >= cfg.maxContinuous ==> Start(hist[j + 1]) >= hist[j].end + cfg.cooldown)
  }

  predicate Limited(cfg: AirtimeConfig, hist: seq<Burst>) {
    forall j :: 0 <= j < |hist| ==> LimitedAt(cfg, hist, j)
  }

  predicate RunOk(cfg: AirtimeConfig, w: Log) {
    SameConfig(cfg, w.gov) && Tracked(cfg, w.gov, HistEnd(w.hist), HistRun(cfg, w.hist), w.clock) && Limited(cfg, w.hist)
  }

  lemma CheckedTracks(cfg: AirtimeConfig, g: GovState, end: Option<Instant>, length: nat, clock: Instant, at: Instant)
    requires Tracked(cfg, g, end, length, clock) && at >= clock && g.cfg.enabled
    ensures Tracked(cfg, Checked(g, at), end, length, at)
    ensures Checked(g, at).coolingUntil.None? && GapOver(g, at) ==> Checked(g, at).run == 0
  {
  }

  lemma SendMeansRun(g: GovState, allowance: nat, cost: nat, at: Instant)
    requires g.cfg.enabled && Decision(g, allowance, cost, at).Send?
    ensures var h := Checked(g, at);
            h.coolingUntil.None? && (h.run > 0 ==> h.run + cost <= g.cfg.maxContinuous)
  {
  }

  /** The unbroken run the new burst belongs to is what the governor adds up, and it starts only
      after the pause the one before has earned. */
  lemma SendTracks(cfg: AirtimeConfig, h: GovState, hist: seq<Burst>, cost: nat, at: Instant)
    requires Tracked(cfg, h, HistEnd(hist), HistRun(cfg, hist), at) && h.coolingUntil.None?
    requires GapOver(h, at) ==> h.run == 0
    ensures RunLength(cfg, hist + [Burst(at + cost, cost)], |hist|) == h.run + cost
    ensures hist != [] && HistRun(cfg, hist) >= cfg.maxContinuous ==> at >= hist[|hist| - 1].end + cfg.cooldown
  {
    if hist != [] {
      RunLengthAppend(cfg, hist, Burst(at + cost, cost), |hist| - 1);
    }
  }

  lemma LimitedAppend(cfg: AirtimeConfig, hist: seq<Burst>, b: Burst)
    requires Limited(cfg, hist)
    requires RunLength(cfg, hist + [b], |hist|) <= Max(cfg.maxContinuous, b.len)
    requires hist != [] && HistRun(cfg, hist) >= cfg.maxContinuous ==> Start(b) >= hist[|hist| - 1].end + cfg.cooldown
    ensures Limited(cfg, hist + [b])
  {
    forall j | 0 <= j < |hist| + 1 ensures LimitedAt(cfg, hist + [b], j) {
      if j < |hist| {
        assert LimitedAt(cfg, hist, j);
        RunLengthAppend(cfg, hist, b, j);
      }
    }
  }

  lemma RecordTracks(cfg: AirtimeConfig, h: GovState, cost: nat, at: Instant)
    requires SameConfig(cfg, h) && cfg.enabled && h.coolingUntil.None? && (GapOver(h, at) ==> h.run == 0)
    ensures Tracked(cfg, Recorded(h, cost, at), Some(at + cost), h.run + cost, at)
  {
  }

  lemma SendKeepsRuns(cfg: AirtimeConfig, w: Log, allowance: nat, cost: nat, at: Instant)
    requires RunOk(cfg, w) && cfg.enabled && at == w.clock && w.gov.coolingUntil.None?
    requires GapOver(w.gov, at) ==> w.gov.run == 0
    requires w.gov.run > 0 ==> w.gov.run + cost <= cfg.maxContinuous
    ensures RunOk(cfg, Log(Recorded(w.gov, cost, at), w.hist + [Burst(at + cost, cost)], w.allowed + [allowance], at))
  {
    SendTracks(cfg, w.gov, w.hist, cost, at);
    LimitedAppend(cfg, w.hist, Burst(at + cost, cost));
    RecordTracks(cfg, w.gov, cost, at);
  }

  lemma AskKeepsRuns(cfg: AirtimeConfig, w: Log, allowance: nat, cost: nat, at: Instant)
    requires RunOk(cfg, w) && cfg.enabled && at >= w.clock
    ensures RunOk(cfg, AskCost(w, allowance, cost, at))
  {
    CheckedTracks(cfg, w.gov, HistEnd(w.hist), HistRun(cfg, w.hist), w.clock, at);
    if Decision(w.gov, allowance, cost, at).Send? {
      SendMeansRun(w.gov, allowance, cost, at);
      SendKeepsRuns(cfg, w.(gov := Checked(w.gov, at), clock := at), allowance, cost, at);
    }
  }

  lemma NextKeepsRuns(cfg: AirtimeConfig, w: Log, ev: Event)
    requires RunOk(cfg, w) && cfg.enabled && (ev.Ask? ==> ev.at >= w.clock)
    ensures RunOk(cfg, Next(w, ev))
  {
    match ev
    case Override(duty) =>
    case Ask(octets, at) => AskKeepsRuns(cfg, w, w.gov.cfg.Allowance(), w.gov.cfg.AirtimeFor(octets), at);
  }

  lemma {:induction false} RunsKeep(cfg: AirtimeConfig, logs: seq<Log>, evs: seq<Event>, n: nat)
    requires IsRun(cfg, logs, evs) && cfg.enabled && n < |logs|
    ensures RunOk(cfg, logs[n])
  {
    if n > 0 {
      RunsKeep(cfg, logs, evs, n - 1);
      NextKeepsRuns(cfg, logs[n - 1], evs[n - 1]);
    }
  }

  /** An unbroken run never outlasts `max_continuous` unless it is one single frame; and once it
      reaches that length the station stays off the air for the whole cooldown. */
  lemma RunsEndInCooldown(cfg: AirtimeConfig, logs: seq<Log>, evs: seq<Event>, n: nat, j: nat)
    requires IsRun(cfg, logs, evs) && cfg.enabled && n < |logs| && j < |logs[n].hist|
    ensures var hist := logs[n].hist;
            && RunLength(cfg, hist, j) <= Max(cfg.maxContinuous, hist[j].len)
            && (j + 1 < |hist| && RunLength(cfg, hist, j) >= cfg.maxContinuous ==>
                  Start(hist[j + 1]) >= hist[j].end + cfg.cooldown)
  {
    RunsKeep(cfg, logs, evs, n);
    assert LimitedAt(cfg, logs[n].hist, j);
  }
}
