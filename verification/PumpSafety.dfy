/** What is true on the air, over every run of the pump: spacing, listening, the interlock and
    the inhibit. */
module PumpSafety {
  import opened Common
  import opened Airtime
  import opened Scheduling
  import opened Pump

  // ---- Silence that is owed ----

  /** Something was heard at or after position `i` of the log. */
  predicate HeardSince(log: seq<Entry>, i: nat) {
    exists j :: i <= j < |log| && log[j].HeardAt?
  }

  /** At `t`, every key-down is over and its pacing gap has passed. */
  predicate Paced(cfg: PumpConfig, log: seq<Entry>, t: Instant) {
    forall i :: 0 <= i < |log| && log[i].KeyDown? ==> log[i].end + cfg.txPacing <= t
  }

  /** At `t`, the receive guard of everything heard has passed. */
  predicate Guarded(cfg: PumpConfig, log: seq<Entry>, t: Instant) {
    forall i :: 0 <= i < |log| && log[i].HeardAt? ==> log[i].at + cfg.sched.rxGuard <= t
  }

  /** At `t`, every reply window has passed, or something was heard since. */
  predicate Answered(cfg: PumpConfig, log: seq<Entry>, t: Instant) {
    forall i :: 0 <= i < |log| && log[i].KeyDown? && log[i].item.expectsReply && !HeardSince(log, i) ==>
      log[i].end + cfg.sched.replyWindow <= t
  }

  predicate Clear(cfg: PumpConfig, log: seq<Entry>, t: Instant) {
    Paced(cfg, log, t) && Guarded(cfg, log, t) && Answered(cfg, log, t)
  }

  function After(t: Option<Instant>, clock: Instant): Instant {
    if t.Some? then Max(t.value, clock) else clock
  }

  /** A frame was popped, and the scheduler has not heard the end of it. */
  predicate Busy(p: Phase) { InHand(p) || p.Sent? }

  predicate SameGuards(cfg: PumpConfig, s: SchedState) {
    && s.cfg.replyWindow == cfg.sched.replyWindow && s.cfg.rxGuard == cfg.sched.rxGuard
    && s.cfg.minGap >= cfg.txPacing
  }

  /** The scheduler's three guards cover what is owed for `log`, the part of the air it knows of;
      when a frame is in hand nothing is owed any more. */
  predicate SpacingOk(cfg: PumpConfig, s: SchedState, phase: Phase, log: seq<Entry>, clock: Instant) {
    && SameGuards(cfg, s)
    && Paced(cfg, log, After(s.paceUntil, clock))
    && Guarded(cfg, log, After(if s.lastHeard.Some? then Some(s.lastHeard.value + cfg.sched.rxGuard) else None, clock))
    && Answered(cfg, log, After(s.replyUntil, clock))
    && (Busy(phase) ==> phase.at == clock && Clear(cfg, log, clock))
  }

  lemma HearAppends(cfg: PumpConfig, log: seq<Entry>, now: Instant, t: Instant, u: Instant, v: Instant)
    requires Paced(cfg, log, t) && Guarded(cfg, log, u) && now + cfg.sched.rxGuard >= u
    ensures Paced(cfg, log + [HeardAt(now)], t)
    ensures Guarded(cfg, log + [HeardAt(now)], now + cfg.sched.rxGuard)
    ensures Answered(cfg, log + [HeardAt(now)], v)
  {
    assert (log + [HeardAt(now)])[|log|].HeardAt?;
  }

  lemma KeyAppends(cfg: PumpConfig, log: seq<Entry>, k: Entry, pace: Instant, guard: Instant, reply: Instant)
    requires k.KeyDown? && Clear(cfg, log, k.start) && k.start <= pace && k.start <= reply && k.start <= guard
    requires k.end + cfg.txPacing <= pace && (k.item.expectsReply ==> k.end + cfg.sched.replyWindow <= reply)
    ensures Paced(cfg, log + [k], pace) && Guarded(cfg, log + [k], guard) && Answered(cfg, log + [k], reply)
  {
    var after := log + [k];
    forall i | 0 <= i < |log| && HeardSince(log, i) ensures HeardSince(after, i) {
      var j :| i <= j < |log| && log[j].HeardAt?;
      assert after[j].HeardAt?;
    }
  }

  lemma LaterClear(cfg: PumpConfig, s: SchedState, phase: Phase, log: seq<Entry>, clock: Instant, now: Instant)
    requires SpacingOk(cfg, s, phase, log, clock) && now >= clock && !Busy(phase)
    ensures SpacingOk(cfg, s, phase, log, now)
  {
  }

  /** Being ready means that no guard runs beyond now. */
  lemma ReadyIsClear(cfg: PumpConfig, s: SchedState, phase: Phase, log: seq<Entry>, clock: Instant, now: Instant)
    requires SpacingOk(cfg, s, phase, log, clock) && now >= clock && PollAt(s, now) == Ready
    ensures Clear(cfg, log, now)
  {
  }

  /** What of the air the scheduler has been told of: not yet a frame just written. */
  function Told(w: World): seq<Entry> {
    if w.phase.Sent? && w.log != [] then w.log[..|w.log| - 1] else w.log
  }

  predicate WorldSpaced(cfg: PumpConfig, w: World) {
    && SpacingOk(cfg, w.sched, w.phase, Told(w), w.clock)
    && (w.phase.Sent? ==> w.log == Told(w) + [KeyDown(w.phase.at, w.phase.at + w.phase.recorded, w.phase.item)])
  }

  lemma TakenKeeps(cfg: PumpConfig, s: SchedState, s': SchedState, phase: Phase, phase': Phase, log: seq<Entry>, now: Instant)
    requires SpacingOk(cfg, s, phase, log, now) && Clear(cfg, log, now) && SameGuards(cfg, s')
    requires s'.paceUntil == s.paceUntil && s'.replyUntil == s.replyUntil && s'.lastHeard == s.lastHeard
    requires phase'.Resting? || (phase'.Holding? && phase'.at == now)
    ensures SpacingOk(cfg, s', phase', log, now)
  {
  }

  lemma TakeKeeps(cfg: PumpConfig, w: World, now: Instant)
    requires WorldSpaced(cfg, w) && Shaped(w.sched) && w.phase.Looked? && now >= w.clock
    ensures WorldSpaced(cfg, Taken(w, now))
  {
    LaterClear(cfg, w.sched, w.phase, w.log, w.clock, now);
    if PollAt(w.sched, now) == Ready {
      ReadyIsClear(cfg, w.sched, w.phase, w.log, w.clock, now);
      TakenKeeps(cfg, w.sched, Taken(w, now).sched, w.phase, Taken(w, now).phase, w.log, now);
    }
  }

  lemma RequeueKeeps(cfg: PumpConfig, s: SchedState, phase: Phase, log: seq<Entry>, clock: Instant, item: Queued,
                     at: Instant, delay: nat, later: Instant)
    requires SpacingOk(cfg, s, phase, log, clock) && Shaped(s) && later >= clock
    ensures SpacingOk(cfg, Requeued(s, item, at, delay), Resting, log, later)
  {
  }

  lemma PhaseKeeps(cfg: PumpConfig, s: SchedState, phase: Phase, phase': Phase, log: seq<Entry>, clock: Instant)
    requires SpacingOk(cfg, s, phase, log, clock)
    requires Busy(phase') ==> Busy(phase) && phase'.at == phase.at
    ensures SpacingOk(cfg, s, phase', log, clock)
  {
  }

  lemma KeyKeeps(cfg: PumpConfig, s: SchedState, phase: Phase, log: seq<Entry>, recorded: nat, victim: string)
    requires Busy(phase) && SpacingOk(cfg, s, phase, log, phase.at)
    ensures var item, at := phase.item, phase.at;
            SpacingOk(cfg, Scheduling.Keyed(s, at, item.account, recorded, item.expectsReply, victim), Resting,
                      log + [KeyDown(at, at + recorded, item)], at)
  {
    var item, at := phase.item, phase.at;
    var s' := Scheduling.Keyed(s, at, item.account, recorded, item.expectsReply, victim);
    KeyAppends(cfg, log, KeyDown(at, at + recorded, item), After(s'.paceUntil, at),
               After(if s.lastHeard.Some? then Some(s.lastHeard.value + cfg.sched.rxGuard) else None, at),
               After(s'.replyUntil, at));
  }

  lemma AccountKeeps(cfg: PumpConfig, w: World, victim: string)
    requires WorldSpaced(cfg, w) && w.phase.Sent?
    ensures WorldSpaced(cfg, Accounted(w, victim))
  {
    KeyKeeps(cfg, w.sched, w.phase, Told(w), w.phase.recorded, victim);
  }

  lemma WriteKeeps(cfg: PumpConfig, w: World, cost: nat, written: bool, later: Instant)
    requires WorldSpaced(cfg, w) && Shaped(w.sched) && w.phase.Writing? && later >= w.clock
    ensures WorldSpaced(cfg, Written(w, cost, written, later))
  {
    if written {
      assert Told(Written(w, cost, written, later)) == w.log;
      PhaseKeeps(cfg, w.sched, w.phase, Written(w, cost, written, later).phase, w.log, w.clock);
    } else {
      RequeueKeeps(cfg, w.sched, w.phase, w.log, w.clock, w.phase.item, later, 0, later);
    }
  }

  lemma RereadKeeps(cfg: PumpConfig, w: World)
    requires WorldSpaced(cfg, w) && Shaped(w.sched) && w.phase.Admitted?
    ensures WorldSpaced(cfg, Rechecked(w))
  {
    if w.interlockOk {
      PhaseKeeps(cfg, w.sched, w.phase, Rechecked(w).phase, w.log, w.clock);
    } else {
      RequeueKeeps(cfg, w.sched, w.phase, w.log, w.clock, w.phase.item, w.phase.at, HELD_DELAY, w.clock);
    }
  }

  lemma DecideKeeps(cfg: PumpConfig, w: World, allowance: nat, cost: nat)
    requires WorldSpaced(cfg, w) && Shaped(w.sched) && w.phase.Cleared?
    ensures WorldSpaced(cfg, Decided(w, allowance, cost))
  {
    var d := Decision(w.gov, allowance, cost, w.phase.at);
    if d.Defer? {
      RequeueKeeps(cfg, w.sched, w.phase, w.log, w.clock, w.phase.item, w.phase.at, d.delay, w.clock);
    }
  }

  lemma HearKeeps(cfg: PumpConfig, w: World, now: Instant)
    requires WorldSpaced(cfg, w) && w.phase.Resting? && now >= w.clock
    requires w.sched.lastHeard.Some? ==> w.sched.lastHeard.value <= w.clock
    ensures WorldSpaced(cfg, HeardNow(w, now))
  {
    LaterClear(cfg, w.sched, w.phase, w.log, w.clock, now);
    HearAppends(cfg, w.log, now, After(w.sched.paceUntil, now),
                After(if w.sched.lastHeard.Some? then Some(w.sched.lastHeard.value + cfg.sched.rxGuard) else None, now), now);
  }

  predicate HeardPast(w: World) {
    w.sched.lastHeard.Some? ==> w.sched.lastHeard.value <= w.clock
  }

  lemma SameGuardsKeep(cfg: PumpConfig, s: SchedState, s': SchedState, phase: Phase, log: seq<Entry>, clock: Instant)
    requires SpacingOk(cfg, s, phase, log, clock) && SameGuards(cfg, s')
    requires s'.paceUntil == s.paceUntil && s'.replyUntil == s.replyUntil && s'.lastHeard == s.lastHeard
    ensures SpacingOk(cfg, s', phase, log, clock)
  {
  }

  /** Other threads, and the top of the loop: the guards are left alone, or only lengthened. */
  predicate Passive(ev: Event) {
    ev.Enqueue? || ev.SetInhibit? || ev.SetInterlock? || ev.SetDuty? || ev.SetPacing? || ev.ApplyDuty? || ev.ApplyPacing?
  }

  lemma PassiveKeeps(cfg: PumpConfig, w: World, ev: Event)
    requires WorldSpaced(cfg, w) && Shaped(w.sched) && Pump.Enabled(w, ev) && Passive(ev)
    ensures WorldSpaced(cfg, Pump.Next(cfg, w, ev))
  {
    SameGuardsKeep(cfg, w.sched, Pump.Next(cfg, w, ev).sched, w.phase, Told(w), w.clock);
  }

  predicate Clearing(ev: Event) { ev.ReadInhibit? || ev.Purge? || ev.ExpireAt? || ev.Look? || ev.Stop? }

  lemma ClearingKeeps(cfg: PumpConfig, w: World, ev: Event)
    requires WorldSpaced(cfg, w) && Shaped(w.sched) && Pump.Enabled(w, ev) && Clearing(ev)
    ensures WorldSpaced(cfg, Pump.Next(cfg, w, ev))
  {
    var w' := Pump.Next(cfg, w, ev);
    LaterClear(cfg, w.sched, w.phase, w.log, w.clock, w'.clock);
    SameGuardsKeep(cfg, w.sched, w'.sched, w.phase, w.log, w'.clock);
    PhaseKeeps(cfg, w'.sched, w.phase, w'.phase, w.log, w'.clock);
  }

  predicate Keys(ev: Event) { ev.Decide? || ev.Reread? || ev.Write? || ev.Account? }

  lemma KeysKeep(cfg: PumpConfig, w: World, ev: Event)
    requires WorldSpaced(cfg, w) && Shaped(w.sched) && Pump.Enabled(w, ev) && Keys(ev)
    ensures WorldSpaced(cfg, Pump.Next(cfg, w, ev))
  {
    match ev
    case Decide => DecideKeeps(cfg, w, w.gov.cfg.Allowance(), w.gov.cfg.AirtimeFor(w.phase.item.payload.octets));
    case Reread => RereadKeeps(cfg, w);
    case Write(written, later) => WriteKeeps(cfg, w, w.gov.cfg.AirtimeFor(w.phase.item.payload.octets), written, later);
    case Account(victim) => AccountKeeps(cfg, w, victim);
  }

  lemma VetoKeeps(cfg: PumpConfig, w: World)
    requires WorldSpaced(cfg, w) && w.phase.Holding?
    ensures WorldSpaced(cfg, Vetoed(cfg.maxFrame, w))
  {
    PhaseKeeps(cfg, w.sched, w.phase, Vetoed(cfg.maxFrame, w).phase, w.log, w.clock);
  }

  lemma NextKeeps(cfg: PumpConfig, w: World, ev: Event)
    requires WorldSpaced(cfg, w) && HeardPast(w) && Shaped(w.sched) && Pump.Enabled(w, ev)
    ensures WorldSpaced(cfg, Pump.Next(cfg, w, ev))
  {
    if Passive(ev) {
      PassiveKeeps(cfg, w, ev);
    } else if Clearing(ev) {
      ClearingKeeps(cfg, w, ev);
    } else if Keys(ev) {
      KeysKeep(cfg, w, ev);
    } else {
      match ev
      case Hear(now) => HearKeeps(cfg, w, now);
      case Take(now) => TakeKeeps(cfg, w, now);
      case Veto => VetoKeeps(cfg, w);
    }
  }

  lemma NextKeepsHeard(cfg: PumpConfig, w: World, ev: Event)
    requires HeardPast(w) && Shaped(w.sched) && Pump.Enabled(w, ev)
    ensures HeardPast(Pump.Next(cfg, w, ev))
  {
  }

  lemma {:induction false} RunKeeps(cfg: PumpConfig, worlds: seq<World>, evs: seq<Event>, n: nat)
    requires IsRun(cfg, worlds, evs) && n < |worlds|
    ensures WorldSpaced(cfg, worlds[n]) && HeardPast(worlds[n])
  {
    if n > 0 {
      RunKeeps(cfg, worlds, evs, n - 1);
      NextKeeps(cfg, worlds[n - 1], evs[n - 1]);
      NextKeepsHeard(cfg, worlds[n - 1], evs[n - 1]);
    }
  }

  // ---- The switches, as they were read and as they are ----

  /** The same frame in hand, past the inhibit both times. */
  predicate SameFrame(p: Phase, p': Phase) {
    && InHand(p) && !p.Holding? && InHand(p') && !p'.Holding?
    && p.item == p'.item && p.at == p'.at
  }

  /** The frame in hand at `n` has been in hand, and past the inhibit, since just after `v`. */
  ghost predicate KeptSince(worlds: seq<World>, v: nat, n: nat) {
    n < |worlds| && forall j :: v < j <= n ==> SameFrame(worlds[j].phase, worlds[n].phase)
  }

  /** ... and past the second look at the interlock since just after `q`. */
  ghost predicate WritingSince(worlds: seq<World>, q: nat, n: nat) {
    n < |worlds| && forall j :: q < j <= n ==> worlds[j].phase.Writing? && worlds[j].phase == worlds[n].phase
  }

  lemma VetoStep(cfg: PumpConfig, w: World, ev: Event)
    requires Shaped(w.sched) && Pump.Enabled(w, ev)
    requires var p := Pump.Next(cfg, w, ev).phase; InHand(p) && !p.Holding?
    ensures var p := Pump.Next(cfg, w, ev).phase;
            || SameFrame(w.phase, p)
            || (ev.Veto? && w.phase.Holding? && (p.item.class_ != Id ==> !w.inhibit))
  {
  }

  lemma RereadStep(cfg: PumpConfig, w: World, ev: Event)
    requires Shaped(w.sched) && Pump.Enabled(w, ev)
    requires Pump.Next(cfg, w, ev).phase.Writing?
    ensures w.phase == Pump.Next(cfg, w, ev).phase || (ev.Reread? && w.interlockOk)
  {
  }

  /** Where the frame in hand was let past the inhibit. */
  lemma {:induction false} FindVeto(cfg: PumpConfig, worlds: seq<World>, evs: seq<Event>, n: nat) returns (v: nat)
    requires IsRun(cfg, worlds, evs) && n < |worlds| && InHand(worlds[n].phase) && !worlds[n].phase.Holding?
    ensures v < n && evs[v].Veto? && worlds[v].phase.Holding? && KeptSince(worlds, v, n)
    ensures worlds[n].phase.item.class_ != Id ==> !worlds[v].inhibit
  {
    assert n > 0;
    VetoStep(cfg, worlds[n - 1], evs[n - 1]);
    if SameFrame(worlds[n - 1].phase, worlds[n].phase) {
      v := FindVeto(cfg, worlds, evs, n - 1);
    } else {
      v := n - 1;
    }
  }

  /** Where the interlock was last read, and held. */
  lemma {:induction false} FindReread(cfg: PumpConfig, worlds: seq<World>, evs: seq<Event>, n: nat) returns (q: nat)
    requires IsRun(cfg, worlds, evs) && n < |worlds| && worlds[n].phase.Writing?
    ensures q < n && evs[q].Reread? && worlds[q].interlockOk && WritingSince(worlds, q, n)
  {
    assert n > 0;
    RereadStep(cfg, worlds[n - 1], evs[n - 1]);
    if worlds[n - 1].phase == worlds[n].phase {
      q := FindReread(cfg, worlds, evs, n - 1);
    } else {
      q := n - 1;
    }
  }

  ghost predicate Inhibits(evs: seq<Event>, v: nat, n: nat) {
    exists m :: v <= m < n <= |evs| && evs[m] == SetInhibit(true)
  }

  ghost predicate Unlocks(evs: seq<Event>, q: nat, n: nat) {
    exists m :: q <= m < n <= |evs| && evs[m] == SetInterlock(false)
  }

  lemma InhibitStep(cfg: PumpConfig, w: World, ev: Event)
    requires Shaped(w.sched) && Pump.Enabled(w, ev) && Pump.Next(cfg, w, ev).inhibit
    ensures w.inhibit || ev == SetInhibit(true)
  {
  }

  lemma InterlockStep(cfg: PumpConfig, w: World, ev: Event)
    requires Shaped(w.sched) && Pump.Enabled(w, ev) && !Pump.Next(cfg, w, ev).interlockOk
    ensures !w.interlockOk || ev == SetInterlock(false)
  {
  }

  lemma {:induction false} InhibitTurned(cfg: PumpConfig, worlds: seq<World>, evs: seq<Event>, v: nat, n: nat)
    requires IsRun(cfg, worlds, evs) && v <= n < |worlds| && !worlds[v].inhibit && worlds[n].inhibit
    ensures Inhibits(evs, v, n)
  {
    InhibitStep(cfg, worlds[n - 1], evs[n - 1]);
    if evs[n - 1] != SetInhibit(true) {
      InhibitTurned(cfg, worlds, evs, v, n - 1);
      var m :| v <= m < n - 1 && evs[m] == SetInhibit(true);
      assert Inhibits(evs, v, n);
    }
  }

  lemma {:induction false} InterlockTurned(cfg: PumpConfig, worlds: seq<World>, evs: seq<Event>, q: nat, n: nat)
    requires IsRun(cfg, worlds, evs) && q <= n < |worlds| && worlds[q].interlockOk && !worlds[n].interlockOk
    ensures Unlocks(evs, q, n)
  {
    InterlockStep(cfg, worlds[n - 1], evs[n - 1]);
    if evs[n - 1] != SetInterlock(false) {
      InterlockTurned(cfg, worlds, evs, q, n - 1);
      var m :| q <= m < n - 1 && evs[m] == SetInterlock(false);
      assert Unlocks(evs, q, n);
    }
  }

  /** Only hearing and writing put anything on the air. */
  lemma KeyStep(cfg: PumpConfig, w: World, ev: Event)
    requires Shaped(w.sched) && Pump.Enabled(w, ev) && !ev.Hear? && Pump.Next(cfg, w, ev).log != w.log
    ensures w.phase.Writing? && ev.Write?
    ensures exists end :: Pump.Next(cfg, w, ev).log == w.log + [KeyDown(w.phase.at, end, w.phase.item)]
  {
  }

  /** When a frame is keyed at step `n` of any run: every earlier key-down ended at least
      `tx_pacing` before; everything heard is at least `rx_guard` ago; after every frame that
      expects a reply, its reply window has passed or something was heard since.
      The frame was let past the inhibit at `v`, the interlock last read at `q`, and it stayed in
      hand in between: unless it is an identification the inhibit was off at `v`, and if it is on
      by now it was switched on since; the interlock held at `q`, and if it has failed by now it
      failed since. */
  lemma KeyingIsSafe(cfg: PumpConfig, worlds: seq<World>, evs: seq<Event>, n: nat) returns (v: nat, q: nat)
    requires IsRun(cfg, worlds, evs) && n < |evs|
    requires worlds[n + 1].log != worlds[n].log && !evs[n].Hear?
    ensures worlds[n].phase.Writing?
    ensures var item, at := worlds[n].phase.item, worlds[n].phase.at;
            && |worlds[n + 1].log| == |worlds[n].log| + 1
            && worlds[n + 1].log[|worlds[n].log|].KeyDown?
            && worlds[n + 1].log[|worlds[n].log|].item == item
            && worlds[n + 1].log[|worlds[n].log|].start == at
            && Clear(cfg, worlds[n].log, at)
    ensures v < q < n && KeptSince(worlds, v, n)
    ensures evs[v].Veto? && (worlds[n].phase.item.class_ != Id ==>
              !worlds[v].inhibit && (worlds[n].inhibit ==> Inhibits(evs, v, n)))
    ensures evs[q].Reread? && worlds[q].interlockOk && (!worlds[n].interlockOk ==> Unlocks(evs, q, n))
  {
    RunKeeps(cfg, worlds, evs, n);
    KeyStep(cfg, worlds[n], evs[n]);
    v := FindVeto(cfg, worlds, evs, n);
    q := FindReread(cfg, worlds, evs, n);
    if worlds[n].phase.item.class_ != Id && worlds[n].inhibit {
      InhibitTurned(cfg, worlds, evs, v, n);
    }
    if !worlds[n].interlockOk {
      InterlockTurned(cfg, worlds, evs, q, n);
    }
  }
}
