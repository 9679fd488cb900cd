/** How far the switches reach. Each is read in one step and acted on in a later one, and what
    happens in between is not seen: so a frame can be discarded for an inhibit that is off, or
    keyed while the interlock has failed or the station is inhibited. Exactly from which states. */
module PumpRaces {
  import opened Common
  import opened Airtime
  import opened Scheduling
  import opened Pump
  import opened PumpConservation
  import SchedulerRuns

  // ---- Runs, and what can follow a state ----

  type Run = Trace<World, Event>

  ghost predicate Ok(cfg: PumpConfig, r: Run) { IsRun(cfg, r.states, r.events) }

  /** Some run of the pump gets to `w`. */
  ghost predicate Reached(cfg: PumpConfig, w: World) {
    exists r: Run :: Ok(cfg, r) && r.Last() == w
  }

  /** `r` may follow `w`, whatever led to it. */
  ghost predicate Follows(cfg: PumpConfig, w: World, r: Run) {
    && r.Whole() && r.states[0] == w
    && (forall i :: 0 <= i < |r.states| ==> Shaped(r.states[i].sched))
    && forall i :: 0 <= i < |r.events| ==>
         Pump.Enabled(r.states[i], r.events[i]) && r.states[i + 1] == Next(cfg, r.states[i], r.events[i])
  }

  /** None of the events is `ev`. */
  predicate Never(r: Run, ev: Event) {
    forall i :: 0 <= i < |r.events| ==> r.events[i] != ev
  }

  lemma Extend(cfg: PumpConfig, r: Run, ev: Event, w: World) returns (r': Run)
    requires Ok(cfg, r) && Pump.Enabled(r.Last(), ev) && w == Next(cfg, r.Last(), ev) && Shaped(w.sched)
    ensures Ok(cfg, r') && r' == r.Then(ev, w) && r'.Last() == w
  {
    r' := r.Then(ev, w);
    r.ThenKeeps(ev, w);
  }

  lemma Follow(cfg: PumpConfig, w0: World, r: Run, ev: Event, w: World) returns (r': Run)
    requires Follows(cfg, w0, r) && Pump.Enabled(r.Last(), ev) && w == Next(cfg, r.Last(), ev) && Shaped(w.sched)
    ensures Follows(cfg, w0, r') && r' == r.Then(ev, w) && r'.Last() == w
  {
    r' := r.Then(ev, w);
    r.ThenKeeps(ev, w);
  }

  lemma Begin(cfg: PumpConfig) returns (r: Run)
    requires |cfg.sched.depth| == CLASSES
    ensures Ok(cfg, r) && r.events == [] && r.Last() == Start(cfg, 0)
  {
    r := Trace([Start(cfg, 0)], []);
  }

  /** What follows a reached state is reached. */
  lemma {:induction false} FollowsReached(cfg: PumpConfig, w: World, r: Run, k: nat)
    requires Reached(cfg, w) && Follows(cfg, w, r) && k < |r.states|
    ensures Reached(cfg, r.states[k])
  {
    if k > 0 {
      FollowsReached(cfg, w, r, k - 1);
      var before: Run :| Ok(cfg, before) && before.Last() == r.states[k - 1];
      var after := Extend(cfg, before, r.events[k - 1], r.states[k]);
    }
  }

  // ---- Discarded for an inhibit that is off ----

  /** A frame offered now may be discarded for the inhibit, although nobody switches it on. */
  ghost predicate MayBeDiscarded(cfg: PumpConfig, w: World, offer: Event)
    requires offer.Enqueue?
  {
    exists r: Run ::
      && Follows(cfg, w, r) && |r.events| > 0 && r.events[0] == offer && Never(r, SetInhibit(true))
      && Drop(ItemOf(w, offer), Inhibited) in r.Last().dropped
  }

  /** With the inhibit off, only a purge decided on before discards for it. */
  lemma OffStep(cfg: PumpConfig, w: World, ev: Event)
    requires Shaped(w.sched) && Pump.Enabled(w, ev) && ev != SetInhibit(true) && !w.inhibit && !w.phase.Purging?
    ensures var w' := Next(cfg, w, ev);
            && !w'.inhibit && !w'.phase.Purging?
            && forall d :: d in w'.dropped && d.reason == Inhibited ==> d in w.dropped
  {
  }

  lemma {:induction false} OffStays(cfg: PumpConfig, w: World, r: Run, k: nat)
    requires Follows(cfg, w, r) && Never(r, SetInhibit(true)) && k < |r.states| && !w.inhibit && !w.phase.Purging?
    ensures !r.states[k].inhibit && !r.states[k].phase.Purging?
    ensures forall d :: d in r.states[k].dropped && d.reason == Inhibited ==> d in w.dropped
  {
    if k > 0 {
      OffStays(cfg, w, r, k - 1);
      OffStep(cfg, r.states[k - 1], r.events[k - 1]);
    }
  }

  /** Whatever is discarded for the inhibit, from a state in which it is off until it is switched
      on again, was discarded before, or the state is one in which a purge is about to happen. */
  lemma DiscardMeansPurging(cfg: PumpConfig, w: World, r: Run, d: Drop)
    requires Follows(cfg, w, r) && Never(r, SetInhibit(true)) && !w.inhibit
    requires d in r.Last().dropped && d.reason == Inhibited
    ensures d in w.dropped || w.phase.Purging?
  {
    if !w.phase.Purging? {
      OffStays(cfg, w, r, |r.events|);
    }
  }

  /** What was discarded was accepted. */
  lemma {:induction false} DroppedCounts(dropped: seq<Drop>, n: nat, i: nat)
    requires i < n <= |dropped|
    ensures DroppedTimes(dropped, n, dropped[i].item) > 0
  {
    if i < n - 1 {
      DroppedCounts(dropped, n - 1, i);
    }
  }

  lemma DroppedWasAccepted(cfg: PumpConfig, w: World, d: Drop)
    requires Reached(cfg, w) && d in w.dropped
    ensures Shaped(w.sched) && d.item in w.accepted && d.item.payload.tag < w.next
    ensures d.item.class_ == Id ==> d.reason == Oversized || d.reason == Shutdown
  {
    var r: Run :| Ok(cfg, r) && r.Last() == w;
    var n := |r.events|;
    var i :| 0 <= i < |w.dropped| && w.dropped[i] == d;
    RunAccounts(cfg, r.states, r.events, n, d.item);
    RunNumbered(cfg, r.states, r.events, n);
    DroppedCounts(w.dropped, |w.dropped|, i);
    IdsAndDepths(cfg, r.states, r.events, n, i, Id);
  }

  lemma NeverAcceptedStep(cfg: PumpConfig, w: World, ev: Event, x: Queued)
    requires Shaped(w.sched) && Pump.Enabled(w, ev) && x !in w.accepted && x.payload.tag < w.next
    ensures x !in Next(cfg, w, ev).accepted && x.payload.tag < Next(cfg, w, ev).next
  {
  }

  /** A frame that was refused is never accepted later. */
  lemma {:induction false} NeverAccepted(cfg: PumpConfig, w: World, r: Run, offer: Event, k: nat)
    requires Reached(cfg, w) && Follows(cfg, w, r) && offer.Enqueue? && |r.events| > 0 && r.events[0] == offer
    requires Refuses(w.sched, ItemOf(w, offer)) && 0 < k < |r.states|
    ensures ItemOf(w, offer) !in r.states[k].accepted && ItemOf(w, offer).payload.tag < r.states[k].next
  {
    if k == 1 {
      var before: Run :| Ok(cfg, before) && before.Last() == w;
      RunNumbered(cfg, before.states, before.events, |before.events|);
    } else {
      NeverAccepted(cfg, w, r, offer, k - 1);
      NeverAcceptedStep(cfg, r.states[k - 1], r.events[k - 1], ItemOf(w, offer));
    }
  }

  lemma DiscardNeeds(cfg: PumpConfig, w: World, offer: Event)
    requires Reached(cfg, w) && !w.inhibit && offer.Enqueue? && MayBeDiscarded(cfg, w, offer)
    ensures w.phase.Purging? && offer.class_ != Id && Shaped(w.sched) && !Refuses(w.sched, ItemOf(w, offer))
  {
    var r: Run :| Follows(cfg, w, r) && |r.events| > 0 && r.events[0] == offer && Never(r, SetInhibit(true))
                  && Drop(ItemOf(w, offer), Inhibited) in r.Last().dropped;
    var d, n := Drop(ItemOf(w, offer), Inhibited), |r.events|;
    FollowsReached(cfg, w, r, n);
    DroppedWasAccepted(cfg, r.Last(), d);
    DiscardMeansPurging(cfg, w, r, d);
    if d in w.dropped {
      DroppedWasAccepted(cfg, w, d);
    }
    if Refuses(w.sched, ItemOf(w, offer)) {
      NeverAccepted(cfg, w, r, offer, n);
    }
  }

  /** What is queued outside the identification class is among what a purge discards. */
  lemma {:induction false} PurgesQueued(s: SchedState, c: Class, item: Queued, n: nat)
    requires Shaped(s) && c != Id && item in s.queues[Index(c)] && n <= |ALL| && Index(c) >= CLASSES - n
    ensures item in DrainedItems(s, Id, n)
  {
    assert Index(ALL[n - 1]) == CLASSES - n;
    if Index(c) == CLASSES - n {
      SchedulerRuns.DrainedAt(s, Id, n - 1, c);
      assert ALL[n - 1] == c;
    } else {
      PurgesQueued(s, c, item, n - 1);
    }
  }

  lemma DropsEach(items: seq<Queued>, item: Queued, reason: Reason)
    requires item in items
    ensures Drop(item, reason) in Drops(items, reason)
  {
    var i :| 0 <= i < |items| && items[i] == item;
    assert Drops(items, reason)[i] == Drop(item, reason);
  }

  lemma PurgeDiscards(cfg: PumpConfig, w: World, offer: Event)
    requires Shaped(w.sched) && offer.Enqueue? && w.phase.Purging? && offer.class_ != Id && !Refuses(w.sched, ItemOf(w, offer))
    ensures MayBeDiscarded(cfg, w, offer)
  {
    var item := ItemOf(w, offer);
    var r := Follow(cfg, w, Trace([w], []), offer, Offered(w, item));
    var w1, q := r.Last(), w.sched.queues[Index(offer.class_)];
    assert w1.sched.queues[Index(offer.class_)] == q + [item];
    assert (q + [item])[|q|] == item;
    PurgesQueued(w1.sched, offer.class_, item, |ALL|);
    DropsEach(DrainedItems(w1.sched, Id, |ALL|), item, Inhibited);
    r := Follow(cfg, w, r, Purge, Purged(w1));
    assert r.events == [offer, Purge];
  }

  /** With the inhibit off, a frame offered now may be discarded for it, although nobody switches
      it on again, exactly if the pump has read the switch and not purged yet, and the frame is
      accepted and is not an identification. */
  lemma DiscardedExactly(cfg: PumpConfig, w: World, offer: Event)
    requires Reached(cfg, w) && !w.inhibit && offer.Enqueue?
    ensures Shaped(w.sched)
    ensures MayBeDiscarded(cfg, w, offer) <==> w.phase.Purging? && offer.class_ != Id && !Refuses(w.sched, ItemOf(w, offer))
  {
    var before: Run :| Ok(cfg, before) && before.Last() == w;
    if MayBeDiscarded(cfg, w, offer) {
      DiscardNeeds(cfg, w, offer);
    }
    if w.phase.Purging? && offer.class_ != Id && !Refuses(w.sched, ItemOf(w, offer)) {
      PurgeDiscards(cfg, w, offer);
    }
  }

  /** The pump does get there: the inhibit is read, and switched off again before the purge. */
  lemma PurgingIsReached(cfg: PumpConfig) returns (w: World)
    requires |cfg.sched.depth| == CLASSES
    ensures Reached(cfg, w) && w.phase.Purging? && !w.inhibit && IsEmpty(w.sched)
  {
    var r := Begin(cfg);
    r := Extend(cfg, r, SetInhibit(true), r.Last().(inhibit := true));
    r := Extend(cfg, r, ReadInhibit, r.Last().(phase := Purging));
    r := Extend(cfg, r, SetInhibit(false), r.Last().(inhibit := false));
    w := r.Last();
  }

  // ---- Keyed while a switch says no ----

  /** Something was keyed between `w` and `w'`; an identification does not count if `exceptId`. */
  predicate Keys(w: World, w': World, exceptId: bool) {
    exists i :: |w.log| <= i < |w'.log| && w'.log[i].KeyDown? && (exceptId ==> w'.log[i].item.class_ != Id)
  }

  /** Keyed although the interlock has failed and does not recover. */
  ghost predicate MayKeyUnsafe(cfg: PumpConfig, w: World) {
    exists r: Run :: Follows(cfg, w, r) && Never(r, SetInterlock(true)) && Keys(w, r.Last(), false)
  }

  /** Past the last look at the interlock. */
  lemma FailedStep(cfg: PumpConfig, w: World, ev: Event)
    requires Shaped(w.sched) && Pump.Enabled(w, ev) && ev != SetInterlock(true) && !w.interlockOk && !w.phase.Writing?
    ensures var w' := Next(cfg, w, ev);
            && !w'.interlockOk && !w'.phase.Writing? && |w.log| <= |w'.log|
            && forall i :: 0 <= i < |w'.log| ==> if i < |w.log| then w'.log[i] == w.log[i] else w'.log[i].HeardAt?
  {
  }

  lemma {:induction false} FailedStays(cfg: PumpConfig, w: World, r: Run, k: nat)
    requires Follows(cfg, w, r) && Never(r, SetInterlock(true)) && k < |r.states| && !w.interlockOk && !w.phase.Writing?
    ensures !r.states[k].interlockOk && !r.states[k].phase.Writing? && |w.log| <= |r.states[k].log|
    ensures forall i :: |w.log| <= i < |r.states[k].log| ==> r.states[k].log[i].HeardAt?
  {
    if k > 0 {
      FailedStays(cfg, w, r, k - 1);
      FailedStep(cfg, r.states[k - 1], r.events[k - 1]);
    }
  }

  /** With the interlock failed, a frame may be keyed before it recovers, exactly if the pump is
      past its last look at it. */
  lemma KeyedUnsafeExactly(cfg: PumpConfig, w: World)
    requires Reached(cfg, w) && !w.interlockOk
    ensures MayKeyUnsafe(cfg, w) <==> w.phase.Writing?
  {
    var before: Run :| Ok(cfg, before) && before.Last() == w;
    if w.phase.Writing? {
      var w' := Written(w, w.gov.cfg.AirtimeFor(w.phase.item.payload.octets), true, w.clock);
      var r := Follow(cfg, w, Trace([w], []), Write(true, w.clock), w');
      assert w'.log[|w.log|].KeyDown?;
    } else if MayKeyUnsafe(cfg, w) {
      var r: Run :| Follows(cfg, w, r) && Never(r, SetInterlock(true)) && Keys(w, r.Last(), false);
      FailedStays(cfg, w, r, |r.events|);
    }
  }

  /** Something else than an identification is keyed although the inhibit is on and stays on. */
  ghost predicate MayKeyInhibited(cfg: PumpConfig, w: World) {
    exists r: Run :: Follows(cfg, w, r) && Never(r, SetInhibit(false)) && Keys(w, r.Last(), true)
  }

  /** The frame in hand is past the inhibit, and the governor has let it through or will. */
  predicate PastInhibit(w: World) {
    var p := w.phase;
    && (p.Cleared? || p.Admitted? || p.Writing?) && p.item.class_ != Id
    && (p.Cleared? ==> Decision(w.gov, w.gov.cfg.Allowance(), w.gov.cfg.AirtimeFor(p.item.payload.octets), p.at).Send?)
  }

  lemma OnStep(cfg: PumpConfig, w: World, ev: Event)
    requires Shaped(w.sched) && Pump.Enabled(w, ev) && ev != SetInhibit(false) && w.inhibit && !PastInhibit(w)
    ensures var w' := Next(cfg, w, ev);
            && w'.inhibit && !PastInhibit(w') && |w.log| <= |w'.log|
            && forall i :: 0 <= i < |w'.log| ==>
                 if i < |w.log| then w'.log[i] == w.log[i] else w'.log[i].KeyDown? ==> w'.log[i].item.class_ == Id
  {
  }

  lemma {:induction false} OnStays(cfg: PumpConfig, w: World, r: Run, k: nat)
    requires Follows(cfg, w, r) && Never(r, SetInhibit(false)) && k < |r.states| && w.inhibit && !PastInhibit(w)
    ensures r.states[k].inhibit && !PastInhibit(r.states[k]) && |w.log| <= |r.states[k].log|
    ensures forall i :: |w.log| <= i < |r.states[k].log| && r.states[k].log[i].KeyDown? ==> r.states[k].log[i].item.class_ == Id
  {
    if k > 0 {
      OnStays(cfg, w, r, k - 1);
      OnStep(cfg, r.states[k - 1], r.events[k - 1]);
    }
  }

  lemma GoesOut(cfg: PumpConfig, w: World)
    requires Shaped(w.sched) && PastInhibit(w)
    ensures MayKeyInhibited(cfg, w)
  {
    var r := Trace([w], []);
    if w.phase.Cleared? {
      r := Follow(cfg, w, r, Decide, Decided(w, w.gov.cfg.Allowance(), w.gov.cfg.AirtimeFor(w.phase.item.payload.octets)));
    }
    r := ToWriting(cfg, w, r);
    var w1 := r.Last();
    r := Follow(cfg, w, r, Write(true, w.clock), Written(w1, w1.gov.cfg.AirtimeFor(w1.phase.item.payload.octets), true, w.clock));
    assert r.Last().log[|w.log|].KeyDown?;
  }

  /** Past the governor, a good look at the interlock is all it takes. */
  lemma ToWriting(cfg: PumpConfig, w: World, r: Run) returns (r': Run)
    requires Follows(cfg, w, r) && Never(r, SetInhibit(false))
    requires var p := r.Last().phase; p.Admitted? || p.Writing?
    ensures Follows(cfg, w, r') && Never(r', SetInhibit(false))
    ensures r'.Last().phase.Writing? && r'.Last().phase.item == r.Last().phase.item
    ensures r'.Last().log == r.Last().log && r'.Last().clock == r.Last().clock
  {
    r' := r;
    if r.Last().phase.Admitted? {
      r' := Follow(cfg, w, r', SetInterlock(true), r'.Last().(interlockOk := true));
      r' := Follow(cfg, w, r', Reread, Rechecked(r'.Last()));
    }
  }

  /** With the inhibit on, something else than an identification may be keyed before it is off
      again, exactly if the pump holds such a frame, let past the inhibit before, and the governor
      has let it through or will. */
  lemma KeyedInhibitedExactly(cfg: PumpConfig, w: World)
    requires Reached(cfg, w) && w.inhibit
    ensures MayKeyInhibited(cfg, w) <==> PastInhibit(w)
  {
    var before: Run :| Ok(cfg, before) && before.Last() == w;
    if PastInhibit(w) {
      GoesOut(cfg, w);
    } else if MayKeyInhibited(cfg, w) {
      var r: Run :| Follows(cfg, w, r) && Never(r, SetInhibit(false)) && Keys(w, r.Last(), true);
      OnStays(cfg, w, r, |r.events|);
    }
  }

  // ---- The pump does get there ----

  /** A first frame that the governor and the size check let through. */
  predicate Passes(cfg: PumpConfig, c: Class, octets: nat) {
    var cost := cfg.airtime.AirtimeFor(octets);
    && |cfg.sched.depth| == CLASSES && cfg.sched.depth[Index(c)] > 0 && octets <= cfg.maxFrame
    && (cfg.airtime.enabled ==>
          cost <= cfg.airtime.Allowance() && (cfg.airtime.hourlyBudget > 0 ==> cost <= cfg.airtime.hourlyBudget))
  }

  lemma Queue(cfg: PumpConfig, c: Class, octets: nat) returns (r: Run, item: Queued)
    requires Passes(cfg, c, octets)
    ensures Ok(cfg, r) && |r.events| == 2 && item.payload.octets == octets && item.class_ == c
    ensures var w := r.Last();
            && w.phase.Looked? && w.interlockOk && !w.inhibit && w.clock == 0 && w.log == [] && w.gov == NewGovernor(cfg.airtime)
            && SchedulerRuns.Only(w.sched, c, [item]) && BlockedUntil(w.sched).None?
  {
    r := Begin(cfg);
    var ev := Enqueue(c, "", octets, false, 0);
    item := ItemOf(r.Last(), ev);
    r := Extend(cfg, r, ev, Offered(r.Last(), item));
    assert r.Last().sched.queues[Index(c)] == [item];
    r := Extend(cfg, r, Look, r.Last().(phase := Looked));
  }

  lemma Clear(cfg: PumpConfig, c: Class, octets: nat) returns (r: Run, item: Queued)
    requires Passes(cfg, c, octets)
    ensures Ok(cfg, r) && |r.events| == 4 && item.payload.octets == octets && item.class_ == c
    ensures var w := r.Last();
            w.phase == Cleared(item, 0) && w.interlockOk && w.clock == 0 && w.log == [] && Shaped(w.sched) && w.gov == NewGovernor(cfg.airtime)
  {
    r, item := Queue(cfg, c, octets);
    SchedulerRuns.PopsOnly(r.Last().sched, c, [item], 0);
    assert r.Last().sched.queues[Index(c)] == [item];
    r := Extend(cfg, r, Take(0), Taken(r.Last(), 0));
    r := Extend(cfg, r, Veto, Vetoed(cfg.maxFrame, r.Last()));
  }

  lemma Admit(cfg: PumpConfig, c: Class, octets: nat) returns (r: Run, item: Queued)
    requires Passes(cfg, c, octets)
    ensures Ok(cfg, r) && |r.events| == 5 && item.payload.octets == octets && item.class_ == c
    ensures var w := r.Last();
            w.phase == Admitted(item, 0, cfg.airtime.Allowance()) && w.interlockOk && w.clock == 0 && w.log == [] && Shaped(w.sched)
  {
    r, item := Clear(cfg, c, octets);
    var w := r.Last();
    var cost := cfg.airtime.AirtimeFor(octets);
    assert Decision(w.gov, cfg.airtime.Allowance(), cost, 0) == Send;
    r := Extend(cfg, r, Decide, Decided(w, cfg.airtime.Allowance(), cost));
  }

  /** The interlock fails, and the inhibit is switched on, after the last look at either. */
  lemma WritingIsReached(cfg: PumpConfig, c: Class, octets: nat) returns (w: World)
    requires Passes(cfg, c, octets)
    ensures Reached(cfg, w) && w.phase.Writing? && w.phase.item.class_ == c && !w.interlockOk && w.inhibit
  {
    var r, item := Admit(cfg, c, octets);
    r := Extend(cfg, r, Reread, Rechecked(r.Last()));
    r := Extend(cfg, r, SetInterlock(false), r.Last().(interlockOk := false));
    r := Extend(cfg, r, SetInhibit(true), r.Last().(inhibit := true));
    w := r.Last();
  }
}
