/** Why a frame is given up, and what happens to one that is not: over every run of the pump each
    drop has its cause, and each other refusal puts the frame back where it was. */
module PumpDrops {
  import opened Common
  import opened Airtime
  import opened AirtimeExact
  import opened Scheduling
  import opened Pump
  import opened PumpConservation
  import opened SchedulerExact

  // ---- What the configuration still says ----

  predicate Configured(cfg: PumpConfig, w: World) {
    && w.sched.cfg == cfg.sched.(minGap := w.sched.cfg.minGap)
    && w.gov.cfg == cfg.airtime.(maxDuty := w.gov.cfg.maxDuty)
  }

  lemma StepConfigured(cfg: PumpConfig, w: World, ev: Event)
    requires Shaped(w.sched) && Pump.Enabled(w, ev) && Configured(cfg, w)
    ensures Configured(cfg, Next(cfg, w, ev))
  {
  }

  lemma {:induction false} RunConfigured(cfg: PumpConfig, worlds: seq<World>, evs: seq<Event>, n: nat)
    requires IsRun(cfg, worlds, evs) && n < |worlds|
    ensures Configured(cfg, worlds[n])
  {
    if n > 0 {
      RunConfigured(cfg, worlds, evs, n - 1);
      StepConfigured(cfg, worlds[n - 1], evs[n - 1]);
    }
  }

  // ---- The cause of every drop ----

  /** The governor puts the frame in hand off by this much. */
  predicate PutOff(w: World, delay: nat) {
    && w.phase.Cleared?
    && var answer := Decision(w.gov, w.gov.cfg.Allowance(), w.gov.cfg.AirtimeFor(w.phase.item.payload.octets), w.phase.at);
       answer.Defer? && answer.delay == delay
  }

  /** Put off by so much, it would be on the air later than it may be held. */
  predicate Hopeless(hold: nat, item: Queued, at: Instant, delay: nat) {
    && item.class_ in {Chat, Direct, Control}
    && (if at > item.queuedAt then at - item.queuedAt else 0) + delay > hold
  }

  /** A drop at this step has a cause. */
  ghost predicate Caused(cfg: PumpConfig, w: World, ev: Event, d: Drop) {
    match d.reason
    case Inhibited => d.item.class_ != Id && (ev.Purge? || (ev.Veto? && w.inhibit))
    case Oversized => ev.Veto? && d.item.payload.octets > cfg.maxFrame
    case TooOld =>
      || (ev.ExpireAt? && d.item.class_ in {Chat, Direct, Control} && Overdue(d.item, ev.now, cfg.sched.maxHold))
      || (ev.Decide? && w.phase.Cleared? && d.item == w.phase.item
          && exists delay :: PutOff(w, delay) && Hopeless(cfg.airtime.maxHold, d.item, w.phase.at, delay))
    case Shutdown => ev.Stop?
  }

  /** Nothing dropped is taken back, and what is new has a cause. */
  ghost predicate NewCaused(cfg: PumpConfig, w: World, ev: Event, w': World) {
    && w.dropped <= w'.dropped
    && forall i :: |w.dropped| <= i < |w'.dropped| ==> Caused(cfg, w, ev, w'.dropped[i])
  }

  predicate AllOverdue(items: seq<Queued>, hold: nat, now: Instant) {
    forall i :: 0 <= i < |items| ==> items[i].class_ in {Chat, Direct, Control} && Overdue(items[i], now, hold)
  }

  lemma {:induction false} SiftedAreStale(q: seq<Queued>, now: Instant, hold: nat, n: nat, c: Class)
    requires n <= |q| && InClass(q, c) && c in {Chat, Direct, Control}
    ensures AllOverdue(Sift(q, now, hold, true, n), hold, now)
  {
    if n > 0 {
      SiftedAreStale(q, now, hold, n - 1, c);
    }
  }

  lemma {:induction false} ExpiredAreStale(s: SchedState, now: Instant, n: nat)
    requires Shaped(s) && n <= |EXPIRING| && forall c: Class :: InClass(s.queues[Index(c)], c)
    ensures AllOverdue(ExpiredItems(s, now, n), s.cfg.maxHold, now)
  {
    if n > 0 {
      ExpiredAreStale(s, now, n - 1);
      var c := EXPIRING[n - 1];
      ExpiredShrinks(s, now, n - 1, c);
      var q := ExpiredQueues(s, now, n - 1)[Index(c)];
      SiftedAreStale(q, now, s.cfg.maxHold, |q|, c);
    }
  }

  lemma ClassesOf(cfg: PumpConfig, w: World)
    requires |cfg.sched.depth| == CLASSES && DepthOk(cfg, w)
    ensures forall c: Class :: InClass(w.sched.queues[Index(c)], c)
  {
    forall c: Class ensures InClass(w.sched.queues[Index(c)], c) {
      assert ClassOk(w.sched, w.phase, cfg.sched.depth, c);
    }
  }

  lemma PurgeCaused(cfg: PumpConfig, w: World)
    requires |cfg.sched.depth| == CLASSES && DepthOk(cfg, w) && w.phase.Purging?
    ensures NewCaused(cfg, w, Purge, Purged(w))
  {
    ClassesOf(cfg, w);
    DrainedNoId(w.sched, |ALL|);
  }

  lemma ExpiryCaused(cfg: PumpConfig, w: World, now: Instant)
    requires |cfg.sched.depth| == CLASSES && DepthOk(cfg, w) && Configured(cfg, w)
    ensures NewCaused(cfg, w, ExpireAt(now), Pump.ExpiredAt(w, now))
  {
    ClassesOf(cfg, w);
    ExpiredAreStale(w.sched, now, |EXPIRING|);
  }

  lemma DecideCaused(cfg: PumpConfig, w: World)
    requires Shaped(w.sched) && Configured(cfg, w) && w.phase.Cleared?
    ensures NewCaused(cfg, w, Decide, Next(cfg, w, Decide))
  {
    var answer := Decision(w.gov, w.gov.cfg.Allowance(), w.gov.cfg.AirtimeFor(w.phase.item.payload.octets), w.phase.at);
    if answer.Defer? {
      assert PutOff(w, answer.delay);
    }
  }

  lemma StepCaused(cfg: PumpConfig, w: World, ev: Event)
    requires |cfg.sched.depth| == CLASSES && DepthOk(cfg, w) && Configured(cfg, w) && Pump.Enabled(w, ev)
    ensures NewCaused(cfg, w, ev, Next(cfg, w, ev))
  {
    if ev.Purge? {
      PurgeCaused(cfg, w);
    } else if ev.ExpireAt? {
      ExpiryCaused(cfg, w, ev.now);
    } else if ev.Decide? {
      DecideCaused(cfg, w);
    }
  }

  /** Over every run, each drop happened at a step that gave cause for it: the inhibit was on and it
      was no identification; it was larger than a frame may be; it had waited too long, or would have
      by the end of the governor's delay, and was neither an identification nor an acknowledgement;
      or the station stopped. */
  lemma {:induction false} EveryDropCaused(cfg: PumpConfig, worlds: seq<World>, evs: seq<Event>, n: nat, i: nat) returns (m: nat)
    requires IsRun(cfg, worlds, evs) && n < |worlds| && i < |worlds[n].dropped|
    ensures m < n && |worlds[m].dropped| <= i < |worlds[m + 1].dropped| && worlds[m + 1].dropped[i] == worlds[n].dropped[i]
    ensures Caused(cfg, worlds[m], evs[m], worlds[n].dropped[i])
  {
    RunDepth(cfg, worlds, evs, n - 1);
    RunConfigured(cfg, worlds, evs, n - 1);
    StepCaused(cfg, worlds[n - 1], evs[n - 1]);
    m := n - 1;
    if i < |worlds[n - 1].dropped| {
      m := EveryDropCaused(cfg, worlds, evs, n - 1, i);
    }
  }

  // ---- What is taken ----

  /** The pump takes a frame exactly if something is queued and no guard holds the transmitter: the first
      of its class that its account can pay for, or the first. Nothing else changes. */
  lemma TakeExactly(cfg: PumpConfig, worlds: seq<World>, evs: seq<Event>, n: nat)
    requires IsRun(cfg, worlds, evs) && n < |evs| && evs[n].Take?
    ensures var w, w', now := worlds[n], worlds[n + 1], evs[n].now;
            && (w'.phase.Holding? <==> HoldsSomething(w.sched) && NothingHolds(w.sched, now))
            && (!w'.phase.Holding? ==> w'.phase == Resting && w'.sched == w.sched)
            && w'.dropped == w.dropped && w'.log == w.log && w'.gov == w.gov
            && (w'.phase.Holding? ==> w'.phase.at == now && TakenFrom(w.sched, w'.sched, w'.phase.item, now))
  {
    var w, now := worlds[n], evs[n].now;
    RunDepth(cfg, worlds, evs, n);
    ClassesOf(cfg, w);
    ReadyExactly(w.sched, now);
    PopTakes(w.sched, now);
  }

  ghost predicate TakenFrom(s: SchedState, s': SchedState, item: Queued, now: Instant)
    requires Shaped(s)
  {
    var c := Index(item.class_);
    var q := s.queues[c];
    exists i: nat :: FirstAffordable(s, q, i, now) && q[i] == item && s' == s.(queues := s.queues[c := q[..i] + q[i + 1..]])
  }

  /** The purge is decided on exactly with the inhibit on, and frames are looked for exactly with the
      interlock good. */
  lemma SwitchesAreRead(cfg: PumpConfig, worlds: seq<World>, evs: seq<Event>, n: nat)
    requires IsRun(cfg, worlds, evs) && n < |evs| && (evs[n].ReadInhibit? || evs[n].Look?)
    ensures var w, w' := worlds[n], worlds[n + 1];
            && (evs[n].ReadInhibit? ==> w' == w.(phase := if w.inhibit then Purging else Resting))
            && (evs[n].Look? ==> w' == w.(phase := if w.interlockOk then Looked else Resting))
  {
  }

  // ---- What becomes of a frame in hand ----

  /** The frame is the first of its class again, the others where they were; nothing is dropped, and
      nothing is taken before `until`. */
  ghost predicate PutBack(w: World, w': World, item: Queued, until: Instant)
    requires Shaped(w.sched)
  {
    && w'.phase == Resting && w'.dropped == w.dropped && w'.log == w.log
    && w'.sched.queues == w.sched.queues[Index(item.class_) := [item] + w.sched.queues[Index(item.class_)]]
    && forall t :: t < until ==> PollAt(w'.sched, t) != Ready
  }

  predicate Discards(w: World, w': World, item: Queued, reason: Reason) {
    w'.phase == Resting && w'.sched == w.sched && w'.log == w.log && w'.dropped == w.dropped + [Drop(item, reason)]
  }

  lemma RequeueIsPutBack(w: World, w': World, item: Queued, at: Instant, delay: nat)
    requires Shaped(w.sched) && w'.sched == Requeued(w.sched, item, at, delay)
    requires w'.phase == Resting && w'.dropped == w.dropped && w'.log == w.log
    ensures PutBack(w, w', item, at + delay)
  {
    var i := Index(item.class_);
    assert w'.sched.queues[i] != [];
  }

  /** What the pump does with the frame in hand, at each of the four places where it may stop. */
  lemma FrameInHand(cfg: PumpConfig, worlds: seq<World>, evs: seq<Event>, n: nat)
    requires IsRun(cfg, worlds, evs) && n < |evs| && InHand(worlds[n].phase)
    ensures var w, w', ev := worlds[n], worlds[n + 1], evs[n];
            var item, at := w.phase.item, w.phase.at;
            && (ev.Veto? ==>
                  if w.inhibit && item.class_ != Id then Discards(w, w', item, Inhibited)
                  else if item.payload.octets > cfg.maxFrame then Discards(w, w', item, Oversized)
                  else w'.phase == Cleared(item, at) && w'.sched == w.sched && w'.dropped == w.dropped)
            && (ev.Decide? ==> forall delay :: PutOff(w, delay) ==>
                  if Hopeless(cfg.airtime.maxHold, item, at, delay) then Discards(w, w', item, TooOld)
                  else PutBack(w, w', item, at + delay))
            && (ev.Decide? && (forall delay :: !PutOff(w, delay)) ==>
                  w'.phase == Admitted(item, at, w.gov.cfg.Allowance()) && w'.sched == w.sched && w'.dropped == w.dropped)
            && (ev.Reread? ==>
                  if w.interlockOk then w'.phase == Writing(item, at, w.phase.allowance) && w'.sched == w.sched && w'.dropped == w.dropped
                  else PutBack(w, w', item, at + 200_000))
            && (ev.Write? && !ev.written ==> PutBack(w, w', item, ev.later))
            && (ev.Write? && ev.written ==>
                  && w'.phase.Sent? && w'.sched == w.sched && w'.dropped == w.dropped
                  && |w'.log| == |w.log| + 1 && w.log <= w'.log
                  && w'.log[|w.log|].KeyDown? && w'.log[|w.log|].item == item && w'.log[|w.log|].start == at)
  {
    var w, w', ev := worlds[n], worlds[n + 1], evs[n];
    RunConfigured(cfg, worlds, evs, n);
    if ev.Decide? {
      DecideDisposes(cfg, w);
    } else if ev.Reread? && !w.interlockOk {
      RequeueIsPutBack(w, w', w.phase.item, w.phase.at, HELD_DELAY);
    } else if ev.Write? && !ev.written {
      RequeueIsPutBack(w, w', w.phase.item, ev.later, 0);
    }
  }

  lemma DecideDisposes(cfg: PumpConfig, w: World)
    requires Shaped(w.sched) && Configured(cfg, w) && w.phase.Cleared?
    ensures var w' := Next(cfg, w, Decide);
            var item, at := w.phase.item, w.phase.at;
            && (forall delay :: PutOff(w, delay) ==>
                  if Hopeless(cfg.airtime.maxHold, item, at, delay) then Discards(w, w', item, TooOld)
                  else PutBack(w, w', item, at + delay))
            && ((forall delay :: !PutOff(w, delay)) ==>
                  w'.phase == Admitted(item, at, w.gov.cfg.Allowance()) && w'.sched == w.sched && w'.dropped == w.dropped)
  {
    var w' := Next(cfg, w, Decide);
    var answer := Decision(w.gov, w.gov.cfg.Allowance(), w.gov.cfg.AirtimeFor(w.phase.item.payload.octets), w.phase.at);
    if answer.Defer? {
      assert PutOff(w, answer.delay);
      if !Hopeless(cfg.airtime.maxHold, w.phase.item, w.phase.at, answer.delay) {
        RequeueIsPutBack(w, w', w.phase.item, w.phase.at, answer.delay);
      }
    }
  }

  /** A frame larger than allowed is never keyed. */
  predicate SizesOk(cfg: PumpConfig, w: World) {
    && (forall i :: 0 <= i < |w.log| && w.log[i].KeyDown? ==> w.log[i].item.payload.octets <= cfg.maxFrame)
    && (w.phase.Cleared? || w.phase.Admitted? || w.phase.Writing? ==> w.phase.item.payload.octets <= cfg.maxFrame)
  }

  lemma StepSizes(cfg: PumpConfig, w: World, ev: Event)
    requires Shaped(w.sched) && Pump.Enabled(w, ev) && SizesOk(cfg, w)
    ensures SizesOk(cfg, Next(cfg, w, ev))
  {
  }

  lemma {:induction false} NothingOversized(cfg: PumpConfig, worlds: seq<World>, evs: seq<Event>, n: nat)
    requires IsRun(cfg, worlds, evs) && n < |worlds|
    ensures SizesOk(cfg, worlds[n])
  {
    if n > 0 {
      NothingOversized(cfg, worlds, evs, n - 1);
      StepSizes(cfg, worlds[n - 1], evs[n - 1]);
    }
  }

  // ---- What is offered ----

  /** A frame offered to the pump is queued behind its class as it was offered, numbered and priced by its
      size, unless the class holds as many as it may; nothing else changes. */
  lemma EnqueueExactly(cfg: PumpConfig, worlds: seq<World>, evs: seq<Event>, n: nat)
    requires IsRun(cfg, worlds, evs) && n < |evs| && evs[n].Enqueue?
    ensures var w, w', ev := worlds[n], worlds[n + 1], evs[n];
            var i, q := Index(ev.class_), w.sched.queues[Index(ev.class_)];
            && w'.next == w.next + 1 && w'.phase == w.phase && w'.dropped == w.dropped && w'.log == w.log
            && var x := Queued(Payload(w.next, ev.octets), ev.class_, ev.account, cfg.airtime.AirtimeFor(ev.octets), ev.queuedAt,
                               ev.expectsReply);
               if |q| >= cfg.sched.depth[i] then w'.sched.queues == w.sched.queues && w'.accepted == w.accepted
               else w'.sched.queues == w.sched.queues[i := q + [x]] && w'.accepted == w.accepted + multiset{x}
  {
    RunConfigured(cfg, worlds, evs, n);
    SameCost(cfg, worlds[n], evs[n].octets);
  }

  // ---- What a frame costs, and how long it is keyed ----

  /** Frames are accepted at the cost of their size, keyed for that long, and about to be charged for it. */
  ghost predicate CostsOk(cost: nat -> nat, enabled: bool, w: World) {
    && (forall x :: x in w.accepted ==> x.cost == cost(x.payload.octets))
    && (forall i :: 0 <= i < |w.log| && w.log[i].KeyDown? ==> KeyedFor(cost, enabled, w.log[i], w.log[i].item.payload.octets))
    && (w.phase.Sent? ==> w.phase.recorded == if enabled then cost(w.phase.item.payload.octets) else 0)
  }

  predicate KeyedFor(cost: nat -> nat, enabled: bool, k: Entry, octets: nat)
    requires k.KeyDown?
  {
    k.end - k.start == if enabled then cost(octets) else 0
  }

  lemma OfferCosts(cost: nat -> nat, enabled: bool, w: World, item: Queued)
    requires Shaped(w.sched) && CostsOk(cost, enabled, w) && item.cost == cost(item.payload.octets)
    ensures CostsOk(cost, enabled, Offered(w, item))
  {
  }

  lemma WriteCosts(cost: nat -> nat, enabled: bool, w: World, c: nat, written: bool, later: Instant)
    requires Shaped(w.sched) && w.phase.Writing? && w.gov.cfg.enabled == enabled && CostsOk(cost, enabled, w)
    requires c == cost(w.phase.item.payload.octets)
    ensures CostsOk(cost, enabled, Written(w, c, written, later))
  {
  }

  /** Nothing is accepted or keyed, and nothing new is about to be charged. */
  predicate KeysNothing(w: World, w': World) {
    && w'.accepted == w.accepted && (w'.phase.Sent? ==> w'.phase == w.phase)
    && (w'.log == w.log || (|w'.log| == |w.log| + 1 && w.log <= w'.log && w'.log[|w.log|].HeardAt?))
  }

  lemma OthersKeyNothing(cfg: PumpConfig, w: World, ev: Event)
    requires Shaped(w.sched) && Pump.Enabled(w, ev) && !ev.Enqueue? && !ev.Write?
    ensures KeysNothing(w, Next(cfg, w, ev))
  {
  }

  lemma KeepCosts(cost: nat -> nat, enabled: bool, w: World, w': World)
    requires CostsOk(cost, enabled, w) && KeysNothing(w, w')
    ensures CostsOk(cost, enabled, w')
  {
  }

  lemma StepCosts(cfg: PumpConfig, cost: nat -> nat, w: World, ev: Event)
    requires Shaped(w.sched) && Pump.Enabled(w, ev) && CostsOk(cost, w.gov.cfg.enabled, w)
    requires forall octets: nat :: w.gov.cfg.AirtimeFor(octets) == cost(octets)
    ensures CostsOk(cost, w.gov.cfg.enabled, Next(cfg, w, ev))
  {
    if ev.Enqueue? {
      OfferCosts(cost, w.gov.cfg.enabled, w, ItemOf(w, ev));
    } else if ev.Write? {
      WriteCosts(cost, w.gov.cfg.enabled, w, w.gov.cfg.AirtimeFor(w.phase.item.payload.octets), ev.written, ev.later);
    } else {
      OthersKeyNothing(cfg, w, ev);
      KeepCosts(cost, w.gov.cfg.enabled, w, Next(cfg, w, ev));
    }
  }

  lemma SameCost(cfg: PumpConfig, w: World, octets: nat)
    requires Configured(cfg, w)
    ensures w.gov.cfg.AirtimeFor(octets) == cfg.airtime.AirtimeFor(octets)
  {
  }

  lemma {:induction false} RunCosts(cfg: PumpConfig, cost: nat -> nat, worlds: seq<World>, evs: seq<Event>, n: nat)
    requires IsRun(cfg, worlds, evs) && n < |worlds| && forall octets: nat :: cost(octets) == cfg.airtime.AirtimeFor(octets)
    ensures CostsOk(cost, cfg.airtime.enabled, worlds[n])
  {
    if n > 0 {
      RunCosts(cfg, cost, worlds, evs, n - 1);
      RunConfigured(cfg, worlds, evs, n - 1);
      forall octets: nat ensures worlds[n - 1].gov.cfg.AirtimeFor(octets) == cost(octets) {
        SameCost(cfg, worlds[n - 1], octets);
      }
      StepCosts(cfg, cost, worlds[n - 1], evs[n - 1]);
    }
  }

  /** Over any run: each frame was accepted at the cost of its size; it is keyed for that long if the
      governor is on; and the account is charged what was keyed, and paced by it. */
  lemma CostIsKeyed(cfg: PumpConfig, worlds: seq<World>, evs: seq<Event>, n: nat, x: Queued, i: nat)
    requires IsRun(cfg, worlds, evs) && n < |worlds| && i < |worlds[n].log|
    ensures x in worlds[n].accepted ==> x.cost == cfg.airtime.AirtimeFor(x.payload.octets)
    ensures var k := worlds[n].log[i];
            k.KeyDown? ==> k.end - k.start == if cfg.airtime.enabled then cfg.airtime.AirtimeFor(k.item.payload.octets) else 0
    ensures n < |evs| && evs[n].Account? ==>
              worlds[n + 1].sched == Keyed(worlds[n].sched, worlds[n].phase.at, worlds[n].phase.item.account,
                                           if cfg.airtime.enabled then cfg.airtime.AirtimeFor(worlds[n].phase.item.payload.octets) else 0,
                                           worlds[n].phase.item.expectsReply, evs[n].victim)
  {
    RunCosts(cfg, octets => cfg.airtime.AirtimeFor(octets), worlds, evs, n);
  }

  // ---- What the operator sets, takes effect ----

  lemma StepDuty(cfg: PumpConfig, w: World, ev: Event)
    requires Shaped(w.sched) && Pump.Enabled(w, ev)
    ensures !ev.SetDuty? ==> Next(cfg, w, ev).dutyOverride == w.dutyOverride
  {
  }

  lemma {:induction false} DutyStays(cfg: PumpConfig, worlds: seq<World>, evs: seq<Event>, m: nat, n: nat)
    requires IsRun(cfg, worlds, evs) && m <= n < |worlds| && forall i :: m <= i < n ==> !evs[i].SetDuty?
    ensures worlds[n].dutyOverride == worlds[m].dutyOverride
  {
    if m < n {
      DutyStays(cfg, worlds, evs, m, n - 1);
      StepDuty(cfg, worlds[n - 1], evs[n - 1]);
    }
  }

  lemma StepPacing(cfg: PumpConfig, w: World, ev: Event)
    requires Shaped(w.sched) && Pump.Enabled(w, ev)
    ensures !ev.SetPacing? ==> Next(cfg, w, ev).pacingOverride == w.pacingOverride
  {
  }

  lemma {:induction false} PacingStays(cfg: PumpConfig, worlds: seq<World>, evs: seq<Event>, m: nat, n: nat)
    requires IsRun(cfg, worlds, evs) && m <= n < |worlds| && forall i :: m <= i < n ==> !evs[i].SetPacing?
    ensures worlds[n].pacingOverride == worlds[m].pacingOverride
  {
    if m < n {
      PacingStays(cfg, worlds, evs, m, n - 1);
      StepPacing(cfg, worlds[n - 1], evs[n - 1]);
    }
  }

  /** From the next time the pump looks, the allowance is that of the percentage set last, up to fifty,
      or the configured one once that is cleared. */
  lemma DutyTakesEffect(cfg: PumpConfig, worlds: seq<World>, evs: seq<Event>, m: nat, n: nat)
    requires IsRun(cfg, worlds, evs) && m < n < |evs| && evs[m].SetDuty? && evs[n].ApplyDuty?
    requires forall i :: m < i < n ==> !evs[i].SetDuty?
    ensures var percent, a := evs[m].percent, worlds[n + 1].gov.cfg.Allowance();
            && (percent.Some? && 0 < percent.value ==>
                  100 * a <= cfg.airtime.window * (if percent.value > 50 then 50 else percent.value) < 100 * (a + 1))
            && (percent == None || percent == Some(0) ==> a == cfg.airtime.Allowance())
  {
    DutyStays(cfg, worlds, evs, m + 1, n);
    RunConfigured(cfg, worlds, evs, n);
    OverrideExactly(cfg.airtime, evs[m].percent);
    assert worlds[n + 1].gov.cfg == cfg.airtime.(maxDuty := DutyLimit(StoredDuty(evs[m].percent), cfg.airtime.maxDuty));
  }

  /** And the gap after a transmission is the configured one, or the one set last if that is longer. */
  lemma PacingTakesEffect(cfg: PumpConfig, worlds: seq<World>, evs: seq<Event>, m: nat, n: nat)
    requires IsRun(cfg, worlds, evs) && m < n < |evs| && evs[m].SetPacing? && evs[n].ApplyPacing?
    requires forall i :: m < i < n ==> !evs[i].SetPacing?
    ensures worlds[n + 1].sched.cfg.minGap == if 1_000 * evs[m].ms > cfg.txPacing then 1_000 * evs[m].ms else cfg.txPacing
  {
    PacingStays(cfg, worlds, evs, m + 1, n);
  }
}
