/** The transmit pump: one frame at a time through the scheduler, the operator's inhibit, the
    governor and the interlock, while other threads queue frames and flip the switches. Every
    step below touches shared state once: one load of a flag, one hold of the scheduler's lock, or
    the write to the link; the governor is the pump's own. Only giving a frame back to the scheduler
    is one step with what decided it, since what others do in between might as well have come
    before it (queueing a frame) or after it (flipping a switch). Any number of other threads'
    steps may come between any two. */
module Pump {
  import opened Common
  import opened Airtime
  import opened Scheduling

  datatype PumpConfig = PumpConfig(
    maxFrame: nat,
    txPacing: nat,
    airtime: AirtimeConfig,
    sched: SchedulerConfig)

  const HELD_DELAY := 200_000

  /** What happened on the air, in order. */
  datatype Entry =
    | KeyDown(start: Instant, end: Instant, item: Queued)
    | HeardAt(at: Instant)

  datatype Reason = Inhibited | Oversized | TooOld | Shutdown

  datatype Drop = Drop(item: Queued, reason: Reason)

  /** Where the pump is between its atomic sections. */
  datatype Phase =
    | Resting
    | Purging                                                // the inhibit was read, and is on
    | Looked                                                 // the interlock was read, and holds
    | Holding(item: Queued, at: Instant)                     // popped
    | Cleared(item: Queued, at: Instant)                     // past the inhibit and the size check
    | Admitted(item: Queued, at: Instant, allowance: nat)    // past the governor
    | Writing(item: Queued, at: Instant, allowance: nat)     // past the second look at the interlock
    | Sent(item: Queued, at: Instant, recorded: nat)         // on the air, the scheduler not yet told
    | Stopped

  datatype World = World(
    sched: SchedState,
    gov: GovState,
    phase: Phase,
    inhibit: bool,
    interlockOk: bool,
    dutyOverride: nat,
    pacingOverride: nat,
    clock: Instant,
    next: nat,                 // frames offered so far; a frame's tag is its number
    log: seq<Entry>,
    hist: seq<Burst>,          // the key-downs, as the governor was told of them
    allowed: seq<nat>,         // the allowance in force at each
    accepted: multiset<Queued>,
    dropped: seq<Drop>)

  function Start(cfg: PumpConfig, now: Instant): World {
    World(NewScheduler(cfg.sched.(minGap := cfg.txPacing)), NewGovernor(cfg.airtime), Resting,
          false, true, 0, 0, now, 0, [], [], [], multiset{}, [])
  }

  /** A frame is in the pump's hands: popped, and not yet on the air. */
  predicate InHand(p: Phase) { p.Holding? || p.Cleared? || p.Admitted? || p.Writing? }

  datatype Event =
    // other threads
    | Enqueue(class_: Class, account: string, octets: nat, expectsReply: bool, queuedAt: Instant)
    | SetInhibit(on: bool)
    | SetInterlock(ok: bool)
    | SetDuty(percent: Option<nat>)
    | SetPacing(ms: nat)
    // the top of the loop
    | ReadInhibit
    | Purge
    | ApplyDuty
    | ApplyPacing
    | ExpireAt(now: Instant)
    // the receive branch
    | Hear(now: Instant)
    // the transmit branch
    | Look
    | Take(now: Instant)
    | Veto
    | Decide
    | Reread
    | Write(written: bool, later: Instant)
    | Account(victim: string)
    // the loopback harness is gone
    | Stop

  // ---- Steps ----

  function ItemOf(w: World, ev: Event): Queued
    requires ev.Enqueue?
  {
    Queued(Payload(w.next, ev.octets), ev.class_, ev.account, w.gov.cfg.AirtimeFor(ev.octets), ev.queuedAt, ev.expectsReply)
  }

  function Offered(w: World, item: Queued): World
    requires Shaped(w.sched)
  {
    w.(sched := Pushed(w.sched, item), next := w.next + 1,
       accepted := if Refuses(w.sched, item) then w.accepted else w.accepted + multiset{item})
  }

  function Drops(items: seq<Queued>, reason: Reason): seq<Drop> {
    seq(|items|, i requires 0 <= i < |items| => Drop(items[i], reason))
  }

  /** `RADIO OFF` discards everything but identification. The switch was read before, and may
      be off again by now. */
  function Purged(w: World): World
    requires Shaped(w.sched)
  {
    w.(sched := w.sched.(queues := DrainedQueues(w.sched, Id, |ALL|)), phase := Resting,
       dropped := w.dropped + Drops(DrainedItems(w.sched, Id, |ALL|), Inhibited))
  }

  function ExpiredAt(w: World, now: Instant): World
    requires Shaped(w.sched)
  {
    w.(sched := Scheduling.Expired(w.sched, now), clock := now,
       dropped := w.dropped + Drops(ExpiredItems(w.sched, now, |EXPIRING|), TooOld))
  }

  function HeardNow(w: World, now: Instant): World {
    w.(sched := Scheduling.Heard(w.sched, now), clock := now, log := w.log + [HeardAt(now)])
  }

  function Taken(w: World, now: Instant): World
    requires Shaped(w.sched)
  {
    if PollAt(w.sched, now) != Ready then w.(phase := Resting, clock := now)
    else
      var (s, item) := Popped(w.sched, now);
      w.(sched := s, phase := if item.None? then Resting else Holding(item.value, now), clock := now)
  }

  function Vetoed(maxFrame: nat, w: World): World
    requires w.phase.Holding?
  {
    var item := w.phase.item;
    if w.inhibit && item.class_ != Id then w.(phase := Resting, dropped := w.dropped + [Drop(item, Inhibited)])
    else if item.payload.octets > maxFrame then w.(phase := Resting, dropped := w.dropped + [Drop(item, Oversized)])
    else w.(phase := Cleared(item, w.phase.at))
  }

  /** Waiting out this delay would keep the frame past its hold time. */
  predicate TooLate(cfg: AirtimeConfig, item: Queued, at: Instant, delay: nat) {
    item.class_ != Id && item.class_ != Ack && Since(at, item.queuedAt) + delay > cfg.maxHold
  }

  function Decided(w: World, allowance: nat, cost: nat): World
    requires Shaped(w.sched) && w.phase.Cleared?
  {
    var item, at := w.phase.item, w.phase.at;
    var g := Checked(w.gov, at);
    match Decision(w.gov, allowance, cost, at)
    case Send => w.(gov := g, phase := Admitted(item, at, allowance))
    case Defer(delay, _) =>
      if TooLate(w.gov.cfg, item, at, delay) then
        w.(gov := g, phase := Resting, dropped := w.dropped + [Drop(item, TooOld)])
      else w.(gov := g, phase := Resting, sched := Requeued(w.sched, item, at, delay))
  }

  /** The interlock is read again just before keying. */
  function Rechecked(w: World): World
    requires Shaped(w.sched) && w.phase.Admitted?
  {
    var item, at := w.phase.item, w.phase.at;
    if w.interlockOk then w.(phase := Writing(item, at, w.phase.allowance))
    else w.(phase := Resting, sched := Requeued(w.sched, item, at, HELD_DELAY))
  }

  /** The frame is written to the link, and the governor told of it. */
  function Written(w: World, cost: nat, written: bool, later: Instant): World
    requires Shaped(w.sched) && w.phase.Writing?
  {
    var item, at := w.phase.item, w.phase.at;
    if !written then w.(phase := Resting, sched := Requeued(w.sched, item, later, 0), clock := later)
    else
      var recorded := if w.gov.cfg.enabled then cost else 0;
      w.(phase := Sent(item, at, recorded),
         gov := Recorded(w.gov, cost, at),
         log := w.log + [KeyDown(at, at + recorded, item)],
         hist := if w.gov.cfg.enabled then w.hist + [Burst(at + cost, cost)] else w.hist,
         allowed := if w.gov.cfg.enabled then w.allowed + [w.phase.allowance] else w.allowed)
  }

  /** The scheduler is told of the transmission. */
  function Accounted(w: World, victim: string): World
    requires w.phase.Sent?
  {
    var item := w.phase.item;
    w.(phase := Resting,
       sched := Scheduling.Keyed(w.sched, w.phase.at, item.account, w.phase.recorded, item.expectsReply, victim))
  }

  function Halted(w: World): World
    requires Shaped(w.sched)
  {
    w.(phase := Stopped, sched := w.sched.(queues := [[], [], [], [], []]),
       dropped := w.dropped + Drops(AllItems(w.sched.queues, CLASSES), Shutdown))
  }

  /** Which step the program can take: its own sections come in order, at times that do not go
      back; other threads act at any moment. */
  ghost predicate Enabled(w: World, ev: Event) {
    match ev
    case ReadInhibit => w.phase.Resting?
    case Purge => w.phase.Purging?
    case ApplyDuty => w.phase.Resting?
    case ApplyPacing => w.phase.Resting?
    case ExpireAt(now) => w.phase.Resting? && now >= w.clock
    case Hear(now) => w.phase.Resting? && now >= w.clock
    case Look => w.phase.Resting?
    case Take(now) => w.phase.Looked? && now >= w.clock
    case Veto => w.phase.Holding?
    case Decide => w.phase.Cleared?
    case Reread => w.phase.Admitted?
    case Write(_, later) => w.phase.Writing? && later >= w.clock
    case Account(victim) =>
      && w.phase.Sent?
      && (NeedsEviction(w.sched.cfg, w.sched.buckets, w.phase.item.account) ==> IsOldest(Lasts(w.sched.buckets), victim))
    case Stop => w.phase.Resting?
    case _ => true
  }

  function Next(cfg: PumpConfig, w: World, ev: Event): World
    requires Shaped(w.sched)
    requires ev.Veto? ==> w.phase.Holding?
    requires ev.Decide? ==> w.phase.Cleared?
    requires ev.Reread? ==> w.phase.Admitted?
    requires ev.Write? ==> w.phase.Writing?
    requires ev.Account? ==> w.phase.Sent?
  {
    match ev
    case Enqueue(_, _, _, _, _) => Offered(w, ItemOf(w, ev))
    case SetInhibit(on) => w.(inhibit := on)
    case SetInterlock(ok) => w.(interlockOk := ok)
    case SetDuty(percent) => w.(dutyOverride := StoredDuty(percent))
    case SetPacing(ms) => w.(pacingOverride := ms)
    case ReadInhibit => if w.inhibit then w.(phase := Purging) else w
    case Purge => Purged(w)
    case ApplyDuty => w.(gov := w.gov.(cfg := w.gov.cfg.(maxDuty := DutyLimit(w.dutyOverride, cfg.airtime.maxDuty))))
    case ApplyPacing => w.(sched := w.sched.(cfg := w.sched.cfg.(minGap := Pacing(w.pacingOverride, cfg.txPacing))))
    case ExpireAt(now) => ExpiredAt(w, now)
    case Hear(now) => HeardNow(w, now)
    case Look => if w.interlockOk then w.(phase := Looked) else w
    case Take(now) => Taken(w, now)
    case Veto => Vetoed(cfg.maxFrame, w)
    case Decide => Decided(w, w.gov.cfg.Allowance(), w.gov.cfg.AirtimeFor(w.phase.item.payload.octets))
    case Reread => Rechecked(w)
    case Write(written, later) => Written(w, w.gov.cfg.AirtimeFor(w.phase.item.payload.octets), written, later)
    case Account(victim) => Accounted(w, victim)
    case Stop => Halted(w)
  }

  ghost predicate IsRun(cfg: PumpConfig, worlds: seq<World>, evs: seq<Event>) {
    && |cfg.sched.depth| == CLASSES
    && |worlds| == |evs| + 1
    && (exists t :: worlds[0] == Start(cfg, t))
    && (forall i :: 0 <= i < |worlds| ==> Shaped(worlds[i].sched))
    && forall i :: 0 <= i < |evs| ==> Enabled(worlds[i], evs[i]) && worlds[i + 1] == Next(cfg, worlds[i], evs[i])
  }

  // ---- One pass of the transmit branch, in place ----

  datatype Fate = NotTaken | Discarded(reason: Reason) | Deferred | Held | WriteFailed | OnAir

  /** The second look at the interlock, the write and the bookkeeping, with nothing in between. */
  function Keying(w: World, cost: nat, written: bool, later: Instant, victim: string): World
    requires Shaped(w.sched) && w.phase.Admitted?
  {
    var w1 := Rechecked(w);
    if !w1.phase.Writing? then w1
    else
      var w2 := Written(w1, cost, written, later);
      if w2.phase.Sent? then Accounted(w2, victim) else w2
  }

  /** The governor, the interlock and the write, with nothing in between. */
  function Finish(w: World, interlockOk: bool, allowance: nat, cost: nat, written: bool, later: Instant, victim: string): World
    requires Shaped(w.sched) && w.phase.Cleared?
  {
    var w1 := Decided(w, allowance, cost);
    if w1.phase.Admitted? then Keying(w1.(interlockOk := interlockOk), cost, written, later, victim) else w1
  }

  /** The transmit branch with nothing in between: the values it reads are parameters. */
  function Attempt(cfg: PumpConfig, w: World, now: Instant, inhibit: bool, interlockOk: bool, allowance: nat, cost: nat,
                   written: bool, later: Instant, victim: string): World
    requires Shaped(w.sched)
  {
    var w1 := Taken(w, now);
    if !w1.phase.Holding? then w1
    else
      var w2 := Vetoed(cfg.maxFrame, w1.(inhibit := inhibit));
      if w2.phase.Cleared? then Finish(w2, interlockOk, allowance, cost, written, later, victim) else w2
  }

  class TransmitPump {
    const cfg: PumpConfig
    const scheduler: Scheduler
    const governor: Governor
    var droppedInhibited: nat
    var droppedStale: nat
    var deferred: nat

    ghost predicate Valid()
      reads this, scheduler
    {
      scheduler.Valid()
    }

    /** A state with this scheduler and this governor in it. */
    ghost predicate Shows(w: World)
      reads this, scheduler, governor
    {
      w.sched == scheduler.State() && w.gov == governor.State()
    }

    constructor (cfg: PumpConfig)
      requires |cfg.sched.depth| == CLASSES
      ensures Valid() && fresh(scheduler) && fresh(governor) && this.cfg == cfg
      ensures forall t :: Shows(Start(cfg, t))
    {
      this.cfg := cfg;
      scheduler := new Scheduler(cfg.sched.(minGap := cfg.txPacing));
      governor := new Governor(cfg.airtime);
      droppedInhibited, droppedStale, deferred := 0, 0, 0;
    }

    /** The top of the loop. */
    method Prepare(inhibit: bool, dutyOverride: nat, pacingOverride: nat, now: Instant, ghost w: World)
      returns (poll: Poll)
      requires Valid() && Shows(w)
      modifies this, scheduler, governor
      ensures Valid()
      ensures var w0 := w.(inhibit := inhibit, dutyOverride := dutyOverride, pacingOverride := pacingOverride);
              var w1 := if inhibit then Purged(w0) else w0;
              var w2 := Next(cfg, w1, ApplyDuty);
              var w3 := Next(cfg, w2, ApplyPacing);
              Shows(ExpiredAt(w3, now)) && poll == PollAt(ExpiredAt(w3, now).sched, now)
    {
      if inhibit {
        var dropped := scheduler.DrainExcept(Id);
        droppedInhibited := droppedInhibited + |dropped|;
      }
      governor.SetDuty(DutyLimit(dutyOverride, cfg.airtime.maxDuty));
      scheduler.SetMinGap(Pacing(pacingOverride, cfg.txPacing));
      var expired := scheduler.Expire(now);
      droppedStale := droppedStale + |expired|;
      poll := scheduler.Poll(now);
    }

    /** Re-read the interlock, write, record. */
    method Key(item: Queued, now: Instant, interlockOk: bool, written: bool, later: Instant, ghost w: World)
      returns (fate: Fate, ghost victim: string)
      requires Valid() && Shows(w) && Shaped(w.sched) && w.interlockOk == interlockOk
      requires w.phase.Admitted? && w.phase.item == item && w.phase.at == now
      modifies this, scheduler, governor
      ensures Valid()
      ensures Shows(Keying(w, old(governor.cfg).AirtimeFor(item.payload.octets), written, later, victim))
    {
      victim := "";
      if !interlockOk {
        scheduler.Requeue(item, now, HELD_DELAY);
        return Held, victim;
      }
      if !written {
        scheduler.Requeue(item, later, 0);
        return WriteFailed, victim;
      }
      var recorded := governor.Record(item.payload.octets, now);
      victim := scheduler.OnKeyed(now, item.account, recorded, item.expectsReply);
      return OnAir, victim;
    }

    /** Ask the governor about a frame that may go, re-read the interlock, write, record. */
    method AskAndWrite(item: Queued, now: Instant, interlockOk: bool, written: bool, later: Instant, ghost w: World)
      returns (fate: Fate, ghost victim: string)
      requires Valid() && Shows(w) && Shaped(w.sched) && w.phase.Cleared? && w.phase.item == item && w.phase.at == now
      modifies this, scheduler, governor
      ensures Valid()
      ensures Shows(Finish(w, interlockOk, old(governor.cfg).Allowance(), old(governor.cfg).AirtimeFor(item.payload.octets),
                           written, later, victim))
    {
      victim := "";
      var decision := governor.Check(item.payload.octets, now);
      if decision.Send? {
        fate, victim := Key(item, now, interlockOk, written, later,
                            Decided(w, w.gov.cfg.Allowance(), w.gov.cfg.AirtimeFor(item.payload.octets)).(interlockOk := interlockOk));
        return;
      }
      if TooLate(governor.cfg, item, now, decision.delay) {
        droppedStale := droppedStale + 1;
        return Discarded(TooOld), victim;
      }
      deferred := deferred + 1;
      scheduler.Requeue(item, now, decision.delay);
      return Deferred, victim;
    }

    /** Poll, pop, veto, and then the rest. */
    method Transmit(now: Instant, inhibit: bool, interlockOk: bool, written: bool, later: Instant, ghost w: World)
      returns (fate: Fate, ghost victim: string, ghost cost: nat)
      requires Valid() && Shows(w) && Shaped(w.sched)
      modifies this, scheduler, governor
      ensures Valid()
      ensures Shows(Attempt(cfg, w, now, inhibit, interlockOk, old(governor.cfg).Allowance(), cost, written, later, victim))
      ensures fate.OnAir? || fate.Held? || fate.WriteFailed? || fate.Deferred? ==>
                var (_, item) := Popped(w.sched, now);
                item.Some? && cost == old(governor.cfg).AirtimeFor(item.value.payload.octets)
    {
      victim, cost := "", 0;
      ghost var w1 := Taken(w, now);
      var poll := scheduler.Poll(now);
      if poll != Ready {
        return NotTaken, victim, cost;
      }
      var popped := scheduler.Pop(now);
      if popped.None? {
        return NotTaken, victim, cost;
      }
      var item := popped.value;
      if inhibit && item.class_ != Id {
        droppedInhibited := droppedInhibited + 1;
        return Discarded(Inhibited), victim, cost;
      }
      if item.payload.octets > cfg.maxFrame {
        return Discarded(Oversized), victim, cost;
      }
      cost := governor.cfg.AirtimeFor(item.payload.octets);
      fate, victim := AskAndWrite(item, now, interlockOk, written, later, Vetoed(cfg.maxFrame, w1.(inhibit := inhibit)));
    }
  }
}
