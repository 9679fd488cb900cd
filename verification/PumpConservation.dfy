/** No frame is lost, invented or sent twice: over every run of the pump, each accepted frame is
    exactly one of queued, in hand, keyed once or dropped for a stated reason. */
module PumpConservation {
  import opened Common
  import opened Airtime
  import opened Scheduling
  import opened Pump

  /** How often `x` occurs in `q`. */
  function In(q: seq<Queued>, x: Queued): nat {
    multiset(q)[x]
  }

  function One(item: Queued, x: Queued): nat {
    if item == x then 1 else 0
  }

  lemma InAppend(p: seq<Queued>, q: seq<Queued>, x: Queued)
    ensures In(p + q, x) == In(p, x) + In(q, x)
    ensures forall item :: In([item], x) == One(item, x)
  {
  }

  function InQueues(queues: seq<seq<Queued>>, n: nat, x: Queued): nat
    requires n <= |queues|
  {
    if n == 0 then 0 else InQueues(queues, n - 1, x) + In(queues[n - 1], x)
  }

  function QueuedTimes(s: SchedState, x: Queued): nat
    requires Shaped(s)
  {
    InQueues(s.queues, CLASSES, x)
  }

  function HandTimes(p: Phase, x: Queued): nat {
    if InHand(p) then One(p.item, x) else 0
  }

  function KeyedTimes(log: seq<Entry>, n: nat, x: Queued): nat
    requires n <= |log|
  {
    if n == 0 then 0 else KeyedTimes(log, n - 1, x) + (if log[n - 1].KeyDown? then One(log[n - 1].item, x) else 0)
  }

  function DroppedTimes(dropped: seq<Drop>, n: nat, x: Queued): nat
    requires n <= |dropped|
  {
    if n == 0 then 0 else DroppedTimes(dropped, n - 1, x) + One(dropped[n - 1].item, x)
  }

  /** How often `x` is accounted for. */
  function Times(w: World, x: Queued): nat
    requires Shaped(w.sched)
  {
    QueuedTimes(w.sched, x) + HandTimes(w.phase, x) + KeyedTimes(w.log, |w.log|, x) + DroppedTimes(w.dropped, |w.dropped|, x)
  }

  // ---- What each operation does to the count ----

  lemma {:induction false} UpdateTimes(queues: seq<seq<Queued>>, i: nat, q: seq<Queued>, n: nat, x: Queued)
    requires n <= |queues| && i < |queues|
    ensures InQueues(queues[i := q], n, x) == InQueues(queues, n, x) + (if i < n then In(q, x) - In(queues[i], x) else 0)
  {
    if n > 0 {
      UpdateTimes(queues, i, q, n - 1, x);
    }
  }

  lemma PushTimes(s: SchedState, item: Queued, x: Queued)
    requires Shaped(s)
    ensures QueuedTimes(Pushed(s, item), x) == QueuedTimes(s, x) + (if Refuses(s, item) then 0 else One(item, x))
  {
    var i := Index(item.class_);
    UpdateTimes(s.queues, i, s.queues[i] + [item], CLASSES, x);
    InAppend(s.queues[i], [item], x);
  }

  lemma RequeueTimes(s: SchedState, item: Queued, at: Instant, delay: nat, x: Queued)
    requires Shaped(s)
    ensures QueuedTimes(Requeued(s, item, at, delay), x) == QueuedTimes(s, x) + One(item, x)
  {
    var i := Index(item.class_);
    UpdateTimes(s.queues, i, [item] + s.queues[i], CLASSES, x);
    InAppend([item], s.queues[i], x);
  }

  lemma WithoutTimes(q: seq<Queued>, i: nat, x: Queued)
    requires i < |q|
    ensures In(q, x) == In(Without(q, i), x) + One(q[i], x)
  {
    assert q == q[..i] + [q[i]] + q[i + 1..];
    InAppend(q[..i] + [q[i]], q[i + 1..], x);
    InAppend(q[..i], [q[i]], x);
    InAppend(q[..i], q[i + 1..], x);
  }

  lemma PopTimes(s: SchedState, now: Instant, x: Queued)
    requires Shaped(s)
    ensures var (s', item) := Popped(s, now);
            QueuedTimes(s, x) == QueuedTimes(s', x) + (if item.Some? then One(item.value, x) else 0)
  {
    var choice := BestOf(s, now, |ALL|);
    if choice.Some? {
      var c, i := Index(choice.value.class_), choice.value.idx;
      WithoutTimes(s.queues[c], i, x);
      UpdateTimes(s.queues, c, Without(s.queues[c], i), CLASSES, x);
    }
  }

  lemma {:induction false} SiftTimes(q: seq<Queued>, now: Instant, hold: nat, n: nat, x: Queued)
    requires n <= |q|
    ensures In(Sift(q, now, hold, false, n), x) + In(Sift(q, now, hold, true, n), x) == In(q[..n], x)
  {
    if n > 0 {
      SiftTimes(q, now, hold, n - 1, x);
      assert q[..n] == q[..n - 1] + [q[n - 1]];
      InAppend(q[..n - 1], [q[n - 1]], x);
      var stale := Stale(q[n - 1], now, hold);
      InAppend(Sift(q, now, hold, stale, n - 1), [q[n - 1]], x);
      assert Sift(q, now, hold, !stale, n) == Sift(q, now, hold, !stale, n - 1) + [];
    }
  }

  lemma {:induction false} ExpireTimes(s: SchedState, now: Instant, n: nat, x: Queued)
    requires Shaped(s) && n <= |EXPIRING|
    ensures InQueues(ExpiredQueues(s, now, n), CLASSES, x) + In(ExpiredItems(s, now, n), x) == QueuedTimes(s, x)
  {
    if n > 0 {
      ExpireTimes(s, now, n - 1, x);
      var i := Index(EXPIRING[n - 1]);
      var q := ExpiredQueues(s, now, n - 1)[i];
      var keep, out := Sift(q, now, s.cfg.maxHold, false, |q|), Sift(q, now, s.cfg.maxHold, true, |q|);
      SiftTimes(q, now, s.cfg.maxHold, |q|, x);
      assert q[..|q|] == q;
      UpdateTimes(ExpiredQueues(s, now, n - 1), i, keep, CLASSES, x);
      InAppend(ExpiredItems(s, now, n - 1), out, x);
    }
  }

  lemma DrainOne(queues: seq<seq<Queued>>, items: seq<Queued>, i: nat, x: Queued)
    requires |queues| == CLASSES && i < CLASSES
    ensures InQueues(queues[i := []], CLASSES, x) + In(items + queues[i], x) == InQueues(queues, CLASSES, x) + In(items, x)
  {
    UpdateTimes(queues, i, [], CLASSES, x);
    InAppend(items, queues[i], x);
    InAppend(items, [], x);
  }

  /** After `n` classes nothing is lost: what left the queues is in the list. */
  predicate DrainBalanced(s: SchedState, keep: Class, n: nat, x: Queued)
    requires Shaped(s) && n <= |ALL|
  {
    InQueues(DrainedQueues(s, keep, n), CLASSES, x) + In(DrainedItems(s, keep, n), x) == QueuedTimes(s, x)
  }

  lemma DrainNext(s: SchedState, keep: Class, n: nat, x: Queued)
    requires Shaped(s) && 0 < n <= |ALL| && DrainBalanced(s, keep, n - 1, x)
    ensures DrainBalanced(s, keep, n, x)
  {
    if ALL[n - 1] == keep {
      assert DrainedItems(s, keep, n) == DrainedItems(s, keep, n - 1);
    } else {
      DrainOne(DrainedQueues(s, keep, n - 1), DrainedItems(s, keep, n - 1), Index(ALL[n - 1]), x);
    }
  }

  lemma {:induction false} DrainTimes(s: SchedState, keep: Class, n: nat, x: Queued)
    requires Shaped(s) && n <= |ALL|
    ensures DrainBalanced(s, keep, n, x)
  {
    if n > 0 {
      DrainTimes(s, keep, n - 1, x);
      DrainNext(s, keep, n, x);
    }
  }

  lemma {:induction false} AllTimes(queues: seq<seq<Queued>>, n: nat, x: Queued)
    requires n <= |queues|
    ensures In(AllItems(queues, n), x) == InQueues(queues, n, x)
  {
    if n > 0 {
      AllTimes(queues, n - 1, x);
      InAppend(AllItems(queues, n - 1), queues[n - 1], x);
    }
  }

  lemma {:induction false} EmptyTimes(queues: seq<seq<Queued>>, n: nat, x: Queued)
    requires n <= |queues| && forall i :: 0 <= i < |queues| ==> queues[i] == []
    ensures InQueues(queues, n, x) == 0
  {
    if n > 0 {
      EmptyTimes(queues, n - 1, x);
    }
  }

  lemma {:induction false} DroppedPrefix(dropped: seq<Drop>, more: seq<Drop>, n: nat, x: Queued)
    requires n <= |dropped|
    ensures DroppedTimes(dropped + more, n, x) == DroppedTimes(dropped, n, x)
  {
    if n > 0 {
      DroppedPrefix(dropped, more, n - 1, x);
    }
  }

  lemma PrefixTimes(items: seq<Queued>, n: nat, x: Queued)
    requires 0 < n <= |items|
    ensures In(items[..n], x) == In(items[..n - 1], x) + One(items[n - 1], x)
  {
    assert items[..n] == items[..n - 1] + [items[n - 1]];
    InAppend(items[..n - 1], [items[n - 1]], x);
  }

  lemma {:induction false} DropsAppend(dropped: seq<Drop>, items: seq<Queued>, reason: Reason, n: nat, x: Queued)
    requires n <= |items|
    ensures DroppedTimes(dropped + Drops(items, reason), |dropped| + n, x)
         == DroppedTimes(dropped, |dropped|, x) + In(items[..n], x)
  {
    if n == 0 {
      DroppedPrefix(dropped, Drops(items, reason), |dropped|, x);
    } else {
      DropsAppend(dropped, items, reason, n - 1, x);
      assert (dropped + Drops(items, reason))[|dropped| + n - 1].item == items[n - 1];
      PrefixTimes(items, n, x);
    }
  }

  lemma AllDropped(dropped: seq<Drop>, items: seq<Queued>, reason: Reason, x: Queued)
    ensures DroppedTimes(dropped + Drops(items, reason), |dropped + Drops(items, reason)|, x)
         == DroppedTimes(dropped, |dropped|, x) + In(items, x)
  {
    DropsAppend(dropped, items, reason, |items|, x);
    assert items[..|items|] == items;
  }

  lemma OneDropped(dropped: seq<Drop>, d: Drop, x: Queued)
    ensures DroppedTimes(dropped + [d], |dropped + [d]|, x) == DroppedTimes(dropped, |dropped|, x) + One(d.item, x)
  {
    DroppedPrefix(dropped, [d], |dropped|, x);
  }

  lemma {:induction false} KeyedPrefix(log: seq<Entry>, e: Entry, n: nat, x: Queued)
    requires n <= |log|
    ensures KeyedTimes(log + [e], n, x) == KeyedTimes(log, n, x)
  {
    if n > 0 {
      KeyedPrefix(log, e, n - 1, x);
    }
  }

  lemma KeyedOnce(log: seq<Entry>, k: Entry, x: Queued)
    requires k.KeyDown?
    ensures KeyedTimes(log + [k], |log + [k]|, x) == KeyedTimes(log, |log|, x) + One(k.item, x)
  {
    KeyedPrefix(log, k, |log|, x);
  }

  // ---- Every step accounts for every frame ----

  lemma EnqueueAccounts(w: World, item: Queued, x: Queued)
    requires Shaped(w.sched) && Times(w, x) == w.accepted[x]
    ensures Times(Offered(w, item), x) == Offered(w, item).accepted[x]
  {
    PushTimes(w.sched, item, x);
  }

  lemma PurgeAccounts(w: World, x: Queued)
    requires Shaped(w.sched) && w.phase.Purging?
    ensures Times(Purged(w), x) == Times(w, x)
  {
    DrainTimes(w.sched, Id, |ALL|, x);
    AllDropped(w.dropped, DrainedItems(w.sched, Id, |ALL|), Inhibited, x);
  }

  lemma ExpireAccounts(w: World, now: Instant, x: Queued)
    requires Shaped(w.sched)
    ensures Times(Pump.ExpiredAt(w, now), x) == Times(w, x)
  {
    ExpireTimes(w.sched, now, |EXPIRING|, x);
    AllDropped(w.dropped, ExpiredItems(w.sched, now, |EXPIRING|), TooOld, x);
  }

  lemma HearAccounts(w: World, now: Instant, x: Queued)
    requires Shaped(w.sched)
    ensures Times(HeardNow(w, now), x) == Times(w, x)
  {
    KeyedPrefix(w.log, HeardAt(now), |w.log|, x);
  }

  lemma TakeAccounts(w: World, now: Instant, x: Queued)
    requires Shaped(w.sched) && w.phase.Looked?
    ensures Times(Taken(w, now), x) == Times(w, x)
  {
    PopTimes(w.sched, now, x);
  }

  lemma VetoAccounts(maxFrame: nat, w: World, x: Queued)
    requires Shaped(w.sched) && w.phase.Holding?
    ensures Times(Vetoed(maxFrame, w), x) == Times(w, x)
  {
    OneDropped(w.dropped, Drop(w.phase.item, Inhibited), x);
    OneDropped(w.dropped, Drop(w.phase.item, Oversized), x);
  }

  lemma DecideAccounts(w: World, allowance: nat, cost: nat, x: Queued)
    requires Shaped(w.sched) && w.phase.Cleared?
    ensures Times(Decided(w, allowance, cost), x) == Times(w, x)
  {
    var d := Decision(w.gov, allowance, cost, w.phase.at);
    if d.Defer? {
      OneDropped(w.dropped, Drop(w.phase.item, TooOld), x);
      RequeueTimes(w.sched, w.phase.item, w.phase.at, d.delay, x);
    }
  }

  lemma RereadAccounts(w: World, x: Queued)
    requires Shaped(w.sched) && w.phase.Admitted?
    ensures Times(Rechecked(w), x) == Times(w, x)
  {
    RequeueTimes(w.sched, w.phase.item, w.phase.at, HELD_DELAY, x);
  }

  /** The frame in hand goes on the air. */
  lemma KeyingMoves(w: World, w': World, k: Entry, x: Queued)
    requires Shaped(w.sched) && w'.sched == w.sched && w'.dropped == w.dropped && w'.log == w.log + [k] && k.KeyDown?
    requires InHand(w.phase) && w.phase.item == k.item && !InHand(w'.phase)
    ensures Times(w', x) == Times(w, x)
  {
    KeyedOnce(w.log, k, x);
  }

  lemma KeyedAccounts(w: World, cost: nat, later: Instant, x: Queued)
    requires Shaped(w.sched) && w.phase.Writing?
    ensures Times(Written(w, cost, true, later), x) == Times(w, x)
  {
    var item, at := w.phase.item, w.phase.at;
    KeyingMoves(w, Written(w, cost, true, later), KeyDown(at, at + (if w.gov.cfg.enabled then cost else 0), item), x);
  }

  lemma WriteAccounts(w: World, cost: nat, written: bool, later: Instant, x: Queued)
    requires Shaped(w.sched) && w.phase.Writing?
    ensures Times(Written(w, cost, written, later), x) == Times(w, x)
  {
    if written {
      KeyedAccounts(w, cost, later, x);
    } else {
      RequeueTimes(w.sched, w.phase.item, later, 0, x);
    }
  }

  lemma StopAccounts(w: World, x: Queued)
    requires Shaped(w.sched) && w.phase.Resting?
    ensures Times(Halted(w), x) == Times(w, x)
  {
    AllTimes(w.sched.queues, CLASSES, x);
    EmptyTimes(Halted(w).sched.queues, CLASSES, x);
    AllDropped(w.dropped, AllItems(w.sched.queues, CLASSES), Shutdown, x);
  }

  predicate Deciding(ev: Event) { ev.Take? || ev.Veto? || ev.Decide? }

  predicate Keying(ev: Event) { ev.Reread? || ev.Write? || ev.Account? }

  predicate Branch(ev: Event) { Deciding(ev) || Keying(ev) }

  /** Everything `w` accounts for, `w'` accounts for. */
  predicate SameTimes(w: World, w': World, x: Queued)
    requires Shaped(w.sched)
  {
    Shaped(w'.sched) && Times(w', x) == Times(w, x) && w'.accepted == w.accepted
  }

  lemma DecidingAccounts(cfg: PumpConfig, w: World, ev: Event, x: Queued)
    requires Shaped(w.sched) && Pump.Enabled(w, ev) && Deciding(ev)
    ensures SameTimes(w, Next(cfg, w, ev), x)
  {
    match ev
    case Take(now) => TakeAccounts(w, now, x);
    case Veto => VetoAccounts(cfg.maxFrame, w, x);
    case Decide => DecideAccounts(w, w.gov.cfg.Allowance(), w.gov.cfg.AirtimeFor(w.phase.item.payload.octets), x);
  }

  lemma KeyingAccounts(cfg: PumpConfig, w: World, ev: Event, x: Queued)
    requires Shaped(w.sched) && Pump.Enabled(w, ev) && Keying(ev)
    ensures SameTimes(w, Next(cfg, w, ev), x)
  {
    match ev
    case Reread => RereadAccounts(w, x);
    case Write(written, later) => WriteAccounts(w, w.gov.cfg.AirtimeFor(w.phase.item.payload.octets), written, later, x);
    case Account(victim) => assert Accounted(w, victim).sched.queues == w.sched.queues;
  }

  lemma BranchAccounts(cfg: PumpConfig, w: World, ev: Event, x: Queued)
    requires Shaped(w.sched) && Pump.Enabled(w, ev) && Branch(ev)
    ensures SameTimes(w, Next(cfg, w, ev), x)
  {
    if Deciding(ev) {
      DecidingAccounts(cfg, w, ev, x);
    } else {
      KeyingAccounts(cfg, w, ev, x);
    }
  }

  lemma OtherAccounts(cfg: PumpConfig, w: World, ev: Event, x: Queued)
    requires Shaped(w.sched) && Pump.Enabled(w, ev) && !Branch(ev) && Times(w, x) == w.accepted[x]
    ensures Shaped(Next(cfg, w, ev).sched)
    ensures Times(Next(cfg, w, ev), x) == Next(cfg, w, ev).accepted[x]
  {
    if ev.Enqueue? {
      EnqueueAccounts(w, ItemOf(w, ev), x);
    } else if ev.Purge? {
      PurgeAccounts(w, x);
    } else if ev.ExpireAt? {
      ExpireAccounts(w, ev.now, x);
    } else if ev.Hear? {
      HearAccounts(w, ev.now, x);
    } else if ev.Stop? {
      StopAccounts(w, x);
    }
  }

  /** Frames are told apart by their number, so each is accepted at most once. */
  predicate Numbered(accepted: multiset<Queued>, next: nat) {
    forall x :: x in accepted ==> x.payload.tag < next && accepted[x] == 1
  }

  lemma OfferedNumbered(w: World, item: Queued)
    requires Shaped(w.sched) && Numbered(w.accepted, w.next) && item.payload.tag == w.next
    ensures Numbered(Offered(w, item).accepted, w.next + 1)
  {
    assert w.accepted[item] == 0;
  }

  lemma NextNumbered(cfg: PumpConfig, w: World, ev: Event)
    requires Shaped(w.sched) && Pump.Enabled(w, ev) && Numbered(w.accepted, w.next)
    ensures Numbered(Next(cfg, w, ev).accepted, Next(cfg, w, ev).next)
  {
    if ev.Enqueue? {
      OfferedNumbered(w, ItemOf(w, ev));
    }
  }

  lemma {:induction false} RunAccounts(cfg: PumpConfig, worlds: seq<World>, evs: seq<Event>, n: nat, x: Queued)
    requires IsRun(cfg, worlds, evs) && n < |worlds|
    ensures Times(worlds[n], x) == worlds[n].accepted[x]
  {
    if n == 0 {
      EmptyTimes(worlds[0].sched.queues, CLASSES, x);
    } else {
      RunAccounts(cfg, worlds, evs, n - 1, x);
      if Branch(evs[n - 1]) {
        BranchAccounts(cfg, worlds[n - 1], evs[n - 1], x);
      } else {
        OtherAccounts(cfg, worlds[n - 1], evs[n - 1], x);
      }
    }
  }

  lemma {:induction false} RunNumbered(cfg: PumpConfig, worlds: seq<World>, evs: seq<Event>, n: nat)
    requires IsRun(cfg, worlds, evs) && n < |worlds|
    ensures Numbered(worlds[n].accepted, worlds[n].next)
  {
    if n > 0 {
      RunNumbered(cfg, worlds, evs, n - 1);
      NextNumbered(cfg, worlds[n - 1], evs[n - 1]);
    }
  }

  /** Each accepted frame is in exactly one place, and in it once; nothing else is anywhere. */
  lemma EachFrameInOnePlace(cfg: PumpConfig, worlds: seq<World>, evs: seq<Event>, n: nat, x: Queued)
    requires IsRun(cfg, worlds, evs) && n < |worlds|
    ensures var w := worlds[n];
            QueuedTimes(w.sched, x) + HandTimes(w.phase, x) + KeyedTimes(w.log, |w.log|, x)
            + DroppedTimes(w.dropped, |w.dropped|, x) == (if x in w.accepted then 1 else 0)
  {
    RunAccounts(cfg, worlds, evs, n, x);
    RunNumbered(cfg, worlds, evs, n);
  }

  // ---- Identification, and queue depths ----

  predicate InClass(q: seq<Queued>, c: Class) {
    forall i :: 0 <= i < |q| ==> q[i].class_ == c
  }

  function HandIn(p: Phase, c: Class): nat {
    if InHand(p) && p.item.class_ == c then 1 else 0
  }

  predicate ClassOk(s: SchedState, p: Phase, depth: seq<nat>, c: Class)
    requires Shaped(s) && |depth| == CLASSES
  {
    InClass(s.queues[Index(c)], c) && |s.queues[Index(c)]| + HandIn(p, c) <= depth[Index(c)] + 1
  }

  /** An identification is given up only for its size, or when the station is shut down. */
  predicate IdSafe(dropped: seq<Drop>) {
    forall i :: 0 <= i < |dropped| && dropped[i].item.class_ == Id ==> dropped[i].reason == Oversized || dropped[i].reason == Shutdown
  }

  predicate DepthOk(cfg: PumpConfig, w: World)
    requires |cfg.sched.depth| == CLASSES
  {
    && Shaped(w.sched) && w.sched.cfg.depth == cfg.sched.depth
    && IdSafe(w.dropped)
    && forall c: Class :: ClassOk(w.sched, w.phase, cfg.sched.depth, c)
  }

  lemma {:induction false} SiftInClass(q: seq<Queued>, now: Instant, hold: nat, stale: bool, n: nat, c: Class)
    requires n <= |q| && InClass(q, c)
    ensures InClass(Sift(q, now, hold, stale, n), c) && |Sift(q, now, hold, stale, n)| <= n
  {
    if n > 0 {
      SiftInClass(q, now, hold, stale, n - 1, c);
    }
  }

  predicate NoId(items: seq<Queued>) {
    forall i :: 0 <= i < |items| ==> items[i].class_ != Id
  }

  lemma {:induction false} ExpiredNoId(s: SchedState, now: Instant, n: nat)
    requires Shaped(s) && n <= |EXPIRING| && forall c: Class :: InClass(s.queues[Index(c)], c)
    ensures NoId(ExpiredItems(s, now, n))
  {
    if n > 0 {
      ExpiredNoId(s, now, n - 1);
      var c := EXPIRING[n - 1];
      assert c != Id;
      ExpiredShrinks(s, now, n - 1, c);
      var q := ExpiredQueues(s, now, n - 1)[Index(c)];
      SiftInClass(q, now, s.cfg.maxHold, true, |q|, c);
    }
  }

  lemma {:induction false} ExpiredShrinks(s: SchedState, now: Instant, n: nat, c: Class)
    requires Shaped(s) && n <= |EXPIRING| && InClass(s.queues[Index(c)], c)
    ensures InClass(ExpiredQueues(s, now, n)[Index(c)], c)
    ensures |ExpiredQueues(s, now, n)[Index(c)]| <= |s.queues[Index(c)]|
  {
    if n > 0 {
      ExpiredShrinks(s, now, n - 1, c);
      var q := ExpiredQueues(s, now, n - 1)[Index(c)];
      SiftInClass(q, now, s.cfg.maxHold, false, |q|, c);
      var d := EXPIRING[n - 1];
      assert Index(d) == Index(c) ==> d == c;
    }
  }

  lemma {:induction false} DrainedNoId(s: SchedState, n: nat)
    requires Shaped(s) && n <= |ALL| && forall c: Class :: InClass(s.queues[Index(c)], c)
    ensures NoId(DrainedItems(s, Id, n))
  {
    if n > 0 {
      DrainedNoId(s, n - 1);
      DrainedShrinks(s, Id, n - 1, ALL[n - 1]);
      assert InClass(s.queues[Index(ALL[n - 1])], ALL[n - 1]);
    }
  }

  lemma {:induction false} DrainedShrinks(s: SchedState, keep: Class, n: nat, c: Class)
    requires Shaped(s) && n <= |ALL|
    ensures DrainedQueues(s, keep, n)[Index(c)] == s.queues[Index(c)] || DrainedQueues(s, keep, n)[Index(c)] == []
  {
    if n > 0 {
      DrainedShrinks(s, keep, n - 1, c);
    }
  }

  lemma DropsKeepIdSafe(dropped: seq<Drop>, items: seq<Queued>, reason: Reason)
    requires IdSafe(dropped) && (NoId(items) || reason == Oversized || reason == Shutdown)
    ensures IdSafe(dropped + Drops(items, reason))
  {
  }

  lemma EnqueueDepth(cfg: PumpConfig, w: World, item: Queued)
    requires |cfg.sched.depth| == CLASSES && DepthOk(cfg, w)
    ensures DepthOk(cfg, Offered(w, item))
  {
    forall c: Class ensures ClassOk(Offered(w, item).sched, w.phase, cfg.sched.depth, c) {
      assert ClassOk(w.sched, w.phase, cfg.sched.depth, c);
    }
  }

  lemma PurgeDepth(cfg: PumpConfig, w: World)
    requires |cfg.sched.depth| == CLASSES && DepthOk(cfg, w) && w.phase.Purging?
    ensures DepthOk(cfg, Purged(w))
  {
    forall c: Class ensures InClass(w.sched.queues[Index(c)], c) {
      assert ClassOk(w.sched, w.phase, cfg.sched.depth, c);
    }
    DrainedNoId(w.sched, |ALL|);
    DropsKeepIdSafe(w.dropped, DrainedItems(w.sched, Id, |ALL|), Inhibited);
    forall c: Class ensures ClassOk(Purged(w).sched, Resting, cfg.sched.depth, c) {
      assert ClassOk(w.sched, w.phase, cfg.sched.depth, c);
      DrainedShrinks(w.sched, Id, |ALL|, c);
    }
  }

  lemma ExpireDepth(cfg: PumpConfig, w: World, now: Instant)
    requires |cfg.sched.depth| == CLASSES && DepthOk(cfg, w)
    ensures DepthOk(cfg, Pump.ExpiredAt(w, now))
  {
    forall c: Class ensures InClass(w.sched.queues[Index(c)], c) {
      assert ClassOk(w.sched, w.phase, cfg.sched.depth, c);
    }
    ExpiredNoId(w.sched, now, |EXPIRING|);
    DropsKeepIdSafe(w.dropped, ExpiredItems(w.sched, now, |EXPIRING|), TooOld);
    forall c: Class ensures ClassOk(Pump.ExpiredAt(w, now).sched, w.phase, cfg.sched.depth, c) {
      assert ClassOk(w.sched, w.phase, cfg.sched.depth, c);
      ExpiredShrinks(w.sched, now, |EXPIRING|, c);
    }
  }

  lemma TakeDepth(cfg: PumpConfig, w: World, now: Instant)
    requires |cfg.sched.depth| == CLASSES && DepthOk(cfg, w) && w.phase.Looked?
    ensures DepthOk(cfg, Taken(w, now))
  {
    var w' := Taken(w, now);
    forall c: Class ensures ClassOk(w'.sched, w'.phase, cfg.sched.depth, c) {
      assert ClassOk(w.sched, w.phase, cfg.sched.depth, c);
      var choice := BestOf(w.sched, now, |ALL|);
      if choice.Some? {
        assert ClassOk(w.sched, w.phase, cfg.sched.depth, choice.value.class_);
      }
    }
  }

  /** A frame let go of, or put back: no class holds more than before. */
  lemma ReleaseDepth(cfg: PumpConfig, w: World, w': World)
    requires |cfg.sched.depth| == CLASSES && DepthOk(cfg, w)
    requires Shaped(w'.sched) && w'.sched.cfg.depth == w.sched.cfg.depth && IdSafe(w'.dropped)
    requires w'.sched.queues == w.sched.queues
    requires forall c: Class :: HandIn(w'.phase, c) <= HandIn(w.phase, c)
    ensures DepthOk(cfg, w')
  {
    forall c: Class ensures ClassOk(w'.sched, w'.phase, cfg.sched.depth, c) {
      assert ClassOk(w.sched, w.phase, cfg.sched.depth, c);
    }
  }

  lemma RequeueDepth(cfg: PumpConfig, w: World, w': World, item: Queued)
    requires |cfg.sched.depth| == CLASSES && DepthOk(cfg, w) && InHand(w.phase) && w.phase.item == item
    requires Shaped(w'.sched) && w'.sched.cfg.depth == w.sched.cfg.depth && w'.dropped == w.dropped && w'.phase.Resting?
    requires var i := Index(item.class_); w'.sched.queues == w.sched.queues[i := [item] + w.sched.queues[i]]
    ensures DepthOk(cfg, w')
  {
    forall c: Class ensures ClassOk(w'.sched, w'.phase, cfg.sched.depth, c) {
      assert ClassOk(w.sched, w.phase, cfg.sched.depth, c);
    }
  }

  lemma VetoDepth(cfg: PumpConfig, w: World)
    requires |cfg.sched.depth| == CLASSES && DepthOk(cfg, w) && w.phase.Holding?
    ensures DepthOk(cfg, Vetoed(cfg.maxFrame, w))
  {
    ReleaseDepth(cfg, w, Vetoed(cfg.maxFrame, w));
  }

  lemma DecideDepth(cfg: PumpConfig, w: World, allowance: nat, cost: nat)
    requires |cfg.sched.depth| == CLASSES && DepthOk(cfg, w) && w.phase.Cleared?
    ensures DepthOk(cfg, Decided(w, allowance, cost))
  {
    var w' := Decided(w, allowance, cost);
    var d := Decision(w.gov, allowance, cost, w.phase.at);
    if d.Defer? && !TooLate(w.gov.cfg, w.phase.item, w.phase.at, d.delay) {
      RequeueDepth(cfg, w, w', w.phase.item);
    } else {
      ReleaseDepth(cfg, w, w');
    }
  }

  lemma RereadDepth(cfg: PumpConfig, w: World)
    requires |cfg.sched.depth| == CLASSES && DepthOk(cfg, w) && w.phase.Admitted?
    ensures DepthOk(cfg, Rechecked(w))
  {
    if w.interlockOk {
      ReleaseDepth(cfg, w, Rechecked(w));
    } else {
      RequeueDepth(cfg, w, Rechecked(w), w.phase.item);
    }
  }

  lemma WriteDepth(cfg: PumpConfig, w: World, cost: nat, written: bool, later: Instant)
    requires |cfg.sched.depth| == CLASSES && DepthOk(cfg, w) && w.phase.Writing?
    ensures DepthOk(cfg, Written(w, cost, written, later))
  {
    if written {
      ReleaseDepth(cfg, w, Written(w, cost, written, later));
    } else {
      RequeueDepth(cfg, w, Written(w, cost, written, later), w.phase.item);
    }
  }

  lemma StopDepth(cfg: PumpConfig, w: World)
    requires |cfg.sched.depth| == CLASSES && DepthOk(cfg, w)
    ensures DepthOk(cfg, Halted(w))
  {
    DropsKeepIdSafe(w.dropped, AllItems(w.sched.queues, CLASSES), Shutdown);
    var w' := Halted(w);
    forall c: Class ensures ClassOk(w'.sched, w'.phase, cfg.sched.depth, c) {
      assert w'.sched.queues[Index(c)] == [];
    }
  }

  lemma BranchDepth(cfg: PumpConfig, w: World, ev: Event)
    requires |cfg.sched.depth| == CLASSES && DepthOk(cfg, w)
    requires Pump.Enabled(w, ev) && Branch(ev)
    ensures DepthOk(cfg, Next(cfg, w, ev))
  {
    if ev.Take? {
      TakeDepth(cfg, w, ev.now);
    } else if ev.Veto? {
      VetoDepth(cfg, w);
    } else if ev.Reread? {
      RereadDepth(cfg, w);
    } else if ev.Account? {
      ReleaseDepth(cfg, w, Accounted(w, ev.victim));
    } else {
      var cost := w.gov.cfg.AirtimeFor(w.phase.item.payload.octets);
      if ev.Decide? {
        DecideDepth(cfg, w, w.gov.cfg.Allowance(), cost);
      } else {
        WriteDepth(cfg, w, cost, ev.written, ev.later);
      }
    }
  }

  lemma NextDepth(cfg: PumpConfig, w: World, ev: Event)
    requires |cfg.sched.depth| == CLASSES && DepthOk(cfg, w) && Pump.Enabled(w, ev)
    ensures DepthOk(cfg, Next(cfg, w, ev))
  {
    if Branch(ev) {
      BranchDepth(cfg, w, ev);
    } else if ev.Enqueue? {
      EnqueueDepth(cfg, w, ItemOf(w, ev));
    } else if ev.Purge? {
      PurgeDepth(cfg, w);
    } else if ev.ExpireAt? {
      ExpireDepth(cfg, w, ev.now);
    } else if ev.Stop? {
      StopDepth(cfg, w);
    } else {
      ReleaseDepth(cfg, w, Next(cfg, w, ev));
    }
  }

  lemma {:induction false} RunDepth(cfg: PumpConfig, worlds: seq<World>, evs: seq<Event>, n: nat)
    requires IsRun(cfg, worlds, evs) && n < |worlds|
    ensures DepthOk(cfg, worlds[n])
  {
    if n > 0 {
      RunDepth(cfg, worlds, evs, n - 1);
      NextDepth(cfg, worlds[n - 1], evs[n - 1]);
    } else {
      forall c: Class ensures ClassOk(worlds[0].sched, worlds[0].phase, cfg.sched.depth, c) {
        assert worlds[0].sched.queues[Index(c)] == [];
      }
    }
  }

  /** An identification is never dropped by inhibit, age or deferral; and a class queue, with the
      frame in hand, never exceeds its depth plus one. */
  lemma IdsAndDepths(cfg: PumpConfig, worlds: seq<World>, evs: seq<Event>, n: nat, i: nat, c: Class)
    requires IsRun(cfg, worlds, evs) && n < |worlds|
    ensures i < |worlds[n].dropped| && worlds[n].dropped[i].item.class_ == Id ==>
              worlds[n].dropped[i].reason == Oversized || worlds[n].dropped[i].reason == Shutdown
    ensures |worlds[n].sched.queues[Index(c)]| + HandIn(worlds[n].phase, c) <= cfg.sched.depth[Index(c)] + 1
  {
    RunDepth(cfg, worlds, evs, n);
    assert ClassOk(worlds[n].sched, worlds[n].phase, cfg.sched.depth, c);
  }
}
