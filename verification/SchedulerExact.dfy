/** The scheduler's answers, from what it holds: which frame of a class goes, when the transmitter
    may be keyed, what an account has left, what leaves the queues, and whether forgetting an
    account costs or gives it anything. */
module SchedulerExact {
  import opened Common
  import opened Scheduling
  import opened SchedulerRuns
  import Overtaking

  // ---- Which frame is taken ----

  /** The account of the frame has, now, the airtime it costs. */
  predicate Affordable(s: SchedState, item: Queued, now: Instant) {
    Tokens(s.cfg, s.buckets, item.account, now) >= item.cost as real / 1_000_000.0
  }

  /** Frame `i` of a class is the first its account can pay for, or no account can and it is the first. */
  predicate FirstAffordable(s: SchedState, q: seq<Queued>, i: nat, now: Instant) {
    && i < |q|
    && (Affordable(s, q[i], now) || i == 0)
    && (forall j :: 0 <= j < i ==> !Affordable(s, q[j], now))
    && (!Affordable(s, q[i], now) ==> forall j :: 0 <= j < |q| ==> !Affordable(s, q[j], now))
  }

  lemma CandidateIsFirst(s: SchedState, q: seq<Queued>, now: Instant)
    requires q != []
    ensures FirstAffordable(s, q, Candidate(s, q, now), now)
  {
    var i := FirstFunded(s, q, now, 0);
    forall j | 0 <= j < i ensures !Affordable(s, q[j], now) {
      NotFundedBefore(s, q, now, 0, j);
    }
    if i < |q| {
      FirstIsFunded(s, q, now, 0);
    }
  }

  /** Something is popped unless every queue is empty: from one class, its first affordable frame,
      or its head. The rest of that queue and the other queues stay as they are. */
  lemma PopTakes(s: SchedState, now: Instant)
    requires Shaped(s) && ClassesOk(s)
    ensures var (s', item) := Popped(s, now);
            && (item.None? <==> forall i :: 0 <= i < |s.queues| ==> s.queues[i] == [])
            && (item.None? ==> s' == s)
            && (item.Some? ==>
                  var c := Index(item.value.class_);
                  exists i: nat :: FirstAffordable(s, s.queues[c], i, now) && s.queues[c][i] == item.value
                              && s' == s.(queues := s.queues[c := s.queues[c][..i] + s.queues[c][i + 1..]]))
  {
    BestIsEarlier(s, now, |ALL|);
    if i :| 0 <= i < |s.queues| && s.queues[i] != [] {
      var m := 4 - i;
      assert Index(ALL[m]) == i;
      BestDominates(s, now, |ALL|, m);
    }
    var best := BestOf(s, now, |ALL|);
    if best.Some? {
      CandidateIsFirst(s, s.queues[Index(best.value.class_)], now);
    }
  }

  /** Of frames that wait equally long and are both affordable, or both not, the popped one is of the
      higher class: identification, acknowledgement, control, direct, chat. */
  lemma HigherClassFirst(s: SchedState, now: Instant, a: Queued, b: Queued)
    requires Shaped(s) && ClassesOk(s)
    requires s.queues[Index(a.class_)] != []
    requires a == s.queues[Index(a.class_)][Candidate(s, s.queues[Index(a.class_)], now)]
    requires Popped(s, now).1 == Some(b) && a.queuedAt == b.queuedAt <= now
    requires Affordable(s, a, now) <==> Affordable(s, b, now)
    ensures match b.class_
            case Chat => a.class_ == Chat
            case Direct => a.class_ in {Chat, Direct}
            case Control => a.class_ in {Chat, Direct, Control}
            case Ack => a.class_ != Id
            case Id => true
  {
    PoppedScores(s, now, a, b);
    assert Score(s, b, now) - Index(b.class_) as real == Score(s, a, now) - Index(a.class_) as real;
  }

  // ---- When the transmitter may be keyed ----

  /** Waiting as long as told makes it ready, and not a moment less does. */
  lemma WaitIsExact(s: SchedState, now: Instant, t: Instant)
    requires PollAt(s, now).Wait?
    ensures PollAt(s, now).delay > 0
    ensures PollAt(s, t) == Ready <==> t >= now + PollAt(s, now).delay
  {
  }

  predicate HoldsSomething(s: SchedState) {
    exists i :: 0 <= i < |s.queues| && s.queues[i] != []
  }

  /** What holds the transmitter: the pacing gap, a reply that is awaited, the guard after reception. */
  predicate NothingHolds(s: SchedState, t: Instant) {
    && (s.paceUntil.Some? ==> t >= s.paceUntil.value)
    && (s.replyUntil.Some? ==> t >= s.replyUntil.value)
    && (s.lastHeard.Some? ==> t >= s.lastHeard.value + s.cfg.rxGuard)
  }

  lemma ReadyExactly(s: SchedState, t: Instant)
    ensures PollAt(s, t) == Ready <==> HoldsSomething(s) && NothingHolds(s, t)
    ensures PollAt(s, t) == Idle <==> !HoldsSomething(s)
  {
  }

  /** After a transmission of `keyed` that began at `now`: the gap after its end, the reply window after
      its end if it asked for a reply, and the guard after what was heard before. */
  lemma ReadyAfterKeyDown(s: SchedState, now: Instant, account: string, keyed: nat, expectsReply: bool, victim: string, t: Instant)
    requires HoldsSomething(s)
    ensures PollAt(Keyed(s, now, account, keyed, expectsReply, victim), t) == Ready <==>
              && t >= now + keyed + s.cfg.minGap
              && (expectsReply ==> t >= now + keyed + s.cfg.replyWindow)
              && (s.lastHeard.Some? ==> t >= s.lastHeard.value + s.cfg.rxGuard)
  {
    ReadyExactly(Keyed(s, now, account, keyed, expectsReply, victim), t);
  }

  /** After reception at `now` no reply is awaited any more, and the guard runs from there. */
  lemma ReadyAfterReception(s: SchedState, now: Instant, t: Instant)
    requires HoldsSomething(s)
    ensures PollAt(Heard(s, now), t) == Ready <==>
              t >= now + s.cfg.rxGuard && (s.paceUntil.Some? ==> t >= s.paceUntil.value)
  {
    ReadyExactly(Heard(s, now), t);
  }

  /** After a frame was put off by `delay` at `now`: not before, and no earlier than without it. */
  lemma ReadyAfterRequeue(s: SchedState, item: Queued, now: Instant, delay: nat, t: Instant)
    requires Shaped(s)
    ensures PollAt(Requeued(s, item, now, delay), t) == Ready <==> t >= now + delay && NothingHolds(s, t)
  {
    var s' := Requeued(s, item, now, delay);
    assert s'.queues[Index(item.class_)] != [];
    ReadyExactly(s', t);
  }

  // ---- What an account has left ----

  /** A charge of `keyed` at `now`: the account is left with that much less, but for the floor. */
  lemma ChargedExactly(s: SchedState, now: Instant, account: string, keyed: nat, expectsReply: bool, victim: string)
    requires CreditOk(s.cfg, s.buckets) && s.cfg.stationRate >= 0.0
    ensures var s' := Keyed(s, now, account, keyed, expectsReply, victim);
            var floor := -(s.cfg.stationBurst as real / 1_000_000.0) * (if s.cfg.maxDeficit >= 0.0 then s.cfg.maxDeficit else 0.0);
            var left := Tokens(s.cfg, s.buckets, account, now) - keyed as real / 1_000_000.0;
            Tokens(s'.cfg, s'.buckets, account, now) == if left >= floor then left else floor
  {
    TokensBounded(s.cfg, s.buckets, account, now);
    FloorBelowBurst(s.cfg);
  }

  /** Nobody else is charged, nor forgotten unless the table is full. */
  lemma OthersKeepCredit(s: SchedState, now: Instant, account: string, keyed: nat, expectsReply: bool, victim: string,
                         other: string, t: Instant)
    requires other != account
    requires other == victim ==> |s.buckets| < s.cfg.maxAccounts || account in s.buckets
    ensures var s' := Keyed(s, now, account, keyed, expectsReply, victim);
            Tokens(s'.cfg, s'.buckets, other, t) == Tokens(s.cfg, s.buckets, other, t)
  {
  }

  /** A full table makes room for a new account by forgetting one that was charged no later than any other. */
  lemma QuietestGoes(s: SchedState, now: Instant, account: string, keyed: nat, expectsReply: bool, victim: string, other: string)
    requires NeedsEviction(s.cfg, s.buckets, account) ==> IsOldest(Lasts(s.buckets), victim)
    requires other in s.buckets && other !in Keyed(s, now, account, keyed, expectsReply, victim).buckets
    ensures other == victim && |s.buckets| >= s.cfg.maxAccounts && account !in s.buckets
    ensures forall k :: k in s.buckets ==> s.buckets[other].last <= s.buckets[k].last
  {
    forall k | k in s.buckets ensures s.buckets[other].last <= s.buckets[k].last {
      assert Lasts(s.buckets)[other] <= Lasts(s.buckets)[k];
    }
  }

  lemma Earned(tokens: real, burst: real, rate: real, x: real, y: real)
    requires x >= 0.0 && y >= 0.0 && rate >= 0.0
    ensures MinReal(MinReal(tokens + x * rate, burst) + y * rate, burst) == MinReal(tokens + (x + y) * rate, burst)
  {
    assert (x + y) * rate == x * rate + y * rate;
    assert y * rate >= 0.0;
  }

  /** Credit is earned with time at the station's rate up to a full burst, which is what an account
      not known has. */
  lemma CreditGrows(s: SchedState, account: string, now: Instant, d: nat)
    requires s.cfg.stationRate >= 0.0 && (account in s.buckets ==> s.buckets[account].last <= now)
    ensures var burst := s.cfg.stationBurst as real / 1_000_000.0;
            var later := Tokens(s.cfg, s.buckets, account, now) + d as real / 1_000_000.0 * s.cfg.stationRate;
            && Tokens(s.cfg, s.buckets, account, now + d) == (if later <= burst then later else burst)
            && (account !in s.buckets ==> Tokens(s.cfg, s.buckets, account, now) == burst)
  {
    if account in s.buckets {
      var b := s.buckets[account];
      var x, y := Secs(now - b.last), Secs(d);
      Earned(b.tokens, Secs(s.cfg.stationBurst), s.cfg.stationRate, x, y);
      assert Secs(now + d - b.last) == x + y;
    } else {
      assert Secs(d) * s.cfg.stationRate >= 0.0;
    }
  }

  // ---- What leaves the queues ----

  /** It has been queued for longer than `hold`. */
  predicate Overdue(item: Queued, now: Instant, hold: nat) {
    now - item.queuedAt > hold
  }

  lemma {:induction false} SiftedExactly(q: seq<Queued>, now: Instant, hold: nat, stale: bool, n: nat, x: Queued)
    requires n <= |q|
    ensures x in Sift(q, now, hold, stale, n) <==> x in q[..n] && (Overdue(x, now, hold) <==> stale)
  {
    if n > 0 {
      SiftedExactly(q, now, hold, stale, n - 1, x);
      assert q[..n] == q[..n - 1] + [q[n - 1]];
    }
  }

  /** Whatever holds between each frame and the ones behind it. */
  ghost predicate Related(r: (Queued, Queued) -> bool, q: seq<Queued>) {
    forall i, j :: 0 <= i < j < |q| ==> r(q[i], q[j])
  }

  lemma {:induction false} SiftedInOrder(r: (Queued, Queued) -> bool, q: seq<Queued>, now: Instant, hold: nat, stale: bool, n: nat)
    requires n <= |q| && Related(r, q)
    ensures Related(r, Sift(q, now, hold, stale, n))
    ensures forall k :: 0 <= k < |Sift(q, now, hold, stale, n)| ==> Sift(q, now, hold, stale, n)[k] in q[..n]
  {
    if n > 0 {
      SiftedInOrder(r, q, now, hold, stale, n - 1);
      var before := Sift(q, now, hold, stale, n - 1);
      assert q[..n] == q[..n - 1] + [q[n - 1]];
      forall k | 0 <= k < |before| ensures r(before[k], q[n - 1]) {
        var j :| 0 <= j < n - 1 && q[..n - 1][j] == before[k];
      }
    }
  }

  /** Expiry takes out of the chat, direct and control queues exactly what has been held too long, and
      nothing out of the others; what stays keeps its order. */
  lemma ExpiryExactly(s: SchedState, now: Instant, c: Class, x: Queued, r: (Queued, Queued) -> bool)
    requires Shaped(s)
    ensures var q, q' := s.queues[Index(c)], Scheduling.Expired(s, now).queues[Index(c)];
            && (c == Ack || c == Id ==> q' == q)
            && (c != Ack && c != Id ==> (x in q' <==> x in q && !Overdue(x, now, s.cfg.maxHold)))
            && (Related(r, q) ==> Related(r, q'))
  {
    var q := s.queues[Index(c)];
    SchedulerRuns.ExpiredAt(s, now, c);
    SiftedExactly(q, now, s.cfg.maxHold, false, |q|, x);
    assert q[..|q|] == q;
    if Related(r, q) {
      SiftedInOrder(r, q, now, s.cfg.maxHold, false, |q|);
    }
  }

  /** A drain that keeps one class empties the others and leaves that one alone. */
  lemma DrainExactly(s: SchedState, keep: Class, c: Class)
    requires Shaped(s)
    ensures DrainedQueues(s, keep, |ALL|)[Index(c)] == if c == keep then s.queues[Index(c)] else []
  {
    DrainedAt(s, keep, |ALL|, c);
  }

  /** A frame is queued behind its class, unless that already holds as many as it may. */
  lemma PushExactly(s: SchedState, item: Queued, c: Class)
    requires Shaped(s)
    ensures var q, q' := s.queues[Index(c)], Pushed(s, item).queues[Index(c)];
            q' == if c == item.class_ && |q| < s.cfg.depth[Index(c)] then q + [item] else q
  {
    assert Index(c) == Index(item.class_) ==> c == item.class_;
  }

  // ---- Forgetting accounts ----

  function Forget(s: SchedState, now: Instant, idle: nat): SchedState {
    s.(buckets := s.buckets - IdleAccounts(s.buckets, now, idle))
  }

  /** Long enough, at the station's rate, to get from the floor to a full burst. */
  predicate EarnsAll(cfg: SchedulerConfig, idle: nat) {
    idle as real / 1_000_000.0 * cfg.stationRate
      >= cfg.stationBurst as real / 1_000_000.0 * (1.0 + (if cfg.maxDeficit >= 0.0 then cfg.maxDeficit else 0.0))
  }

  /** In every run, forgetting the accounts idle for so long changes nobody's credit then or later. */
  ghost predicate Harmless(cfg: SchedulerConfig, idle: nat) {
    forall runs: seq<Run>, evs: seq<Event>, n: nat, now: Instant, account: string, t: Instant ::
      ReachedAt(cfg, runs, evs, n) && t >= now ==>
      Tokens(cfg, Forget(runs[n].s, now, idle).buckets, account, t) == Tokens(cfg, runs[n].s.buckets, account, t)
  }

  ghost predicate ReachedAt(cfg: SchedulerConfig, runs: seq<Run>, evs: seq<Event>, n: nat) {
    IsRun(cfg, runs, evs) && n < |runs|
  }

  lemma FullAgain(cfg: SchedulerConfig, b: Bucket, idle: nat, d: nat)
    requires cfg.stationRate >= 0.0 && EarnsAll(cfg, idle) && b.tokens >= DeficitFloor(cfg) && d >= idle
    ensures b.tokens + Secs(d) * cfg.stationRate >= Secs(cfg.stationBurst)
  {
    var burst := Secs(cfg.stationBurst);
    assert Secs(d) * cfg.stationRate >= Secs(idle) * cfg.stationRate by { Overtaken(Secs(idle), Secs(d), cfg.stationRate); }
    assert burst * (1.0 + MaxReal(cfg.maxDeficit, 0.0)) == burst - DeficitFloor(cfg);
  }

  lemma Overtaken(x: real, y: real, rate: real)
    requires x <= y && rate >= 0.0
    ensures x * rate <= y * rate
  {
  }

  lemma LongIsHarmless(cfg: SchedulerConfig, s: SchedState, now: Instant, idle: nat, account: string, t: Instant)
    requires CreditOk(cfg, s.buckets) && t >= now && cfg.stationRate >= 0.0 && EarnsAll(cfg, idle)
    ensures Tokens(cfg, Forget(s, now, idle).buckets, account, t) == Tokens(cfg, s.buckets, account, t)
  {
    if account in IdleAccounts(s.buckets, now, idle) {
      FullAgain(cfg, s.buckets[account], idle, Since(t, s.buckets[account].last));
    }
  }

  /** A charge large enough leaves an account at its floor. */
  lemma Ruined(cfg: SchedulerConfig, account: string) returns (keyed: nat)
    ensures Left(cfg, map[], account, 0, keyed) == DeficitFloor(cfg)
  {
    var debt := Secs(cfg.stationBurst) - DeficitFloor(cfg);
    FloorBelowBurst(cfg);
    keyed := (debt * 1_000_000.0).Floor + 1;
    assert keyed as real >= debt * 1_000_000.0;
  }

  /** A run that leaves an account at its floor. */
  lemma AtFloor(cfg: SchedulerConfig, c: Class) returns (t: Trace<Run, Event>)
    requires |cfg.depth| == CLASSES && cfg.depth[Index(c)] > 0
    ensures IsRun(cfg, t.states, t.events) && t.Whole()
    ensures t.Last().s.cfg == cfg && t.Last().s.buckets == map["" := Bucket(DeficitFloor(cfg), 0)]
  {
    var keyed := Ruined(cfg, "");
    t := Trace([Run(NewScheduler(cfg), None, 0)], []);
    var item := Overtaking.Frame(0, c, "", 0);
    t := Overtaking.Extend(cfg, t, Push(item), SchedulerRuns.Next(t.Last(), Push(item)));
    assert Only(t.Last().s, c, [item]);
    PopsOnly(t.Last().s, c, [item], 0);
    t := Overtaking.Extend(cfg, t, Pop(0), SchedulerRuns.Next(t.Last(), Pop(0)));
    t := Overtaking.Extend(cfg, t, KeyDown(0, keyed, ""), SchedulerRuns.Next(t.Last(), KeyDown(0, keyed, "")));
  }

  lemma ShortIsHarmful(cfg: SchedulerConfig, c: Class, idle: nat)
    requires |cfg.depth| == CLASSES && cfg.depth[Index(c)] > 0 && cfg.stationRate >= 0.0 && !EarnsAll(cfg, idle)
    ensures !Harmless(cfg, idle)
  {
    var t := AtFloor(cfg, c);
    var n := |t.events|;
    assert ReachedAt(cfg, t.states, t.events, n);
    var buckets := t.states[n].s.buckets;
    var burst := Secs(cfg.stationBurst);
    assert burst * (1.0 + MaxReal(cfg.maxDeficit, 0.0)) == burst - DeficitFloor(cfg);
    assert Tokens(cfg, buckets, "", idle) < burst;
    assert "" !in Forget(t.states[n].s, idle, idle).buckets;
    assert Tokens(cfg, Forget(t.states[n].s, idle, idle).buckets, "", idle) != Tokens(cfg, t.states[n].s.buckets, "", idle);
  }

  /** Forgetting idle accounts is harmless, over all runs, exactly if the idle time earns the way from
      the deepest debt to a full burst. */
  lemma HarmlessExactly(cfg: SchedulerConfig, c: Class, idle: nat)
    requires |cfg.depth| == CLASSES && cfg.depth[Index(c)] > 0 && cfg.stationRate >= 0.0
    ensures Harmless(cfg, idle) <==> EarnsAll(cfg, idle)
  {
    if EarnsAll(cfg, idle) {
      forall runs: seq<Run>, evs: seq<Event>, n: nat, now: Instant, account: string, t: Instant | ReachedAt(cfg, runs, evs, n) && t >= now
        ensures Tokens(cfg, Forget(runs[n].s, now, idle).buckets, account, t) == Tokens(cfg, runs[n].s.buckets, account, t)
      {
        CreditBounded(cfg, runs, evs, n);
        LongIsHarmless(cfg, runs[n].s, now, idle, account, t);
      }
    } else {
      ShortIsHarmful(cfg, c, idle);
    }
  }
}
