/** Priority, ageing and funding: how far one frame can overtake another. */
module SchedulerRuns {
  import opened Common
  import opened Scheduling

  // ---- Bounded overtaking between classes ----

  predicate ClassesOk(s: SchedState)
    requires Shaped(s)
  {
    forall c: Class, i :: 0 <= i < |s.queues[Index(c)]| ==> s.queues[Index(c)][i].class_ == c
  }

  /** The best offer scores no less than any other, and strictly more than a higher class's. */
  lemma {:induction false} BestDominates(s: SchedState, now: Instant, n: nat, m: nat)
    requires Shaped(s) && m < n <= |ALL| && s.queues[Index(ALL[m])] != []
    ensures var best := BestOf(s, now, n);
            && best.Some?
            && best.value.score >= Offer(s, ALL[m], now).score
            && (Index(best.value.class_) < Index(ALL[m]) ==> best.value.score > Offer(s, ALL[m], now).score)
  {
    BestIsEarlier(s, now, n - 1);
    if m < n - 1 {
      BestDominates(s, now, n - 1, m);
    }
  }

  lemma {:induction false} BestIsEarlier(s: SchedState, now: Instant, n: nat)
    requires Shaped(s) && n <= |ALL|
    ensures var best := BestOf(s, now, n);
            best.Some? ==> best.value == Offer(s, best.value.class_, now) && Index(best.value.class_) >= CLASSES - n
  {
    if n > 0 {
      BestIsEarlier(s, now, n - 1);
    }
  }

  lemma PoppedScores(s: SchedState, now: Instant, a: Queued, b: Queued)
    requires Shaped(s) && ClassesOk(s) && s.queues[Index(a.class_)] != []
    requires a == s.queues[Index(a.class_)][Candidate(s, s.queues[Index(a.class_)], now)]
    requires Popped(s, now).1 == Some(b)
    ensures Score(s, b, now) >= Score(s, a, now)
    ensures Index(b.class_) < Index(a.class_) ==> Score(s, b, now) > Score(s, a, now)
  {
    var m := 4 - Index(a.class_);
    assert ALL[m] == a.class_;
    BestDominates(s, now, |ALL|, m);
    BestIsEarlier(s, now, |ALL|);
  }

  /** The handicap of a frame whose account cannot pay for it now. */
  function Handicap(s: SchedState, item: Queued, now: Instant): real {
    if Tokens(s.cfg, s.buckets, item.account, now) < item.cost as real / 1_000_000.0 then s.cfg.unfundedPenalty else 0.0
  }

  /** Ageing, in seconds and no less than a millisecond. */
  function AgingTime(cfg: SchedulerConfig): real {
    if cfg.aging >= 1_000 then cfg.aging as real / 1_000_000.0 else 0.001
  }

  lemma Ages(k: real, ageA: real, ageB: real, g: real)
    requires g > 0.0
    ensures k + ageB / g >= ageA / g ==> ageA - ageB <= k * g
    ensures k + ageB / g > ageA / g ==> ageA - ageB < k * g
  {
    var x, y := ageB / g, ageA / g;
    assert x * g == ageB && y * g == ageA;
    assert (k + x - y) * g == k * g + ageB - ageA;
  }

  lemma ScoreParts(s: SchedState, now: Instant, item: Queued, age: real)
    requires item.queuedAt <= now && age == Secs(now - item.queuedAt)
    ensures Score(s, item, now) == Index(item.class_) as real + age / AgingTime(s.cfg) - Handicap(s, item, now)
  {
    assert AgingTime(s.cfg) == AgingSecs(s.cfg);
  }

  lemma LeadIs(a: Instant, b: Instant, now: Instant)
    ensures (b - a) as real / 1_000_000.0 == Secs(now - a) - Secs(now - b)
  {
  }

  predicate Within(lead: real, k: real, g: real) { lead <= k * g }

  predicate Below(lead: real, k: real, g: real) { lead < k * g }

  /** Scores compared as what they are made of. */
  lemma Compared(ia: real, ib: real, ha: real, hb: real, ageA: real, ageB: real, g: real, k: real, sa: real, sb: real)
    requires g > 0.0 && k == ib - ia + ha - hb
    requires sa == ia + ageA / g - ha && sb == ib + ageB / g - hb
    ensures sb >= sa ==> Within(ageA - ageB, k, g)
    ensures sb > sa ==> Below(ageA - ageB, k, g)
  {
    Ages(k, ageA, ageB, g);
  }

  lemma ScoresDiffer(s: SchedState, now: Instant, a: Queued, b: Queued, lead: real, k: real, g: real)
    requires a.queuedAt <= now && b.queuedAt <= now && g == AgingTime(s.cfg)
    requires lead == Secs(now - a.queuedAt) - Secs(now - b.queuedAt)
    requires k == Index(b.class_) as real - Index(a.class_) as real + Handicap(s, a, now) - Handicap(s, b, now)
    ensures Score(s, b, now) >= Score(s, a, now) ==> Within(lead, k, g)
    ensures Score(s, b, now) > Score(s, a, now) ==> Below(lead, k, g)
  {
    var ageA, ageB := Secs(now - a.queuedAt), Secs(now - b.queuedAt);
    ScoreParts(s, now, a, ageA);
    ScoreParts(s, now, b, ageB);
    Compared(Index(a.class_) as real, Index(b.class_) as real, Handicap(s, a, now), Handicap(s, b, now), ageA, ageB, g, k,
             Score(s, a, now), Score(s, b, now));
  }

  /** How many classes `b` is ahead of `a`, the handicap of either counted. */
  function Ahead(s: SchedState, now: Instant, a: Queued, b: Queued): real {
    Index(b.class_) as real - Index(a.class_) as real + Handicap(s, a, now) - Handicap(s, b, now)
  }

  lemma LeadBounded(s: SchedState, now: Instant, a: Queued, b: Queued)
    requires a.queuedAt <= now && b.queuedAt <= now
    ensures var lead := (b.queuedAt - a.queuedAt) as real / 1_000_000.0;
            && (Score(s, b, now) >= Score(s, a, now) ==> Within(lead, Ahead(s, now, a, b), AgingTime(s.cfg)))
            && (Score(s, b, now) > Score(s, a, now) ==> Below(lead, Ahead(s, now, a, b), AgingTime(s.cfg)))
  {
    var lead := (b.queuedAt - a.queuedAt) as real / 1_000_000.0;
    LeadIs(a.queuedAt, b.queuedAt, now);
    ScoresDiffer(s, now, a, b, lead, Ahead(s, now, a, b), AgingTime(s.cfg));
  }

  /** A frame `b` popped while `a` is what its own class offers was queued after `a` by no more than
      an ageing time for each class it is ahead, and by strictly less if it is of the lower class. */
  lemma BoundedOvertaking(s: SchedState, now: Instant, a: Queued, b: Queued)
    requires Shaped(s) && ClassesOk(s)
    requires s.queues[Index(a.class_)] != []
    requires a == s.queues[Index(a.class_)][Candidate(s, s.queues[Index(a.class_)], now)]
    requires Popped(s, now).1 == Some(b) && a.queuedAt <= now && b.queuedAt <= now
    ensures (b.queuedAt - a.queuedAt) as real / 1_000_000.0 <= Ahead(s, now, a, b) * AgingTime(s.cfg)
    ensures Index(b.class_) < Index(a.class_) ==>
              (b.queuedAt - a.queuedAt) as real / 1_000_000.0 < Ahead(s, now, a, b) * AgingTime(s.cfg)
  {
    var lead := (b.queuedAt - a.queuedAt) as real / 1_000_000.0;
    PoppedScores(s, now, a, b);
    LeadBounded(s, now, a, b);
    assert Within(lead, Ahead(s, now, a, b), AgingTime(s.cfg));
  }

  // ---- One class alone ----

  /** Nothing is queued but `q`, in one class. */
  predicate Only(s: SchedState, c: Class, q: seq<Queued>) {
    Shaped(s) && forall d: Class :: s.queues[Index(d)] == if d == c then q else []
  }

  /** The class that alone has frames offers the next one. */
  lemma {:induction false} BestOfOnly(s: SchedState, c: Class, q: seq<Queued>, now: Instant, n: nat)
    requires Only(s, c, q) && q != [] && n <= |ALL|
    ensures BestOf(s, now, n) == if Index(c) >= CLASSES - n then Some(Offer(s, c, now)) else None
  {
    if n > 0 {
      BestOfOnly(s, c, q, now, n - 1);
      assert Index(ALL[n - 1]) == CLASSES - n;
      assert Index(ALL[n - 1]) == Index(c) ==> ALL[n - 1] == c;
    }
  }

  lemma PopsOnly(s: SchedState, c: Class, q: seq<Queued>, now: Instant)
    requires Only(s, c, q) && q != []
    ensures var i := Candidate(s, q, now);
            Popped(s, now) == (s.(queues := s.queues[Index(c) := Without(q, i)]), Some(q[i]))
  {
    BestOfOnly(s, c, q, now, |ALL|);
  }

  // ---- Order within a class ----

  /** `a` may stand before `b`: a frame behind it that arrived earlier, for the same account,
      costs more, and `a` itself costs no more than an account can ever hold. */
  predicate MayPrecede(burst: nat, a: Queued, b: Queued) {
    a.account == b.account && b.payload.tag < a.payload.tag ==> a.cost < b.cost && a.cost <= burst
  }

  predicate OrderedQueue(burst: nat, q: seq<Queued>) {
    forall i, j :: 0 <= i < j < |q| ==> MayPrecede(burst, q[i], q[j])
  }

  predicate Heads(burst: nat, a: Queued, q: seq<Queued>) {
    forall i :: 0 <= i < |q| ==> MayPrecede(burst, a, q[i])
  }

  predicate TagsBelow(q: seq<Queued>, n: nat) {
    forall i :: 0 <= i < |q| ==> q[i].payload.tag < n
  }

  /** Every element of `p` occurs in `q`. */
  predicate From(p: seq<Queued>, q: seq<Queued>) {
    forall i :: 0 <= i < |p| ==> p[i] in q
  }

  lemma {:induction false} NotFundedBefore(s: SchedState, q: seq<Queued>, now: Instant, from: nat, i: nat)
    requires from <= i < |q| && i < FirstFunded(s, q, now, from)
    ensures !Funded(s, q[i], now)
    decreases |q| - from
  {
    if i > from {
      NotFundedBefore(s, q, now, from + 1, i);
    }
  }

  lemma {:induction false} FirstIsFunded(s: SchedState, q: seq<Queued>, now: Instant, from: nat)
    requires from <= |q| && FirstFunded(s, q, now, from) < |q|
    ensures Funded(s, q[FirstFunded(s, q, now, from)], now)
    decreases |q| - from
  {
    if from < |q| && !Funded(s, q[from], now) {
      FirstIsFunded(s, q, now, from + 1);
    }
  }

  /** The frame a class offers may leave: earlier frames of its account cost more. */
  lemma CandidateHeads(s: SchedState, q: seq<Queued>, now: Instant)
    requires q != [] && OrderedQueue(s.cfg.stationBurst, q)
    ensures Heads(s.cfg.stationBurst, q[Candidate(s, q, now)], Without(q, Candidate(s, q, now)))
  {
    var c := Candidate(s, q, now);
    var rest := Without(q, c);
    forall i | 0 <= i < |rest| ensures MayPrecede(s.cfg.stationBurst, q[c], rest[i]) {
      if i < c {
        NotFundedBefore(s, q, now, 0, i);
        FirstIsFunded(s, q, now, 0);
      } else {
        assert rest[i] == q[i + 1];
      }
    }
  }

  lemma {:induction false} SiftKeepsOrder(burst: nat, q: seq<Queued>, now: Instant, hold: nat, stale: bool, n: nat)
    requires n <= |q|
    ensures From(Sift(q, now, hold, stale, n), q[..n])
    ensures OrderedQueue(burst, q) ==> OrderedQueue(burst, Sift(q, now, hold, stale, n))
  {
    if n > 0 {
      SiftKeepsOrder(burst, q, now, hold, stale, n - 1);
      assert q[..n] == q[..n - 1] + [q[n - 1]];
      var before := Sift(q, now, hold, stale, n - 1);
      if OrderedQueue(burst, q) {
        forall i | 0 <= i < |before| ensures MayPrecede(burst, before[i], q[n - 1]) {
          var j :| 0 <= j < n - 1 && q[..n - 1][j] == before[i];
        }
      }
    }
  }

  lemma HeadsFrom(burst: nat, a: Queued, p: seq<Queued>, q: seq<Queued>)
    requires Heads(burst, a, q) && From(p, q)
    ensures Heads(burst, a, p)
  {
    forall i | 0 <= i < |p| ensures MayPrecede(burst, a, p[i]) {
      var j :| 0 <= j < |q| && q[j] == p[i];
    }
  }

  /** A scheduler, the frame taken from it but not yet keyed, and how many were offered so far;
      a frame's tag is its place in that count. */
  datatype Run = Run(s: SchedState, hand: Option<Queued>, next: nat)

  datatype Event =
    | Push(item: Queued)
    | Pop(now: Instant)
    | Requeue(now: Instant, delay: nat)
    | Discard
    | KeyDown(now: Instant, keyed: nat, victim: string)
    | Hear(now: Instant)
    | Expire(now: Instant)
    | DrainExcept(keep: Class)
    | SetGap(gap: nat)
    | ExpireAccounts(now: Instant, idle: nat)

  ghost predicate Enabled(r: Run, ev: Event) {
    match ev
    case Push(item) => item.payload.tag == r.next
    case Pop(_) => r.hand.None?
    case Requeue(_, _) => r.hand.Some?
    case KeyDown(_, _, victim) =>
      && r.hand.Some?
      && (NeedsEviction(r.s.cfg, r.s.buckets, r.hand.value.account) ==> IsOldest(Lasts(r.s.buckets), victim))
    case _ => true
  }

  function Next(r: Run, ev: Event): Run
    requires Shaped(r.s) && (ev.Requeue? || ev.KeyDown? ==> r.hand.Some?)
  {
    match ev
    case Push(item) => r.(s := Pushed(r.s, item), next := r.next + 1)
    case Pop(now) => r.(s := Popped(r.s, now).0, hand := Popped(r.s, now).1)
    case Requeue(now, delay) => r.(s := Requeued(r.s, r.hand.value, now, delay), hand := None)
    case Discard => r.(hand := None)
    case KeyDown(now, keyed, victim) =>
      r.(s := Keyed(r.s, now, r.hand.value.account, keyed, r.hand.value.expectsReply, victim), hand := None)
    case Hear(now) => r.(s := Heard(r.s, now))
    case Expire(now) => r.(s := Expired(r.s, now))
    case DrainExcept(keep) => r.(s := r.s.(queues := DrainedQueues(r.s, keep, |ALL|)))
    case SetGap(gap) => r.(s := r.s.(cfg := r.s.cfg.(minGap := gap)))
    case ExpireAccounts(now, idle) => r.(s := r.s.(buckets := r.s.buckets - IdleAccounts(r.s.buckets, now, idle)))
  }

  predicate QueueOk(cfg: SchedulerConfig, q: seq<Queued>, c: Class, hand: Option<Queued>, next: nat)
    requires |cfg.depth| == CLASSES
  {
    && OrderedQueue(cfg.stationBurst, q) && TagsBelow(q, next)
    && (forall i :: 0 <= i < |q| ==> q[i].class_ == c)
    && (hand.Some? && hand.value.class_ == c ==> Heads(cfg.stationBurst, hand.value, q))
    && (cfg.depth[Index(c)] == 0 ==> q == [] && !(hand.Some? && hand.value.class_ == c))
  }

  predicate RunOk(r: Run) {
    && Shaped(r.s)
    && (r.hand.Some? ==> r.hand.value.payload.tag < r.next)
    && forall c: Class :: QueueOk(r.s.cfg, r.s.queues[Index(c)], c, r.hand, r.next)
  }

  lemma SubQueueOk(cfg: SchedulerConfig, p: seq<Queued>, q: seq<Queued>, c: Class, hand: Option<Queued>, next: nat)
    requires |cfg.depth| == CLASSES && QueueOk(cfg, q, c, hand, next) && From(p, q) && OrderedQueue(cfg.stationBurst, p)
    ensures QueueOk(cfg, p, c, hand, next)
  {
    assert p != [] ==> p[0] in q;
    if hand.Some? && hand.value.class_ == c {
      HeadsFrom(cfg.stationBurst, hand.value, p, q);
    }
  }

  lemma PushKeeps(r: Run, item: Queued)
    requires RunOk(r) && item.payload.tag == r.next
    ensures RunOk(Next(r, Push(item)))
  {
    forall c: Class ensures QueueOk(r.s.cfg, Pushed(r.s, item).queues[Index(c)], c, r.hand, r.next + 1) {
      assert QueueOk(r.s.cfg, r.s.queues[Index(c)], c, r.hand, r.next);
    }
  }

  lemma PopKeeps(r: Run, now: Instant)
    requires RunOk(r) && r.hand.None?
    ensures RunOk(Next(r, Pop(now)))
  {
    var (s, item) := Popped(r.s, now);
    if item.Some? {
      BestIsEarlier(r.s, now, |ALL|);
      var choice := BestOf(r.s, now, |ALL|).value;
      forall c: Class ensures QueueOk(r.s.cfg, s.queues[Index(c)], c, item, r.next) {
        var q := r.s.queues[Index(c)];
        assert QueueOk(r.s.cfg, q, c, None, r.next);
        if c == choice.class_ {
          CandidateHeads(r.s, q, now);
        }
      }
      assert QueueOk(r.s.cfg, r.s.queues[Index(choice.class_)], choice.class_, None, r.next);
    }
  }

  lemma RequeueKeeps(r: Run, now: Instant, delay: nat)
    requires RunOk(r) && r.hand.Some?
    ensures RunOk(Next(r, Requeue(now, delay)))
  {
    var s := Requeued(r.s, r.hand.value, now, delay);
    forall c: Class ensures QueueOk(r.s.cfg, s.queues[Index(c)], c, None, r.next) {
      assert QueueOk(r.s.cfg, r.s.queues[Index(c)], c, r.hand, r.next);
    }
  }

  lemma ExpireKeeps(r: Run, now: Instant)
    requires RunOk(r)
    ensures RunOk(Next(r, Expire(now)))
  {
    var qs := ExpiredQueues(r.s, now, |EXPIRING|);
    forall c: Class ensures QueueOk(r.s.cfg, qs[Index(c)], c, r.hand, r.next) {
      var q := r.s.queues[Index(c)];
      assert QueueOk(r.s.cfg, q, c, r.hand, r.next);
      ExpiredAt(r.s, now, c);
      if qs[Index(c)] != q {
        SiftKeepsOrder(r.s.cfg.stationBurst, q, now, r.s.cfg.maxHold, false, |q|);
        assert q[..|q|] == q;
        SubQueueOk(r.s.cfg, qs[Index(c)], q, c, r.hand, r.next);
      }
    }
  }

  lemma {:induction false} ExpiredUpTo(s: SchedState, now: Instant, n: nat, i: nat)
    requires Shaped(s) && n <= |EXPIRING| && i < CLASSES
    ensures ExpiredQueues(s, now, n)[i] ==
              if i < n then Sift(s.queues[i], now, s.cfg.maxHold, false, |s.queues[i]|) else s.queues[i]
  {
    if n > 0 {
      ExpiredUpTo(s, now, n - 1, i);
      assert Index(EXPIRING[n - 1]) == n - 1;
    }
  }

  lemma ExpiredAt(s: SchedState, now: Instant, c: Class)
    requires Shaped(s)
    ensures var q := s.queues[Index(c)];
            ExpiredQueues(s, now, |EXPIRING|)[Index(c)] ==
              if c in EXPIRING then Sift(q, now, s.cfg.maxHold, false, |q|) else q
  {
    ExpiredUpTo(s, now, |EXPIRING|, Index(c));
    assert EXPIRING[0] == Chat && EXPIRING[1] == Direct && EXPIRING[2] == Control;
  }

  lemma DrainedAt(s: SchedState, keep: Class, n: nat, c: Class)
    requires Shaped(s) && n <= |ALL|
    ensures DrainedQueues(s, keep, n)[Index(c)] == if c != keep && Index(c) >= CLASSES - n then [] else s.queues[Index(c)]
  {
    if n > 0 {
      DrainedAt(s, keep, n - 1, c);
    }
  }

  lemma DrainKeeps(r: Run, keep: Class)
    requires RunOk(r)
    ensures RunOk(Next(r, DrainExcept(keep)))
  {
    forall c: Class ensures QueueOk(r.s.cfg, DrainedQueues(r.s, keep, |ALL|)[Index(c)], c, r.hand, r.next) {
      assert QueueOk(r.s.cfg, r.s.queues[Index(c)], c, r.hand, r.next);
      DrainedAt(r.s, keep, |ALL|, c);
    }
  }

  lemma NextKeeps(r: Run, ev: Event)
    requires RunOk(r) && Enabled(r, ev)
    ensures RunOk(Next(r, ev))
  {
    match ev
    case Push(item) => PushKeeps(r, item);
    case Pop(now) => PopKeeps(r, now);
    case Requeue(now, delay) => RequeueKeeps(r, now, delay);
    case Expire(now) => ExpireKeeps(r, now);
    case DrainExcept(keep) => DrainKeeps(r, keep);
    case _ =>
      forall c: Class ensures QueueOk(Next(r, ev).s.cfg, Next(r, ev).s.queues[Index(c)], c, Next(r, ev).hand, r.next) {
        assert QueueOk(r.s.cfg, r.s.queues[Index(c)], c, r.hand, r.next);
      }
  }

  ghost predicate IsRun(cfg: SchedulerConfig, runs: seq<Run>, evs: seq<Event>) {
    && |cfg.depth| == CLASSES
    && |runs| == |evs| + 1 && runs[0] == Run(NewScheduler(cfg), None, 0)
    && forall i :: 0 <= i < |evs| ==> Shaped(runs[i].s) && Enabled(runs[i], evs[i]) && runs[i + 1] == Next(runs[i], evs[i])
  }

  /** Only the pacing gap is ever reconfigured. */
  predicate SameCredit(cfg: SchedulerConfig, s: SchedState) {
    s.cfg.(minGap := cfg.minGap) == cfg
  }

  lemma {:induction false} RunKeeps(cfg: SchedulerConfig, runs: seq<Run>, evs: seq<Event>, n: nat)
    requires IsRun(cfg, runs, evs) && n < |runs|
    ensures RunOk(runs[n]) && SameCredit(cfg, runs[n].s)
  {
    if n > 0 {
      RunKeeps(cfg, runs, evs, n - 1);
      NextKeeps(runs[n - 1], evs[n - 1]);
    }
  }

  /** Over any run: the frame that leaves a class leaves behind no frame of its own account that
      was offered earlier, unless that one costs more and it costs no more than a full burst. */
  lemma NoOvertakingOfCheaper(cfg: SchedulerConfig, runs: seq<Run>, evs: seq<Event>, n: nat, now: Instant, i: nat)
    requires IsRun(cfg, runs, evs) && n < |runs| && Shaped(runs[n].s)
    requires runs[n].hand.None? && Popped(runs[n].s, now).1.Some?
    requires var (s, item) := Popped(runs[n].s, now);
             && Shaped(s) && i < |s.queues[Index(item.value.class_)]|
    ensures var (s, item) := Popped(runs[n].s, now);
            var left := s.queues[Index(item.value.class_)][i];
            left.account == item.value.account && left.payload.tag < item.value.payload.tag ==>
              item.value.cost < left.cost && item.value.cost <= cfg.stationBurst
  {
    RunKeeps(cfg, runs, evs, n);
    PopKeeps(runs[n], now);
    var (s, item) := Popped(runs[n].s, now);
    var c := item.value.class_;
    assert QueueOk(runs[n].s.cfg, s.queues[Index(c)], c, item, runs[n].next);
    assert MayPrecede(cfg.stationBurst, item.value, s.queues[Index(c)][i]);
  }

  // ---- Credit ----

  /** Every account stays between its deficit floor and a full burst, and the table is bounded. */
  predicate CreditOk(cfg: SchedulerConfig, buckets: map<string, Bucket>) {
    && |buckets| <= Max(1, cfg.maxAccounts)
    && forall k :: k in buckets ==> DeficitFloor(cfg) <= buckets[k].tokens <= Secs(cfg.stationBurst)
  }

  lemma FloorBelowBurst(cfg: SchedulerConfig)
    ensures DeficitFloor(cfg) <= 0.0 <= Secs(cfg.stationBurst)
  {
    assert Secs(cfg.stationBurst) * MaxReal(cfg.maxDeficit, 0.0) >= 0.0;
  }

  lemma TokensBounded(cfg: SchedulerConfig, buckets: map<string, Bucket>, account: string, now: Instant)
    requires cfg.stationRate >= 0.0
    requires forall k :: k in buckets ==> DeficitFloor(cfg) <= buckets[k].tokens <= Secs(cfg.stationBurst)
    ensures DeficitFloor(cfg) <= Tokens(cfg, buckets, account, now) <= Secs(cfg.stationBurst)
  {
    FloorBelowBurst(cfg);
    if account in buckets {
      assert Secs(Since(now, buckets[account].last)) * cfg.stationRate >= 0.0;
    }
  }

  lemma LeftBounded(cfg: SchedulerConfig, buckets: map<string, Bucket>, account: string, now: Instant, cost: nat)
    requires cfg.stationRate >= 0.0
    requires forall k :: k in buckets ==> DeficitFloor(cfg) <= buckets[k].tokens <= Secs(cfg.stationBurst)
    ensures DeficitFloor(cfg) <= Left(cfg, buckets, account, now, cost) <= Secs(cfg.stationBurst)
  {
    TokensBounded(cfg, buckets, account, now);
  }

  lemma DebitKeeps(cfg: SchedulerConfig, buckets: map<string, Bucket>, account: string, now: Instant, left: real, victim: string)
    requires CreditOk(cfg, buckets) && DeficitFloor(cfg) <= left <= Secs(cfg.stationBurst)
    requires NeedsEviction(cfg, buckets, account) ==> victim in buckets
    ensures CreditOk(cfg, Debited(cfg, buckets, account, now, left, victim))
  {
    var room := if NeedsEviction(cfg, buckets, account) then buckets - {victim} else buckets;
    assert room.Keys == if NeedsEviction(cfg, buckets, account) then buckets.Keys - {victim} else buckets.Keys;
    assert |room.Keys| == |room| && |buckets.Keys| == |buckets|;
    var after := Debited(cfg, buckets, account, now, left, victim);
    assert after.Keys == room.Keys + {account};
  }

  lemma FloorSame(cfg: SchedulerConfig, s: SchedState)
    requires SameCredit(cfg, s)
    ensures DeficitFloor(s.cfg) == DeficitFloor(cfg)
  {
  }

  lemma KeyedCredit(cfg: SchedulerConfig, s: SchedState, now: Instant, account: string, keyed: nat, expectsReply: bool, victim: string)
    requires SameCredit(cfg, s) && CreditOk(cfg, s.buckets) && cfg.stationRate >= 0.0
    requires NeedsEviction(s.cfg, s.buckets, account) ==> victim in s.buckets
    ensures CreditOk(cfg, Keyed(s, now, account, keyed, expectsReply, victim).buckets)
  {
    FloorSame(cfg, s);
    LeftBounded(s.cfg, s.buckets, account, now, keyed);
    DebitKeeps(cfg, s.buckets, account, now, Left(s.cfg, s.buckets, account, now, keyed), victim);
  }

  lemma NextKeepsCredit(cfg: SchedulerConfig, r: Run, ev: Event)
    requires Shaped(r.s) && Enabled(r, ev) && SameCredit(cfg, r.s) && CreditOk(cfg, r.s.buckets) && cfg.stationRate >= 0.0
    ensures SameCredit(cfg, Next(r, ev).s) && CreditOk(cfg, Next(r, ev).s.buckets)
  {
    match ev
    case KeyDown(now, keyed, victim) => KeyedCredit(cfg, r.s, now, r.hand.value.account, keyed, r.hand.value.expectsReply, victim);
    case ExpireAccounts(now, idle) =>
      var kept := Next(r, ev).s.buckets;
      assert kept.Keys <= r.s.buckets.Keys;
      SmallerSet(kept.Keys, r.s.buckets.Keys);
      assert |kept.Keys| == |kept| && |r.s.buckets.Keys| == |r.s.buckets|;
    case _ =>
  }

  /** Overspending is a bounded handicap: no account is ever below its floor or above its burst,
      and the table never outgrows its limit (one account when the limit is zero). */
  lemma {:induction false} CreditBounded(cfg: SchedulerConfig, runs: seq<Run>, evs: seq<Event>, n: nat)
    requires IsRun(cfg, runs, evs) && n < |runs| && cfg.stationRate >= 0.0
    ensures SameCredit(cfg, runs[n].s) && CreditOk(cfg, runs[n].s.buckets)
  {
    if n > 0 {
      CreditBounded(cfg, runs, evs, n - 1);
      NextKeepsCredit(cfg, runs[n - 1], evs[n - 1]);
    }
  }
}
