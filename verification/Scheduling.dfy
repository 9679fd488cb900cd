/** Which queued frame keys the transmitter next, and when it is safe to key at all. */
module Scheduling {
  import opened Common

  datatype Class = Chat | Direct | Control | Ack | Id

  const CLASSES := 5

  /** The class as an index, which is also its base priority. */
  function Index(c: Class): nat {
    match c
    case Chat => 0
    case Direct => 1
    case Control => 2
    case Ack => 3
    case Id => 4
  }

  /** Highest priority first. */
  const ALL: seq<Class> := [Id, Ack, Control, Direct, Chat]

  /** A frame: which one it is, and its encoded size. */
  datatype Payload = Payload(tag: nat, octets: nat)

  datatype Queued = Queued(
    payload: Payload,
    class_: Class,
    account: string,
    cost: nat,
    queuedAt: Instant,
    expectsReply: bool)

  datatype SchedulerConfig = SchedulerConfig(
    maxHold: nat,
    minGap: nat,
    replyWindow: nat,
    rxGuard: nat,
    aging: nat,
    unfundedPenalty: real,
    stationRate: real,
    stationBurst: nat,
    maxDeficit: real,
    maxAccounts: nat,
    depth: seq<nat>)

  datatype Poll = Ready | Wait(delay: nat) | Idle

  datatype Bucket = Bucket(tokens: real, last: Instant)

  datatype SchedState = SchedState(
    cfg: SchedulerConfig,
    queues: seq<seq<Queued>>,
    buckets: map<string, Bucket>,
    paceUntil: Option<Instant>,
    replyUntil: Option<Instant>,
    lastHeard: Option<Instant>,
    refused: nat,
    expired: nat)

  /** Five queues and five depths, as the fixed-size arrays of the program have. */
  predicate Shaped(s: SchedState) {
    |s.queues| == CLASSES && |s.cfg.depth| == CLASSES
  }

  function NewScheduler(cfg: SchedulerConfig): SchedState {
    SchedState(cfg, [[], [], [], [], []], map[], None, None, None, 0, 0)
  }

  // ---- Funding ----

  function Secs(d: int): real { d as real / 1_000_000.0 }

  function MinReal(a: real, b: real): real { if a <= b then a else b }

  function MaxReal(a: real, b: real): real { if a >= b then a else b }

  /** Airtime an account has earned and not yet spent; negative after overspending. */
  function Tokens(cfg: SchedulerConfig, buckets: map<string, Bucket>, account: string, now: Instant): real {
    if account !in buckets then Secs(cfg.stationBurst)
    else MinReal(buckets[account].tokens + Secs(Since(now, buckets[account].last)) * cfg.stationRate, Secs(cfg.stationBurst))
  }

  predicate Funded(s: SchedState, item: Queued, now: Instant) {
    Tokens(s.cfg, s.buckets, item.account, now) >= Secs(item.cost)
  }

  function DeficitFloor(cfg: SchedulerConfig): real {
    -Secs(cfg.stationBurst) * MaxReal(cfg.maxDeficit, 0.0)
  }

  function Lasts(buckets: map<string, Bucket>): map<string, Instant> {
    map k | k in buckets :: buckets[k].last
  }

  predicate NeedsEviction(cfg: SchedulerConfig, buckets: map<string, Bucket>, account: string) {
    account !in buckets && |buckets| >= cfg.maxAccounts && |buckets| > 0
  }

  /** What is left after a charge, down to the deficit an account may run. */
  function Left(cfg: SchedulerConfig, buckets: map<string, Bucket>, account: string, now: Instant, cost: nat): real {
    MaxReal(Tokens(cfg, buckets, account, now) - Secs(cost), DeficitFloor(cfg))
  }

  /** The account left with `left`, `victim` evicted if the table is full and the account is new. */
  function Debited(cfg: SchedulerConfig, buckets: map<string, Bucket>, account: string, now: Instant, left: real, victim: string)
    : map<string, Bucket>
  {
    (if NeedsEviction(cfg, buckets, account) then buckets - {victim} else buckets)[account := Bucket(left, now)]
  }

  // ---- Choosing ----

  function AgingSecs(cfg: SchedulerConfig): (g: real)
    ensures g > 0.0
  {
    MaxReal(Secs(cfg.aging), 0.001)
  }

  function Score(s: SchedState, item: Queued, now: Instant): real {
    Index(item.class_) as real + Secs(Since(now, item.queuedAt)) / AgingSecs(s.cfg)
    - (if Funded(s, item, now) then 0.0 else s.cfg.unfundedPenalty)
  }

  function FirstFunded(s: SchedState, q: seq<Queued>, now: Instant, from: nat): (i: nat)
    requires from <= |q|
    ensures from <= i <= |q|
    decreases |q| - from
  {
    if from == |q| || Funded(s, q[from], now) then from else FirstFunded(s, q, now, from + 1)
  }

  /** A class offers its first funded frame, or its head when none is funded. */
  function Candidate(s: SchedState, q: seq<Queued>, now: Instant): (i: nat)
    requires q != []
    ensures i < |q|
  {
    var i := FirstFunded(s, q, now, 0);
    if i < |q| then i else 0
  }

  datatype Choice = Choice(class_: Class, idx: nat, score: real)

  predicate ChoiceOk(s: SchedState, c: Choice, now: Instant)
    requires Shaped(s)
  {
    var q := s.queues[Index(c.class_)];
    q != [] && c.idx == Candidate(s, q, now) && c.score == Score(s, q[c.idx], now)
  }

  function Offer(s: SchedState, c: Class, now: Instant): Choice
    requires Shaped(s) && s.queues[Index(c)] != []
  {
    var q := s.queues[Index(c)];
    Choice(c, Candidate(s, q, now), Score(s, q[Candidate(s, q, now)], now))
  }

  /** The best offer of the first `n` classes in order; a later one must score strictly more. */
  function BestOf(s: SchedState, now: Instant, n: nat): (best: Option<Choice>)
    requires Shaped(s) && n <= |ALL|
    ensures best.Some? ==> ChoiceOk(s, best.value, now)
  {
    if n == 0 then None
    else
      var best := BestOf(s, now, n - 1);
      var c := ALL[n - 1];
      if s.queues[Index(c)] == [] then best
      else if best.Some? && Offer(s, c, now).score <= best.value.score then best
      else Some(Offer(s, c, now))
  }

  function Without<T>(q: seq<T>, i: nat): seq<T>
    requires i < |q|
  {
    q[..i] + q[i + 1..]
  }

  function Popped(s: SchedState, now: Instant): (SchedState, Option<Queued>)
    requires Shaped(s)
  {
    match BestOf(s, now, |ALL|)
    case None => (s, None)
    case Some(c) =>
      var q := s.queues[Index(c.class_)];
      (s.(queues := s.queues[Index(c.class_) := Without(q, c.idx)]), Some(q[c.idx]))
  }

  // ---- The other operations ----

  predicate Refuses(s: SchedState, item: Queued)
    requires Shaped(s)
  {
    |s.queues[Index(item.class_)]| >= s.cfg.depth[Index(item.class_)]
  }

  function Pushed(s: SchedState, item: Queued): SchedState
    requires Shaped(s)
  {
    var i := Index(item.class_);
    if Refuses(s, item) then s.(refused := s.refused + 1)
    else s.(queues := s.queues[i := s.queues[i] + [item]])
  }

  predicate Stale(item: Queued, now: Instant, hold: nat) {
    Since(now, item.queuedAt) > hold
  }

  /** The first `n` items of a queue that are (or are not) stale, in order. */
  function Sift(q: seq<Queued>, now: Instant, hold: nat, stale: bool, n: nat): seq<Queued>
    requires n <= |q|
  {
    if n == 0 then []
    else Sift(q, now, hold, stale, n - 1) + (if Stale(q[n - 1], now, hold) == stale then [q[n - 1]] else [])
  }

  const EXPIRING: seq<Class> := [Chat, Direct, Control]

  function ExpiredQueues(s: SchedState, now: Instant, n: nat): (qs: seq<seq<Queued>>)
    requires Shaped(s) && n <= |EXPIRING|
    ensures |qs| == CLASSES
  {
    if n == 0 then s.queues
    else
      var qs := ExpiredQueues(s, now, n - 1);
      var i := Index(EXPIRING[n - 1]);
      qs[i := Sift(qs[i], now, s.cfg.maxHold, false, |qs[i]|)]
  }

  function ExpiredItems(s: SchedState, now: Instant, n: nat): seq<Queued>
    requires Shaped(s) && n <= |EXPIRING|
  {
    if n == 0 then []
    else
      var q := ExpiredQueues(s, now, n - 1)[Index(EXPIRING[n - 1])];
      ExpiredItems(s, now, n - 1) + Sift(q, now, s.cfg.maxHold, true, |q|)
  }

  function Expired(s: SchedState, now: Instant): SchedState
    requires Shaped(s)
  {
    s.(queues := ExpiredQueues(s, now, |EXPIRING|), expired := s.expired + |ExpiredItems(s, now, |EXPIRING|)|)
  }

  function Heard(s: SchedState, now: Instant): SchedState {
    s.(lastHeard := Some(now), replyUntil := None)
  }

  function Keyed(s: SchedState, now: Instant, account: string, keyed: nat, expectsReply: bool, victim: string): SchedState {
    var end := now + keyed;
    s.(buckets := Debited(s.cfg, s.buckets, account, now, Left(s.cfg, s.buckets, account, now, keyed), victim),
       paceUntil := Some(end + s.cfg.minGap),
       replyUntil := if expectsReply then Some(end + s.cfg.replyWindow) else None)
  }

  function Requeued(s: SchedState, item: Queued, now: Instant, delay: nat): SchedState
    requires Shaped(s)
  {
    var i := Index(item.class_);
    s.(paceUntil := Some(if s.paceUntil.Some? then Max(s.paceUntil.value, now + delay) else now + delay),
       queues := s.queues[i := [item] + s.queues[i]])
  }

  function LaterOf(a: Option<Instant>, b: Option<Instant>): Option<Instant> {
    if a.None? then b else if b.None? then a else Some(Max(a.value, b.value))
  }

  function BlockedUntil(s: SchedState): Option<Instant> {
    var rx := if s.lastHeard.Some? then Some(s.lastHeard.value + s.cfg.rxGuard) else None;
    LaterOf(LaterOf(s.paceUntil, s.replyUntil), rx)
  }

  predicate IsEmpty(s: SchedState) {
    forall i :: 0 <= i < |s.queues| ==> s.queues[i] == []
  }

  function PollAt(s: SchedState, now: Instant): Poll {
    if IsEmpty(s) then Idle
    else match BlockedUntil(s)
      case None => Ready
      case Some(t) => if t > now then Wait(t - now) else Ready
  }

  /** Every queue but the one of class `keep` emptied, the first `n` classes in order. */
  function DrainedQueues(s: SchedState, keep: Class, n: nat): (qs: seq<seq<Queued>>)
    requires Shaped(s) && n <= |ALL|
    ensures |qs| == CLASSES
  {
    if n == 0 then s.queues
    else if ALL[n - 1] == keep then DrainedQueues(s, keep, n - 1)
    else DrainedQueues(s, keep, n - 1)[Index(ALL[n - 1]) := []]
  }

  function DrainedItems(s: SchedState, keep: Class, n: nat): seq<Queued>
    requires Shaped(s) && n <= |ALL|
  {
    if n == 0 then []
    else DrainedItems(s, keep, n - 1) + (if ALL[n - 1] == keep then [] else DrainedQueues(s, keep, n - 1)[Index(ALL[n - 1])])
  }

  function AllItems(queues: seq<seq<Queued>>, n: nat): seq<Queued>
    requires n <= |queues|
  {
    if n == 0 then [] else AllItems(queues, n - 1) + queues[n - 1]
  }

  function IdleAccounts(buckets: map<string, Bucket>, now: Instant, idle: nat): set<string> {
    set k | k in buckets && Since(now, buckets[k].last) >= idle
  }

  // ---- The scheduler in place ----

  class Scheduler {
    var cfg: SchedulerConfig
    var queues: seq<seq<Queued>>
    var buckets: map<string, Bucket>
    var paceUntil: Option<Instant>
    var replyUntil: Option<Instant>
    var lastHeard: Option<Instant>
    var refused: nat
    var expired: nat

    ghost function State(): SchedState
      reads this
    {
      SchedState(cfg, queues, buckets, paceUntil, replyUntil, lastHeard, refused, expired)
    }

    ghost predicate Valid()
      reads this
    {
      Shaped(State())
    }

    constructor (cfg: SchedulerConfig)
      requires |cfg.depth| == CLASSES
      ensures Valid() && State() == NewScheduler(cfg)
    {
      this.cfg := cfg;
      queues := [[], [], [], [], []];
      buckets := map[];
      paceUntil, replyUntil, lastHeard := None, None, None;
      refused, expired := 0, 0;
    }

    /** Queue a frame, or hand it back when its class is full. */
    method Push(item: Queued) returns (r: Result<(), Queued>)
      requires Valid()
      modifies this
      ensures Valid() && State() == Pushed(old(State()), item)
      ensures r == if Refuses(old(State()), item) then Err(item) else Ok(())
    {
      var i := Index(item.class_);
      if |queues[i]| >= cfg.depth[i] {
        refused := refused + 1;
        return Err(item);
      }
      queues := queues[i := queues[i] + [item]];
      return Ok(());
    }

    /** One queue split into what stays and what has waited too long. */
    static method SiftQueue(q: seq<Queued>, now: Instant, hold: nat) returns (keep: seq<Queued>, out: seq<Queued>)
      ensures keep == Sift(q, now, hold, false, |q|) && out == Sift(q, now, hold, true, |q|)
    {
      keep, out := [], [];
      var rest := q;
      ghost var n := 0;
      while rest != []
        invariant n <= |q| && rest == q[n..]
        invariant keep == Sift(q, now, hold, false, n) && out == Sift(q, now, hold, true, n)
        decreases |rest|
      {
        var item := rest[0];
        rest := rest[1..];
        n := n + 1;
        if Since(now, item.queuedAt) > hold {
          out := out + [item];
        } else {
          keep := keep + [item];
        }
      }
    }

    method Expire(now: Instant) returns (out: seq<Queued>)
      requires Valid()
      modifies this
      ensures Valid() && State() == Expired(old(State()), now)
      ensures out == ExpiredItems(old(State()), now, |EXPIRING|)
    {
      out := [];
      ghost var s := State();
      for n := 0 to |EXPIRING|
        invariant Valid() && State() == s.(queues := ExpiredQueues(s, now, n))
        invariant out == ExpiredItems(s, now, n)
      {
        var i := Index(EXPIRING[n]);
        var keep, stale := SiftQueue(queues[i], now, cfg.maxHold);
        queues := queues[i := keep];
        out := out + stale;
      }
      expired := expired + |out|;
    }

    method OnHeard(now: Instant)
      modifies this
      ensures State() == Heard(old(State()), now)
    {
      lastHeard := Some(now);
      replyUntil := None;
    }

    method Debit(account: string, now: Instant, cost: nat) returns (ghost victim: string)
      modifies this`buckets
      ensures buckets == Debited(cfg, old(buckets), account, now, Left(cfg, old(buckets), account, now, cost), victim)
      ensures NeedsEviction(cfg, old(buckets), account) ==> IsOldest(Lasts(old(buckets)), victim)
    {
      var left := Left(cfg, buckets, account, now, cost);
      victim := account;
      if account !in buckets && |buckets| >= cfg.maxAccounts && |buckets| > 0 {
        var stamps := Lasts(buckets);
        assert stamps.Keys == buckets.Keys;
        var oldest := Oldest(stamps);
        victim := oldest;
        buckets := buckets - {oldest};
      }
      buckets := buckets[account := Bucket(left, now)];
    }

    method OnKeyed(now: Instant, account: string, keyed: nat, expectsReply: bool) returns (ghost victim: string)
      modifies this
      ensures State() == Keyed(old(State()), now, account, keyed, expectsReply, victim)
      ensures NeedsEviction(cfg, old(buckets), account) ==> IsOldest(Lasts(old(buckets)), victim)
    {
      var end := now + keyed;
      victim := Debit(account, now, keyed);
      paceUntil := Some(end + cfg.minGap);
      replyUntil := if expectsReply then Some(end + cfg.replyWindow) else None;
    }

    /** Put a deferred frame back at the head of its class. */
    method Requeue(item: Queued, now: Instant, delay: nat)
      requires Valid()
      modifies this
      ensures Valid() && State() == Requeued(old(State()), item, now, delay)
    {
      paceUntil := Some(if paceUntil.Some? then Max(paceUntil.value, now + delay) else now + delay);
      var i := Index(item.class_);
      queues := queues[i := [item] + queues[i]];
    }

    method AllEmpty() returns (empty: bool)
      ensures empty == IsEmpty(State())
    {
      for i := 0 to |queues|
        invariant forall j :: 0 <= j < i ==> queues[j] == []
      {
        if queues[i] != [] {
          return false;
        }
      }
      return true;
    }

    method Poll(now: Instant) returns (p: Poll)
      ensures p == PollAt(State(), now)
    {
      var empty := AllEmpty();
      if empty {
        return Idle;
      }
      var rx := if lastHeard.Some? then Some(lastHeard.value + cfg.rxGuard) else None;
      var blocked := LaterOf(LaterOf(paceUntil, replyUntil), rx);
      if blocked.Some? && blocked.value > now {
        return Wait(blocked.value - now);
      }
      return Ready;
    }

    method FindCandidate(q: seq<Queued>, now: Instant) returns (idx: nat)
      requires q != []
      ensures idx == Candidate(State(), q, now)
    {
      idx := 0;
      while idx < |q|
        invariant idx <= |q| && FirstFunded(State(), q, now, idx) == FirstFunded(State(), q, now, 0)
      {
        if Tokens(cfg, buckets, q[idx].account, now) >= Secs(q[idx].cost) {
          return;
        }
        idx := idx + 1;
      }
      idx := 0;
    }

    method ScoreOf(item: Queued, now: Instant) returns (score: real)
      ensures score == Score(State(), item, now)
    {
      score := Index(item.class_) as real;
      score := score + Secs(Since(now, item.queuedAt)) / AgingSecs(cfg);
      if Tokens(cfg, buckets, item.account, now) < Secs(item.cost) {
        score := score - cfg.unfundedPenalty;
      }
    }

    method Pop(now: Instant) returns (item: Option<Queued>)
      requires Valid()
      modifies this
      ensures Valid() && (State(), item) == Popped(old(State()), now)
    {
      var best: Option<Choice> := None;
      for n := 0 to |ALL|
        invariant Valid() && State() == old(State()) && best == BestOf(State(), now, n)
      {
        var c := ALL[n];
        var q := queues[Index(c)];
        if q != [] {
          var idx := FindCandidate(q, now);
          var score := ScoreOf(q[idx], now);
          if best.None? || score > best.value.score {
            best := Some(Choice(c, idx, score));
          }
        }
      }
      if best.None? {
        return None;
      }
      var i := Index(best.value.class_);
      item := Some(queues[i][best.value.idx]);
      queues := queues[i := Without(queues[i], best.value.idx)];
    }

    method ExpireAccounts(now: Instant, idle: nat)
      modifies this`buckets
      ensures buckets == old(buckets) - IdleAccounts(old(buckets), now, idle)
    {
      buckets := buckets - IdleAccounts(buckets, now, idle);
    }

    method Drain() returns (out: seq<Queued>)
      requires Valid()
      modifies this`queues
      ensures Valid() && IsEmpty(State()) && out == AllItems(old(queues), CLASSES)
    {
      out := [];
      ghost var before := queues;
      for i := 0 to |queues|
        invariant |queues| == |before| == CLASSES && out == AllItems(before, i)
        invariant forall j :: 0 <= j < i ==> queues[j] == []
        invariant forall j :: i <= j < |queues| ==> queues[j] == before[j]
      {
        out := out + queues[i];
        queues := queues[i := []];
      }
    }

    method DrainExcept(keep: Class) returns (out: seq<Queued>)
      requires Valid()
      modifies this`queues
      ensures Valid() && queues == DrainedQueues(old(State()), keep, |ALL|)
      ensures out == DrainedItems(old(State()), keep, |ALL|)
    {
      out := [];
      ghost var s := State();
      for n := 0 to |ALL|
        invariant Valid() && queues == DrainedQueues(s, keep, n) && out == DrainedItems(s, keep, n)
      {
        var c := ALL[n];
        if c != keep {
          out := out + queues[Index(c)];
          queues := queues[Index(c) := []];
        }
      }
    }

    method SetMinGap(gap: nat)
      modifies this`cfg
      ensures cfg == old(cfg).(minGap := gap)
    {
      cfg := cfg.(minGap := gap);
    }
  }
}
