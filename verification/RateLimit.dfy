/** The token-bucket limiter, keyed by host or callsign, with a bounded table. */
module RateLimit {
  import opened Common

  const MAX_BUCKETS := 4096

  datatype Bucket = Bucket(tokens: real, last: Instant)

  datatype Limiter = Limiter(perMinute: nat, burst: nat, buckets: map<string, Bucket>)

  function NewLimiter(perMinute: nat, burst: nat): Limiter {
    Limiter(perMinute, Max(burst, 1), map[])
  }

  /** Tokens earned in this many microseconds. */
  function Earned(perMinute: nat, elapsed: nat): real {
    elapsed as real * (perMinute as real / 60_000_000.0)
  }

  function Lasts(buckets: map<string, Bucket>): map<string, Instant> {
    map k | k in buckets :: buckets[k].last
  }

  predicate NeedsEviction(buckets: map<string, Bucket>, key: string) {
    key !in buckets && |buckets| >= MAX_BUCKETS
  }

  /** The bucket of `key` refilled up to now. */
  function Refilled(l: Limiter, key: string, now: Instant): (tokens: real)
    ensures tokens <= l.burst as real
  {
    if key !in l.buckets then l.burst as real
    else
      var t := l.buckets[key].tokens + Earned(l.perMinute, Since(now, l.buckets[key].last));
      if t <= l.burst as real then t else l.burst as real
  }

  predicate Accepts(l: Limiter, key: string, now: Instant) { Refilled(l, key, now) >= 1.0 }

  function Put(buckets: map<string, Bucket>, key: string, victim: string, b: Bucket): map<string, Bucket> {
    (if NeedsEviction(buckets, key) then buckets - {victim} else buckets)[key := b]
  }

  function Checked(l: Limiter, key: string, now: Instant, victim: string): Limiter {
    var tokens := Refilled(l, key, now);
    l.(buckets := Put(l.buckets, key, victim, Bucket(if tokens >= 1.0 then tokens - 1.0 else tokens, now)))
  }

  function Idle(buckets: map<string, Bucket>, now: Instant, idle: nat): set<string> {
    set k | k in buckets && Since(now, buckets[k].last) >= idle
  }

  class RateLimiter {
    var buckets: map<string, Bucket>
    const perMinute: nat
    const burst: nat

    ghost function State(): Limiter
      reads this
    {
      Limiter(perMinute, burst, buckets)
    }

    constructor (perMinute: nat, burst: nat)
      ensures State() == NewLimiter(perMinute, burst)
    {
      this.perMinute := perMinute;
      this.burst := Max(burst, 1);
      buckets := map[];
    }

    method Check(key: string, now: Instant) returns (accepted: bool, ghost victim: string)
      modifies this`buckets
      ensures State() == Checked(old(State()), key, now, victim) && accepted == Accepts(old(State()), key, now)
      ensures NeedsEviction(old(buckets), key) ==> IsOldest(Lasts(old(buckets)), victim)
    {
      var refilled := Refilled(Limiter(perMinute, burst, buckets), key, now);
      victim := key;
      if key !in buckets && |buckets| >= MAX_BUCKETS {
        var stamps := Lasts(buckets);
        assert stamps.Keys == buckets.Keys;
        assert |stamps.Keys| == |stamps| && |buckets.Keys| == |buckets|;
        var oldest := Oldest(stamps);
        victim := oldest;
        buckets := buckets - {oldest};
      }
      accepted := refilled >= 1.0;
      buckets := buckets[key := Bucket(if accepted then refilled - 1.0 else refilled, now)];
    }

    method Expire(now: Instant, idle: nat)
      modifies this`buckets
      ensures buckets == old(buckets) - Idle(old(buckets), now, idle)
    {
      buckets := buckets - Idle(buckets, now, idle);
    }
  }

  // ---- Whole runs ----

  datatype Event =
    | Check(key: string, now: Instant, victim: string)
    | Expire(now: Instant, idle: nat)

  function Next(l: Limiter, ev: Event): Limiter {
    match ev
    case Check(key, now, victim) => Checked(l, key, now, victim)
    case Expire(now, idle) => l.(buckets := l.buckets - Idle(l.buckets, now, idle))
  }

  /** Times do not go back, and the bucket evicted is the least recently used. */
  ghost predicate IsRun(perMinute: nat, burst: nat, ls: seq<Limiter>, evs: seq<Event>) {
    && |ls| == |evs| + 1 && ls[0] == NewLimiter(perMinute, burst)
    && (forall i, j :: 0 <= i <= j < |evs| ==> evs[i].now <= evs[j].now)
    && forall i :: 0 <= i < |evs| ==>
         && ls[i + 1] == Next(ls[i], evs[i])
         && (evs[i].Check? && NeedsEviction(ls[i].buckets, evs[i].key) ==> IsOldest(Lasts(ls[i].buckets), evs[i].victim))
  }

  predicate LimiterOk(l: Limiter) {
    && |l.buckets| <= MAX_BUCKETS
    && forall k :: k in l.buckets ==> 0.0 <= l.buckets[k].tokens <= l.burst as real
  }

  lemma EarnedPositive(perMinute: nat, elapsed: nat)
    ensures Earned(perMinute, elapsed) >= 0.0
  {
  }

  lemma EarnedAdds(perMinute: nat, a: nat, b: nat)
    ensures Earned(perMinute, a + b) == Earned(perMinute, a) + Earned(perMinute, b)
  {
  }

  lemma RefilledBounds(l: Limiter, key: string, now: Instant)
    requires LimiterOk(l)
    ensures 0.0 <= Refilled(l, key, now) <= l.burst as real
  {
    if key in l.buckets {
      EarnedPositive(l.perMinute, Since(now, l.buckets[key].last));
    }
  }

  lemma PutKeeps(l: Limiter, key: string, victim: string, b: Bucket)
    requires LimiterOk(l) && 0.0 <= b.tokens <= l.burst as real
    requires NeedsEviction(l.buckets, key) ==> victim in l.buckets
    ensures LimiterOk(l.(buckets := Put(l.buckets, key, victim, b)))
  {
    var room := if NeedsEviction(l.buckets, key) then l.buckets - {victim} else l.buckets;
    assert room.Keys == if NeedsEviction(l.buckets, key) then l.buckets.Keys - {victim} else l.buckets.Keys;
    assert |room.Keys| == |room| && |l.buckets.Keys| == |l.buckets|;
    var after := Put(l.buckets, key, victim, b);
    assert after.Keys == room.Keys + {key} && |after.Keys| == |after|;
  }

  lemma NextKeeps(l: Limiter, ev: Event)
    requires LimiterOk(l)
    requires ev.Check? && NeedsEviction(l.buckets, ev.key) ==> IsOldest(Lasts(l.buckets), ev.victim)
    ensures LimiterOk(Next(l, ev)) && Next(l, ev).burst == l.burst && Next(l, ev).perMinute == l.perMinute
  {
    match ev
    case Check(key, now, victim) =>
      RefilledBounds(l, key, now);
      var tokens := Refilled(l, key, now);
      PutKeeps(l, key, victim, Bucket(if tokens >= 1.0 then tokens - 1.0 else tokens, now));
    case Expire(now, idle) =>
      var kept := l.buckets - Idle(l.buckets, now, idle);
      SmallerSet(kept.Keys, l.buckets.Keys);
      assert |kept.Keys| == |kept| && |l.buckets.Keys| == |l.buckets|;
  }

  /** Tokens stay between nothing and a full burst, and the table within its limit. */
  lemma {:induction false} TokensAndTableBounded(perMinute: nat, burst: nat, ls: seq<Limiter>, evs: seq<Event>, n: nat)
    requires IsRun(perMinute, burst, ls, evs) && n < |ls|
    ensures LimiterOk(ls[n]) && ls[n].burst == Max(burst, 1) && ls[n].perMinute == perMinute
    ensures |ls[n].buckets| <= 4096 && ls[n].burst >= 1
  {
    if n > 0 {
      TokensAndTableBounded(perMinute, burst, ls, evs, n - 1);
      NextKeeps(ls[n - 1], evs[n - 1]);
    }
  }

  predicate Checks(ev: Event, key: string) { ev.Check? && ev.key == key }

  /** How many of the checks of `key` from `i` up to `n` were accepted. */
  function Accepted(ls: seq<Limiter>, evs: seq<Event>, key: string, i: nat, n: nat): nat
    requires i <= n <= |evs| && |ls| == |evs| + 1
    decreases n
  {
    if n == i then 0
    else
      Accepted(ls, evs, key, i, n - 1)
      + (if Checks(evs[n - 1], key) && Accepts(ls[n - 1], key, evs[n - 1].now) then 1 else 0)
  }

  /** From its first check in the interval on, the key's bucket is neither evicted nor expired. */
  predicate Stays(ls: seq<Limiter>, evs: seq<Event>, key: string, i: nat, n: nat)
    requires i <= n <= |evs| && |ls| == |evs| + 1
  {
    forall k, m :: i <= k < m <= n && Checks(evs[k], key) ==> key in ls[m].buckets
  }

  predicate Seen(evs: seq<Event>, key: string, i: nat, n: nat)
    requires n <= |evs|
  {
    exists k :: i <= k < n && Checks(evs[k], key)
  }

  /** Accepted so far, and still in the bucket, came out of a burst and what was earned since. */
  predicate Funded(l: Limiter, key: string, accepted: nat, start: Instant) {
    && key in l.buckets && l.buckets[key].last >= start
    && accepted as real + l.buckets[key].tokens <= l.burst as real + Earned(l.perMinute, l.buckets[key].last - start)
  }

  lemma FirstCheckFunded(l: Limiter, key: string, now: Instant, victim: string, start: Instant)
    requires LimiterOk(l) && now >= start
    ensures Funded(Checked(l, key, now, victim), key, if Accepts(l, key, now) then 1 else 0, start)
  {
    EarnedPositive(l.perMinute, now - start);
  }

  lemma CheckFunded(l: Limiter, key: string, now: Instant, victim: string, accepted: nat, start: Instant)
    requires Funded(l, key, accepted, start) && now >= l.buckets[key].last
    ensures Funded(Checked(l, key, now, victim), key, accepted + (if Accepts(l, key, now) then 1 else 0), start)
  {
    EarnedAdds(l.perMinute, l.buckets[key].last - start, now - l.buckets[key].last);
  }

  lemma OtherFunded(l: Limiter, key: string, ev: Event, accepted: nat, start: Instant)
    requires Funded(l, key, accepted, start) && !Checks(ev, key) && key in Next(l, ev).buckets
    ensures Funded(Next(l, ev), key, accepted, start)
  {
  }

  lemma {:induction false} NoneAccepted(ls: seq<Limiter>, evs: seq<Event>, key: string, i: nat, n: nat)
    requires i <= n <= |evs| && |ls| == |evs| + 1 && !Seen(evs, key, i, n)
    ensures Accepted(ls, evs, key, i, n) == 0
    decreases n
  {
    if n > i {
      assert !Checks(evs[n - 1], key);
      NoneAccepted(ls, evs, key, i, n - 1);
    }
  }

  /** Bucket stamps are never ahead of the events. */
  predicate StampsPast(l: Limiter, now: Instant) {
    forall k :: k in l.buckets ==> l.buckets[k].last <= now
  }

  lemma {:induction false} StampsBehind(perMinute: nat, burst: nat, ls: seq<Limiter>, evs: seq<Event>, n: nat)
    requires IsRun(perMinute, burst, ls, evs) && 0 < n < |ls|
    ensures StampsPast(ls[n], evs[n - 1].now)
  {
    if n > 1 {
      StampsBehind(perMinute, burst, ls, evs, n - 1);
    }
  }

  predicate From(evs: seq<Event>, i: nat, n: nat, start: Instant)
    requires n <= |evs|
  {
    forall k :: i <= k < n ==> evs[k].now >= start
  }

  lemma StaysPrefix(ls: seq<Limiter>, evs: seq<Event>, key: string, i: nat, n: nat)
    requires i < n <= |evs| && |ls| == |evs| + 1 && Stays(ls, evs, key, i, n)
    ensures Stays(ls, evs, key, i, n - 1)
  {
  }

  lemma {:induction false} RunFunded(perMinute: nat, burst: nat, ls: seq<Limiter>, evs: seq<Event>, key: string,
                                     i: nat, n: nat, start: Instant)
    requires IsRun(perMinute, burst, ls, evs) && i <= n <= |evs| && Stays(ls, evs, key, i, n)
    requires From(evs, i, n, start)
    ensures Seen(evs, key, i, n) ==> Funded(ls[n], key, Accepted(ls, evs, key, i, n), start)
    decreases n
  {
    if n > i {
      StaysPrefix(ls, evs, key, i, n);
      assert From(evs, i, n - 1, start);
      RunFunded(perMinute, burst, ls, evs, key, i, n - 1, start);
      StepFunded(perMinute, burst, ls, evs, key, i, n, start);
    }
  }

  lemma StepFunded(perMinute: nat, burst: nat, ls: seq<Limiter>, evs: seq<Event>, key: string, i: nat, n: nat, start: Instant)
    requires IsRun(perMinute, burst, ls, evs) && i < n <= |evs| && Stays(ls, evs, key, i, n)
    requires evs[n - 1].now >= start
    requires Seen(evs, key, i, n - 1) ==> Funded(ls[n - 1], key, Accepted(ls, evs, key, i, n - 1), start)
    ensures Seen(evs, key, i, n) ==> Funded(ls[n], key, Accepted(ls, evs, key, i, n), start)
  {
    var l, ev := ls[n - 1], evs[n - 1];
    if Seen(evs, key, i, n - 1) {
      if Checks(ev, key) {
        StampsBehind(perMinute, burst, ls, evs, n - 1);
        CheckFunded(l, key, ev.now, ev.victim, Accepted(ls, evs, key, i, n - 1), start);
      } else {
        var k :| i <= k < n - 1 && Checks(evs[k], key);
        assert key in ls[n].buckets;
        OtherFunded(l, key, ev, Accepted(ls, evs, key, i, n - 1), start);
      }
    } else {
      NoneAccepted(ls, evs, key, i, n - 1);
      if Checks(ev, key) {
        TokensAndTableBounded(perMinute, burst, ls, evs, n - 1);
        FirstCheckFunded(l, key, ev.now, ev.victim, start);
      }
    }
  }

  lemma FundedBound(l: Limiter, key: string, accepted: nat, start: Instant, span: nat)
    requires Funded(l, key, accepted, start) && LimiterOk(l) && l.buckets[key].last <= start + span
    ensures accepted as real <= l.burst as real + Earned(l.perMinute, span)
  {
    var last := l.buckets[key].last;
    EarnedPositive(l.perMinute, start + span - last);
    EarnedAdds(l.perMinute, last - start, start + span - last);
  }

  /** What is earned, in sixty-millionths of a token. */
  lemma EarnedInWhole(perMinute: nat, elapsed: nat)
    ensures Earned(perMinute, elapsed) * 60_000_000.0 == (perMinute * elapsed) as real
  {
    var rate := perMinute as real / 60_000_000.0;
    assert rate * 60_000_000.0 == perMinute as real;
    assert elapsed as real * rate * 60_000_000.0 == elapsed as real * (rate * 60_000_000.0);
    assert (perMinute * elapsed) as real == perMinute as real * elapsed as real;
  }

  /** More than a burst and what `span` microseconds earn. */
  predicate OverBudget(accepted: nat, burst: nat, perMinute: nat, span: nat) {
    60_000_000 * accepted > 60_000_000 * burst + perMinute * span
  }

  lemma InWhole(accepted: nat, burst: nat, perMinute: nat, span: nat)
    ensures accepted as real <= burst as real + Earned(perMinute, span) <==> !OverBudget(accepted, burst, perMinute, span)
  {
    EarnedInWhole(perMinute, span);
    assert (60_000_000 * burst + perMinute * span) as real == 60_000_000.0 * burst as real + (perMinute * span) as real;
    assert (60_000_000 * accepted) as real == 60_000_000.0 * accepted as real;
  }

  /** In any interval of `span` microseconds, a key whose bucket stays is accepted at most a burst plus
      `per_minute` times for each sixty million of them. */
  lemma AcceptedWithinRate(perMinute: nat, burst: nat, ls: seq<Limiter>, evs: seq<Event>, key: string,
                           i: nat, n: nat, start: Instant, span: nat)
    requires IsRun(perMinute, burst, ls, evs) && i <= n <= |evs| && Stays(ls, evs, key, i, n)
    requires forall k :: i <= k < n ==> start <= evs[k].now <= start + span
    ensures !OverBudget(Accepted(ls, evs, key, i, n), Max(burst, 1), perMinute, span)
  {
    EarnedPositive(perMinute, span);
    InWhole(Accepted(ls, evs, key, i, n), Max(burst, 1), perMinute, span);
    if Seen(evs, key, i, n) {
      RunFunded(perMinute, burst, ls, evs, key, i, n, start);
      TokensAndTableBounded(perMinute, burst, ls, evs, n);
      StampsBehind(perMinute, burst, ls, evs, n);
      FundedBound(ls[n], key, Accepted(ls, evs, key, i, n), start, span);
    } else {
      NoneAccepted(ls, evs, key, i, n);
    }
  }

  // ---- Nothing is refused without need ----

  /** Since some check at event `i`, what was accepted and what is left are a burst and all that was
      earned. */
  predicate FullSince(ls: seq<Limiter>, evs: seq<Event>, key: string, i: nat, n: nat)
    requires n <= |evs| && |ls| == |evs| + 1
  {
    && i < n && Checks(evs[i], key) && key in ls[n].buckets && ls[n].buckets[key].last >= evs[i].now
    && Accepted(ls, evs, key, i, n) as real + ls[n].buckets[key].tokens
         >= ls[n].burst as real + Earned(ls[n].perMinute, ls[n].buckets[key].last - evs[i].now)
  }

  lemma StartsFull(ls: seq<Limiter>, evs: seq<Event>, key: string, n: nat)
    requires n < |evs| && |ls| == |evs| + 1 && ls[n + 1] == Next(ls[n], evs[n])
    requires Checks(evs[n], key) && Refilled(ls[n], key, evs[n].now) == ls[n].burst as real
    ensures FullSince(ls, evs, key, n, n + 1)
  {
    assert Accepted(ls, evs, key, n, n) == 0;
    assert Earned(ls[n].perMinute, 0) == 0.0;
  }

  lemma StaysFull(ls: seq<Limiter>, evs: seq<Event>, key: string, i: nat, n: nat)
    requires n < |evs| && |ls| == |evs| + 1 && ls[n + 1] == Next(ls[n], evs[n])
    requires FullSince(ls, evs, key, i, n) && evs[n].now >= ls[n].buckets[key].last
    requires key in ls[n + 1].buckets
    requires Checks(evs[n], key) ==> Refilled(ls[n], key, evs[n].now) != ls[n].burst as real
    ensures FullSince(ls, evs, key, i, n + 1)
  {
    var l, ev := ls[n], evs[n];
    if Checks(ev, key) {
      EarnedAdds(l.perMinute, l.buckets[key].last - evs[i].now, ev.now - l.buckets[key].last);
    }
  }

  lemma {:induction false} AlwaysFullSince(perMinute: nat, burst: nat, ls: seq<Limiter>, evs: seq<Event>, key: string, n: nat)
    returns (i: nat)
    requires IsRun(perMinute, burst, ls, evs) && n <= |evs| && key in ls[n].buckets
    ensures FullSince(ls, evs, key, i, n)
    decreases n
  {
    var l, ev := ls[n - 1], evs[n - 1];
    i := n - 1;
    if Checks(ev, key) && Refilled(l, key, ev.now) == l.burst as real {
      StartsFull(ls, evs, key, n - 1);
    } else {
      assert key in l.buckets;
      i := AlwaysFullSince(perMinute, burst, ls, evs, key, n - 1);
      StampsBehind(perMinute, burst, ls, evs, n - 1);
      StaysFull(ls, evs, key, i, n - 1);
    }
  }

  lemma OverRate(accepted: nat, tokens: real, burst: nat, perMinute: nat, a: nat, b: nat, span: nat)
    requires accepted as real + tokens >= burst as real + Earned(perMinute, a)
    requires tokens + Earned(perMinute, b) < 1.0 && a + b == span
    ensures OverBudget(accepted + 1, burst, perMinute, span)
  {
    EarnedAdds(perMinute, a, b);
    InWhole(accepted + 1, burst, perMinute, span);
  }

  lemma RefusedNow(l: Limiter, key: string, accepted: nat, start: Instant, now: Instant, burst: nat, perMinute: nat)
    requires key in l.buckets && start <= l.buckets[key].last <= now && !Accepts(l, key, now)
    requires l.burst == burst >= 1 && l.perMinute == perMinute
    requires accepted as real + l.buckets[key].tokens >= l.burst as real + Earned(l.perMinute, l.buckets[key].last - start)
    ensures OverBudget(accepted + 1, burst, perMinute, Since(now, start))
  {
    var b := l.buckets[key];
    OverRate(accepted, b.tokens, burst, perMinute, b.last - start, now - b.last, Since(now, start));
  }

  /** A check is refused only if accepting it would exceed, since some earlier check of that key, a
      burst plus `per_minute` times for each sixty million microseconds. */
  lemma RefusedIsOverRate(perMinute: nat, burst: nat, ls: seq<Limiter>, evs: seq<Event>, key: string, n: nat) returns (i: nat)
    requires IsRun(perMinute, burst, ls, evs) && n < |evs| && Checks(evs[n], key) && !Accepts(ls[n], key, evs[n].now)
    ensures i < n && Checks(evs[i], key) && evs[i].now <= evs[n].now
    ensures OverBudget(Accepted(ls, evs, key, i, n) + 1, Max(burst, 1), perMinute, Since(evs[n].now, evs[i].now))
  {
    TokensAndTableBounded(perMinute, burst, ls, evs, n);
    i := AlwaysFullSince(perMinute, burst, ls, evs, key, n);
    StampsBehind(perMinute, burst, ls, evs, n);
    RefusedNow(ls[n], key, Accepted(ls, evs, key, i, n), evs[i].now, evs[n].now, Max(burst, 1), perMinute);
  }

  /** A check leaves every other bucket as it was, but for the one evicted from a full table. */
  lemma OthersStay(l: Limiter, key: string, now: Instant, victim: string, other: string)
    requires other in l.buckets && other != key
    requires other == victim ==> |l.buckets| < 4096 || key in l.buckets
    ensures other in Checked(l, key, now, victim).buckets
    ensures Checked(l, key, now, victim).buckets[other] == l.buckets[other]
  {
  }

  /** And that one was checked no later than any other. */
  lemma OldestGoes(l: Limiter, key: string, now: Instant, victim: string, other: string)
    requires NeedsEviction(l.buckets, key) ==> IsOldest(Lasts(l.buckets), victim)
    requires other in l.buckets && other !in Checked(l, key, now, victim).buckets
    ensures other == victim && |l.buckets| >= 4096 && key !in l.buckets
    ensures forall k :: k in l.buckets ==> l.buckets[other].last <= l.buckets[k].last
  {
    forall k | k in l.buckets ensures l.buckets[other].last <= l.buckets[k].last {
      assert Lasts(l.buckets)[other] <= Lasts(l.buckets)[k];
    }
  }

  // ---- Forgetting idle keys ----

  ghost predicate ReachedAt(perMinute: nat, burst: nat, ls: seq<Limiter>, evs: seq<Event>, n: nat) {
    IsRun(perMinute, burst, ls, evs) && n < |ls|
  }

  /** In every run, forgetting the keys idle for so long changes nobody's tokens then or later. */
  ghost predicate Harmless(perMinute: nat, burst: nat, idle: nat) {
    forall ls: seq<Limiter>, evs: seq<Event>, n: nat, now: Instant, key: string, t: Instant ::
      ReachedAt(perMinute, burst, ls, evs, n) && t >= now ==>
        Refilled(Next(ls[n], Expire(now, idle)), key, t) == Refilled(ls[n], key, t)
  }

  /** The time earns a whole burst. */
  predicate EarnsBurst(perMinute: nat, burst: nat, idle: nat) {
    perMinute * idle >= 60_000_000 * Max(burst, 1)
  }

  lemma EarnsExactly(perMinute: nat, burst: nat, idle: nat)
    ensures EarnsBurst(perMinute, burst, idle) <==> Earned(perMinute, idle) >= Max(burst, 1) as real
  {
    EarnedInWhole(perMinute, idle);
    assert (60_000_000 * Max(burst, 1)) as real == 60_000_000.0 * Max(burst, 1) as real;
  }

  lemma LongIsHarmless(l: Limiter, burst: nat, now: Instant, idle: nat, key: string, t: Instant)
    requires LimiterOk(l) && l.burst == Max(burst, 1) && EarnsBurst(l.perMinute, burst, idle) && t >= now
    ensures Refilled(Next(l, Expire(now, idle)), key, t) == Refilled(l, key, t)
  {
    if key in Idle(l.buckets, now, idle) {
      var d := Since(t, l.buckets[key].last);
      EarnsExactly(l.perMinute, burst, idle);
      EarnedAdds(l.perMinute, idle, d - idle);
      EarnedPositive(l.perMinute, d - idle);
    }
  }

  /** A run of `k` checks of one key, all accepted, at one moment. */
  lemma {:induction false} Exhaust(perMinute: nat, burst: nat, k: nat) returns (r: Trace<Limiter, Event>)
    requires k <= Max(burst, 1)
    ensures IsRun(perMinute, burst, r.states, r.events) && r.Whole()
    ensures forall i :: 0 <= i < |r.events| ==> r.events[i].now == 0
    ensures r.Last().burst == Max(burst, 1) && r.Last().perMinute == perMinute
    ensures if k == 0 then r.Last().buckets == map[] else r.Last().buckets == map["" := Bucket((Max(burst, 1) - k) as real, 0)]
  {
    if k == 0 {
      r := Trace([NewLimiter(perMinute, burst)], []);
    } else {
      r := Exhaust(perMinute, burst, k - 1);
      var l := r.Last();
      assert Earned(perMinute, 0) == 0.0;
      var next := Checked(l, "", 0, "");
      assert next.buckets == map["" := Bucket((Max(burst, 1) - k) as real, 0)];
      r.ThenKeeps(Check("", 0, ""), next);
      r := r.Then(Check("", 0, ""), next);
    }
  }

  lemma ShortIsHarmful(perMinute: nat, burst: nat, idle: nat)
    requires !EarnsBurst(perMinute, burst, idle)
    ensures !Harmless(perMinute, burst, idle)
  {
    var r := Exhaust(perMinute, burst, Max(burst, 1));
    var n := |r.events|;
    var l := r.states[n];
    assert ReachedAt(perMinute, burst, r.states, r.events, n);
    EarnsExactly(perMinute, burst, idle);
    assert "" !in Next(l, Expire(idle, idle)).buckets;
    assert Refilled(Next(l, Expire(idle, idle)), "", idle) != Refilled(r.states[n], "", idle);
  }

  /** Forgetting idle keys is harmless, over all runs, exactly if the idle time earns a whole burst. */
  lemma HarmlessExactly(perMinute: nat, burst: nat, idle: nat)
    ensures Harmless(perMinute, burst, idle) <==> EarnsBurst(perMinute, burst, idle)
  {
    if EarnsBurst(perMinute, burst, idle) {
      forall ls: seq<Limiter>, evs: seq<Event>, n: nat, now: Instant, key: string, t: Instant
        | ReachedAt(perMinute, burst, ls, evs, n) && t >= now
        ensures Refilled(Next(ls[n], Expire(now, idle)), key, t) == Refilled(ls[n], key, t)
      {
        TokensAndTableBounded(perMinute, burst, ls, evs, n);
        LongIsHarmless(ls[n], burst, now, idle, key, t);
      }
    } else {
      ShortIsHarmful(perMinute, burst, idle);
    }
  }
}
