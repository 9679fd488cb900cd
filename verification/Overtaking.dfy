/** Frames of one account and one class do overtake each other. Exactly when. */
module Overtaking {
  import opened Common
  import opened Scheduling
  import opened SchedulerRuns

  /** In some run, a frame of this account, class and cost is popped while an earlier one, of cost
      `first`, waits in the same queue. */
  ghost predicate Overtakes(cfg: SchedulerConfig, c: Class, account: string, first: nat, second: nat) {
    exists runs, evs, n, now, i :: OvertakesAt(cfg, c, account, first, second, runs, evs, n, now, i)
  }

  ghost predicate OvertakesAt(cfg: SchedulerConfig, c: Class, account: string, first: nat, second: nat,
                              runs: seq<Run>, evs: seq<Event>, n: nat, now: Instant, i: nat)
  {
    && IsRun(cfg, runs, evs) && n < |runs| && Shaped(runs[n].s) && runs[n].hand.None?
    && var (s, popped) := Popped(runs[n].s, now);
       && popped.Some? && popped.value.class_ == c && popped.value.account == account && popped.value.cost == second
       && i < |runs[n].s.queues[Index(c)]|
       && var waits := runs[n].s.queues[Index(c)][i];
          && waits in s.queues[Index(c)]
          && waits.account == account && waits.cost == first && waits.payload.tag < popped.value.payload.tag
  }

  lemma Necessary(cfg: SchedulerConfig, c: Class, account: string, first: nat, second: nat)
    requires Overtakes(cfg, c, account, first, second)
    ensures second < first && second <= cfg.stationBurst
    ensures |cfg.depth| == CLASSES && cfg.depth[Index(c)] > 0
  {
    var runs: seq<Run>, evs: seq<Event>, n: nat, now: Instant, i: nat :| OvertakesAt(cfg, c, account, first, second, runs, evs, n, now, i);
    var q := runs[n].s.queues[Index(c)];
    var (s, popped) := Popped(runs[n].s, now);
    var rest := s.queues[Index(c)];
    var k :| 0 <= k < |rest| && rest[k] == q[i];
    assert Shaped(s);
    NoOvertakingOfCheaper(cfg, runs, evs, n, now, k);
    RunKeeps(cfg, runs, evs, n);
    assert QueueOk(runs[n].s.cfg, q, c, None, runs[n].next);
  }

  // ---- A run in which it happens ----

  ghost predicate Ok(cfg: SchedulerConfig, t: Trace<Run, Event>) { IsRun(cfg, t.states, t.events) }

  lemma Extend(cfg: SchedulerConfig, t: Trace<Run, Event>, ev: Event, r: Run) returns (t': Trace<Run, Event>)
    requires Ok(cfg, t) && Shaped(t.Last().s) && Enabled(t.Last(), ev) && r == Next(t.Last(), ev)
    ensures Ok(cfg, t') && t'.Last() == r
  {
    t' := t.Then(ev, r);
    t.ThenKeeps(ev, r);
  }

  function Frame(tag: nat, c: Class, account: string, cost: nat): Queued {
    Queued(Payload(tag, 0), c, account, cost, 0, false)
  }

  /** An account with exactly `second` left, once its frame for the rest of a burst was keyed. */
  lemma Spend(cfg: SchedulerConfig, c: Class, account: string, second: nat) returns (t: Trace<Run, Event>)
    requires |cfg.depth| == CLASSES && cfg.depth[Index(c)] > 0 && second <= cfg.stationBurst
    ensures Ok(cfg, t) && t.Last().hand.None?
    ensures var s := t.Last().s;
            Only(s, c, []) && s.cfg == cfg && Tokens(cfg, s.buckets, account, 0) == Secs(second)
  {
    t := Trace([Run(NewScheduler(cfg), None, 0)], []);
    if second < cfg.stationBurst {
      var cost := cfg.stationBurst - second;
      var rest := Frame(0, c, account, cost);
      t := Extend(cfg, t, Push(rest), Next(t.Last(), Push(rest)));
      assert Only(t.Last().s, c, [rest]);
      PopsOnly(t.Last().s, c, [rest], 0);
      t := Extend(cfg, t, Pop(0), Next(t.Last(), Pop(0)));
      SpentLeaves(cfg, account, cost);
      t := Extend(cfg, t, KeyDown(0, cost, account), Next(t.Last(), KeyDown(0, cost, account)));
    }
  }

  lemma SpentLeaves(cfg: SchedulerConfig, account: string, cost: nat)
    requires cost <= cfg.stationBurst
    ensures var left := Left(cfg, map[], account, 0, cost);
            && left == Secs(cfg.stationBurst - cost)
            && Tokens(cfg, map[account := Bucket(left, 0)], account, 0) == left
  {
    FloorBelowBurst(cfg);
  }

  /** The expensive frame was popped, and is still in hand. */
  lemma FirstPopped(cfg: SchedulerConfig, c: Class, account: string, first: nat, second: nat) returns (t: Trace<Run, Event>)
    requires |cfg.depth| == CLASSES && cfg.depth[Index(c)] > 0 && second <= cfg.stationBurst
    ensures Ok(cfg, t) && t.Last().next > 0 && t.Last().hand == Some(Frame(t.Last().next - 1, c, account, first))
    ensures var s := t.Last().s;
            Only(s, c, []) && s.cfg == cfg && Tokens(cfg, s.buckets, account, 0) == Secs(second)
  {
    t := Spend(cfg, c, account, second);
    var a := Frame(t.Last().next, c, account, first);
    t := Extend(cfg, t, Push(a), Next(t.Last(), Push(a)));
    assert Only(t.Last().s, c, [a]);
    PopsOnly(t.Last().s, c, [a], 0);
    t := Extend(cfg, t, Pop(0), Next(t.Last(), Pop(0)));
  }

  /** The cheap one is offered, and the expensive one put back before it. */
  lemma BothQueued(cfg: SchedulerConfig, c: Class, account: string, first: nat, second: nat) returns (t: Trace<Run, Event>, n: nat)
    requires |cfg.depth| == CLASSES && cfg.depth[Index(c)] > 0 && second <= cfg.stationBurst
    ensures Ok(cfg, t) && t.Last().hand.None?
    ensures var s := t.Last().s;
            && Only(s, c, [Frame(n, c, account, first), Frame(n + 1, c, account, second)])
            && s.cfg == cfg && Tokens(cfg, s.buckets, account, 0) == Secs(second)
  {
    t := FirstPopped(cfg, c, account, first, second);
    n := t.Last().next - 1;
    var b := Frame(n + 1, c, account, second);
    t := Extend(cfg, t, Push(b), Next(t.Last(), Push(b)));
    assert Only(t.Last().s, c, [b]);
    t := Extend(cfg, t, Requeue(0, 0), Next(t.Last(), Requeue(0, 0)));
  }

  lemma Sufficient(cfg: SchedulerConfig, c: Class, account: string, first: nat, second: nat)
    requires |cfg.depth| == CLASSES && cfg.depth[Index(c)] > 0 && second < first && second <= cfg.stationBurst
    ensures Overtakes(cfg, c, account, first, second)
  {
    var t, n := BothQueued(cfg, c, account, first, second);
    var s := t.Last().s;
    var a, b := Frame(n, c, account, first), Frame(n + 1, c, account, second);
    var q := [a, b];
    assert !Funded(s, a, 0) && Funded(s, b, 0);
    assert FirstFunded(s, q, 0, 0) == FirstFunded(s, q, 0, 1) == 1;
    PopsOnly(s, c, q, 0);
    assert Without(q, 1) == [a];
    assert a in [a];
    assert OvertakesAt(cfg, c, account, first, second, t.states, t.events, |t.events|, 0, 0);
  }

  /** A frame is overtaken by a later one of its account and class, in some run, exactly if the
      later one is cheaper and a full burst pays for it (and the class takes frames at all). */
  lemma OvertakesExactly(cfg: SchedulerConfig, c: Class, account: string, first: nat, second: nat)
    requires |cfg.depth| == CLASSES
    ensures Overtakes(cfg, c, account, first, second)
            <==> cfg.depth[Index(c)] > 0 && second < first && second <= cfg.stationBurst
  {
    if Overtakes(cfg, c, account, first, second) {
      Necessary(cfg, c, account, first, second);
    }
    if cfg.depth[Index(c)] > 0 && second < first && second <= cfg.stationBurst {
      Sufficient(cfg, c, account, first, second);
    }
  }
}
