/** How often, and how soon, a reliable message is sent again or given up. */
module SessionRetries {
  import opened Common
  import opened AircFrames
  import opened Session

  /** A peer entry, the retransmission rounds spent on its message in flight, when that message
      was first reported on the air, and the time. */
  datatype Watch = Watch(peer: Peer, rounds: nat, keyedAt: Option<Instant>, clock: Instant)

  datatype Event =
    | Frame(frame: AircFrame, addressed: bool, victim: u16)
    | Send(seqno: u16, kind: Kind, payload: seq<byte>, reliable: bool)
    | DrainAck
    | Clock(retry: bool, order: seq<u16>)
    | KeyDown(seqno: u16)

  function Fresh(w: Watch, p: Peer): Watch {
    Watch(p, 0, None, w.clock)
  }

  function FollowReset(w: Watch, f: AircFrame): Watch {
    if NewEpoch(w.peer, f) then Fresh(w, HelloReset(w.peer, f)) else w
  }

  /** An acknowledgement that does not finish the message may send its holes again. */
  function FollowAck(w: Watch, ack: OwedAck): Watch {
    var (p, out) := ApplyAck(w.peer, ack);
    if AckReleases(w.peer, ack) then Fresh(w, p)
    else w.(peer := p, rounds := w.rounds + (if out != [] then 1 else 0))
  }

  function FollowAcks(w: Watch, acks: seq<OwedAck>): Watch
    decreases |acks|
  {
    if acks == [] then w else FollowAcks(FollowAck(w, acks[0]), acks[1..])
  }

  function FollowFrame(cfg: SessionConfig, w: Watch, f: AircFrame, addressed: bool, victim: u16): Watch
    requires f.FragmentOk()
  {
    var w1 := FollowAcks(FollowReset(w, f), AcksIn(f));
    if f.kind == Ack then w1 else w1.(peer := Accept(cfg, w1.peer, f, w.clock, addressed, victim).0)
  }

  function FollowSend(cfg: SessionConfig, w: Watch, seqno: u16, kind: Kind, payload: seq<byte>, reliable: bool): Watch {
    var p := Enqueue(cfg, w.peer, seqno, kind, payload, reliable).0;
    if w.peer.pending.None? then Fresh(w, p) else w.(peer := p)
  }

  /** The timer sent something besides the bitmaps of expired entries. */
  predicate TimerResent(cfg: SessionConfig, p: Peer, now: Instant, retry: bool, order: seq<u16>) {
    |TickFirst(cfg, p, now, retry, order).transmit| > |ExpiryAcks(p, order)|
  }

  function FollowClock(cfg: SessionConfig, w: Watch, retry: bool, order: seq<u16>): Watch {
    var first := TickFirst(cfg, w.peer, w.clock, retry, order);
    if first.givingUp then Fresh(w, Finish(first).peer)
    else w.(peer := first.peer, rounds := w.rounds + (if TimerResent(cfg, w.peer, w.clock, retry, order) then 1 else 0))
  }

  function FollowKeyDown(cfg: SessionConfig, w: Watch, seqno: u16): Watch {
    w.(peer := Keyed(cfg, w.peer, seqno, w.clock),
       keyedAt := if AckMatches(w.peer, seqno) && w.keyedAt.None? then Some(w.clock) else w.keyedAt)
  }

  predicate Possible(cfg: SessionConfig, w: Watch, ev: Event) {
    match ev
    case Frame(f, _, _) => f.FragmentOk()
    case Clock(retry, order) => !Tick(cfg, w.peer, w.clock, retry, order).lost
    case _ => true
  }

  /** One operation on the entry, at time `now`. */
  function Follow(cfg: SessionConfig, w0: Watch, now: Instant, ev: Event): Watch
    requires Possible(cfg, w0.(clock := now), ev)
  {
    var w := w0.(clock := now);
    match ev
    case Frame(f, addressed, victim) => FollowFrame(cfg, w.(peer := w.peer.(lastHeard := now)), f, addressed, victim)
    case Send(seqno, kind, payload, reliable) => FollowSend(cfg, w, seqno, kind, payload, reliable)
    case DrainAck => w.(peer := Drain(w.peer).0)
    case Clock(retry, order) => FollowClock(cfg, w, retry, order)
    case KeyDown(seqno) => FollowKeyDown(cfg, w, seqno)
  }

  // ---- The watched entry is the entry ----

  lemma {:induction false} FollowAcksIsApplyAcks(w: Watch, acks: seq<OwedAck>)
    ensures FollowAcks(w, acks).peer == ApplyAcks(w.peer, acks).0
    ensures FollowAcks(w, acks).clock == w.clock
    decreases |acks|
  {
    if acks != [] {
      FollowAcksIsApplyAcks(FollowAck(w, acks[0]), acks[1..]);
    }
  }

  lemma FollowIsSession(cfg: SessionConfig, w: Watch, now: Instant, ev: Event)
    requires Possible(cfg, w.(clock := now), ev)
    ensures Follow(cfg, w, now, ev).clock == now
    ensures Follow(cfg, w, now, ev).peer ==
            match ev
            case Frame(f, addressed, victim) => Receive(cfg, w.peer.(lastHeard := now), f, now, addressed, victim).0
            case Send(seqno, kind, payload, reliable) => Enqueue(cfg, w.peer, seqno, kind, payload, reliable).0
            case DrainAck => Drain(w.peer).0
            case Clock(retry, order) => Tick(cfg, w.peer, now, retry, order).peer
            case KeyDown(seqno) => Keyed(cfg, w.peer, seqno, now)
  {
    if ev.Frame? {
      var w1 := w.(clock := now, peer := w.peer.(lastHeard := now));
      FollowAcksIsApplyAcks(FollowReset(w1, ev.frame), AcksIn(ev.frame));
    }
  }

  // ---- The invariant ----

  /** `sum of min(k, 4) for k in 1..=n`: what back-off waits, in units of the ack timeout. */
  function BackoffSum(n: nat): nat {
    if n == 0 then 0 else BackoffSum(n - 1) + Min(n, 4)
  }

  function Left(p: Pending): nat
    requires |p.acked| == |p.frames|
  {
    Unacked(p.acked, |p.acked|)
  }

  predicate RoundsOk(cfg: SessionConfig, p: Pending, rounds: nat)
    requires |p.acked| == |p.frames|
  {
    && p.attempts <= cfg.maxRetries
    && Left(p) <= |p.frames|
    && rounds <= (|p.frames| - Left(p)) * (cfg.maxRetries + 1) + p.attempts
  }

  /** When the timer may next act on the message, given how often it already did. */
  predicate TimingOk(cfg: SessionConfig, p: Pending, keyedAt: Option<Instant>, clock: Instant) {
    && (p.nextRetry.Some? ==> keyedAt.Some?)
    && (p.attempts > 0 ==> keyedAt.Some? && clock >= keyedAt.value + cfg.ackTimeout * (1 + BackoffSum(p.attempts - 1)))
    && (keyedAt.Some? ==> clock >= keyedAt.value)
    && (p.nextRetry.Some? ==> p.nextRetry.value >= keyedAt.value + cfg.ackTimeout * (1 + BackoffSum(p.attempts)))
  }

  predicate WatchOk(cfg: SessionConfig, w: Watch) {
    && PeerOk(w.peer)
    && (w.peer.pending.Some? ==>
          && RoundsOk(cfg, w.peer.pending.value, w.rounds)
          && TimingOk(cfg, w.peer.pending.value, w.keyedAt, w.clock))
  }

  lemma {:induction false} UnackedBounds(acked: seq<bool>, n: nat)
    requires n <= |acked|
    ensures Unacked(acked, n) <= n
    ensures (exists i :: 0 <= i < n && !acked[i]) ==> Unacked(acked, n) >= 1
    ensures (forall i :: 0 <= i < n ==> !acked[i]) ==> Unacked(acked, n) == n
  {
    if n > 0 {
      UnackedBounds(acked, n - 1);
    }
  }

  /** Marking more fragments leaves fewer holes, strictly fewer if any is newly marked. */
  lemma {:induction false} UnackedShrinks(acked: seq<bool>, more: seq<bool>, n: nat)
    requires n <= |acked| == |more|
    requires forall i :: 0 <= i < |acked| && acked[i] ==> more[i]
    ensures Unacked(more, n) <= Unacked(acked, n)
    ensures acked[..n] != more[..n] ==> Unacked(more, n) < Unacked(acked, n)
  {
    if n > 0 {
      UnackedShrinks(acked, more, n - 1);
      assert acked[..n] == acked[..n - 1] + [acked[n - 1]];
      assert more[..n] == more[..n - 1] + [more[n - 1]];
    }
  }

  lemma MulStep(a: nat, b: nat, k: nat)
    requires a + 1 <= b
    ensures a * k + k <= b * k
  {
    assert (b - a - 1) * k >= 0;
    assert b * k == a * k + k + (b - a - 1) * k;
  }

  lemma FreshOk(cfg: SessionConfig, w: Watch, p: Peer)
    requires PeerOk(p)
    requires p.pending.Some? ==> p.pending.value == StartPending(p.pending.value.frames)
    ensures WatchOk(cfg, Fresh(w, p))
  {
    if p.pending.Some? {
      UnackedBounds(p.pending.value.acked, |p.pending.value.acked|);
    }
  }

  lemma ResetKeeps(cfg: SessionConfig, w: Watch, f: AircFrame)
    requires WatchOk(cfg, w)
    ensures WatchOk(cfg, FollowReset(w, f))
  {
  }

  /** Progress on a bitmap: one more round, one hole fewer, the retries start over. */
  lemma ProgressOk(cfg: SessionConfig, p: Pending, rounds: nat, more: seq<bool>)
    requires |p.acked| == |p.frames| == |more| && RoundsOk(cfg, p, rounds) && more != p.acked
    requires forall i :: 0 <= i < |more| && p.acked[i] ==> more[i]
    ensures RoundsOk(cfg, Pending(p.frames, more, 0, None), rounds + 1)
  {
    UnackedShrinks(p.acked, more, |more|);
    assert p.acked[..|more|] == p.acked && more[..|more|] == more;
    MulStep(|p.frames| - Left(p), |p.frames| - Unacked(more, |more|), cfg.maxRetries + 1);
  }

  lemma AckKeeps(cfg: SessionConfig, w: Watch, ack: OwedAck)
    requires WatchOk(cfg, w)
    ensures WatchOk(cfg, FollowAck(w, ack))
  {
    ApplyAckOk(w.peer, ack);
    var (p, out) := ApplyAck(w.peer, ack);
    if AckReleases(w.peer, ack) {
      FreshOk(cfg, w, p);
    } else if AckMatches(w.peer, ack.seqno) {
      var pending := w.peer.pending.value;
      var acked := MergeAcked(pending.acked, ack.bitmap.value);
      if acked != pending.acked {
        ProgressOk(cfg, pending, w.rounds, acked);
      }
    }
  }

  lemma {:induction false} AcksKeep(cfg: SessionConfig, w: Watch, acks: seq<OwedAck>)
    requires WatchOk(cfg, w)
    ensures WatchOk(cfg, FollowAcks(w, acks))
    decreases |acks|
  {
    if acks != [] {
      AckKeeps(cfg, w, acks[0]);
      AcksKeep(cfg, FollowAck(w, acks[0]), acks[1..]);
    }
  }

  lemma AcceptKeepsPending(cfg: SessionConfig, p: Peer, f: AircFrame, now: Instant, addressed: bool, victim: u16)
    requires f.FragmentOk()
    ensures Accept(cfg, p, f, now, addressed, victim).0.pending == p.pending
  {
  }

  lemma FrameKeeps(cfg: SessionConfig, w: Watch, f: AircFrame, addressed: bool, victim: u16)
    requires WatchOk(cfg, w) && f.FragmentOk()
    ensures WatchOk(cfg, FollowFrame(cfg, w, f, addressed, victim))
  {
    ResetKeeps(cfg, w, f);
    AcksKeep(cfg, FollowReset(w, f), AcksIn(f));
    var w1 := FollowAcks(FollowReset(w, f), AcksIn(f));
    AcceptOk(cfg, w1.peer, f, w.clock, addressed, victim);
    AcceptKeepsPending(cfg, w1.peer, f, w.clock, addressed, victim);
  }

  lemma SendPending(cfg: SessionConfig, p: Peer, seqno: u16, kind: Kind, payload: seq<byte>, reliable: bool)
    ensures var q := Enqueue(cfg, p, seqno, kind, payload, reliable).0;
            && (p.pending.Some? ==> q.pending == p.pending)
            && (p.pending.None? && q.pending.Some? ==> q.pending.value == StartPending(q.pending.value.frames))
  {
  }

  lemma SendKeeps(cfg: SessionConfig, w: Watch, seqno: u16, kind: Kind, payload: seq<byte>, reliable: bool)
    requires WatchOk(cfg, w)
    ensures WatchOk(cfg, FollowSend(cfg, w, seqno, kind, payload, reliable))
  {
    EnqueueOk(cfg, w.peer, seqno, kind, payload, reliable);
    SendPending(cfg, w.peer, seqno, kind, payload, reliable);
    if w.peer.pending.None? {
      FreshOk(cfg, w, Enqueue(cfg, w.peer, seqno, kind, payload, reliable).0);
    }
  }

  lemma MulDist(t: nat, a: int, b: int)
    ensures t * (a + b) == t * a + t * b
  {
  }

  lemma MulMono(t: nat, a: int, b: int)
    requires a <= b
    ensures t * a <= t * b
  {
    assert t * (b - a) >= 0;
    MulDist(t, a, b - a);
  }

  /** The timer fires: one attempt more, and the next one is a longer back-off away. */
  lemma RetryOk(cfg: SessionConfig, p: Pending, keyedAt: Option<Instant>, clock: Instant)
    requires TimingOk(cfg, p, keyedAt, clock) && p.nextRetry.Some? && clock >= p.nextRetry.value
    ensures TimingOk(cfg, p.(attempts := p.attempts + 1, nextRetry := Some(clock + Backoff(cfg, p.attempts + 1))), keyedAt, clock)
  {
    MulDist(cfg.ackTimeout, 1 + BackoffSum(p.attempts), Min(p.attempts + 1, 4));
  }

  lemma ClockKeeps(cfg: SessionConfig, w: Watch, retry: bool, order: seq<u16>)
    requires WatchOk(cfg, w)
    ensures WatchOk(cfg, FollowClock(cfg, w, retry, order))
  {
    TickOk(cfg, w.peer, w.clock, retry, order);
    var first := TickFirst(cfg, w.peer, w.clock, retry, order);
    if first.givingUp {
      FreshOk(cfg, w, Finish(first).peer);
    } else if first.peer.pending != w.peer.pending {
      RetryOk(cfg, w.peer.pending.value, w.keyedAt, w.clock);
    }
  }

  /** A key-down report restarts the wait it belongs to. */
  lemma KeyedTiming(cfg: SessionConfig, p: Pending, keyedAt: Option<Instant>, clock: Instant)
    requires TimingOk(cfg, p, keyedAt, clock)
    ensures TimingOk(cfg, p.(nextRetry := Some(clock + Backoff(cfg, Max(p.attempts, 1)))),
                     if keyedAt.None? then Some(clock) else keyedAt, clock)
  {
    if p.attempts > 0 {
      MulDist(cfg.ackTimeout, 1 + BackoffSum(p.attempts - 1), Min(p.attempts, 4));
    }
  }

  lemma KeyDownKeeps(cfg: SessionConfig, w: Watch, seqno: u16)
    requires WatchOk(cfg, w)
    ensures WatchOk(cfg, FollowKeyDown(cfg, w, seqno))
  {
    if AckMatches(w.peer, seqno) {
      KeyedTiming(cfg, w.peer.pending.value, w.keyedAt, w.clock);
    }
  }

  lemma FollowKeeps(cfg: SessionConfig, w: Watch, now: Instant, ev: Event)
    requires WatchOk(cfg, w) && now >= w.clock && Possible(cfg, w.(clock := now), ev)
    ensures WatchOk(cfg, Follow(cfg, w, now, ev))
  {
    var w1 := w.(clock := now);
    match ev
    case Frame(f, addressed, victim) => FrameKeeps(cfg, w1.(peer := w1.peer.(lastHeard := now)), f, addressed, victim);
    case Send(seqno, kind, payload, reliable) => SendKeeps(cfg, w1, seqno, kind, payload, reliable);
    case DrainAck =>
    case Clock(retry, order) => ClockKeeps(cfg, w1, retry, order);
    case KeyDown(seqno) => KeyDownKeeps(cfg, w1, seqno);
  }

  // ---- Whole runs ----

  ghost predicate IsWatch(cfg: SessionConfig, ws: seq<Watch>, times: seq<Instant>, evs: seq<Event>) {
    && |ws| == |evs| + 1 && |times| == |evs|
    && (exists t :: ws[0] == Watch(NewPeer(t), 0, None, t))
    && forall i :: 0 <= i < |evs| ==>
         && times[i] >= ws[i].clock
         && Possible(cfg, ws[i].(clock := times[i]), evs[i])
         && ws[i + 1] == Follow(cfg, ws[i], times[i], evs[i])
  }

  lemma {:induction false} WatchKeeps(cfg: SessionConfig, ws: seq<Watch>, times: seq<Instant>, evs: seq<Event>, n: nat)
    requires IsWatch(cfg, ws, times, evs) && n < |ws|
    ensures WatchOk(cfg, ws[n])
  {
    if n > 0 {
      WatchKeeps(cfg, ws, times, evs, n - 1);
      FollowKeeps(cfg, ws[n - 1], times[n - 1], evs[n - 1]);
    }
  }

  /** A message of n fragments is sent again at most n * (max_retries + 1) - 1 times; throughout,
      it has an unacknowledged fragment, and no message in flight means none is queued. */
  lemma RetransmissionsBounded(cfg: SessionConfig, ws: seq<Watch>, times: seq<Instant>, evs: seq<Event>, n: nat)
    requires IsWatch(cfg, ws, times, evs) && n < |ws|
    ensures var p := ws[n].peer;
            && (p.pending.Some? ==> ws[n].rounds <= |p.pending.value.frames| * (cfg.maxRetries + 1) - 1)
            && (p.pending.Some? ==> exists i :: 0 <= i < |p.pending.value.acked| && !p.pending.value.acked[i])
            && (p.pending.None? ==> p.queue == [])
  {
    WatchKeeps(cfg, ws, times, evs, n);
    if ws[n].peer.pending.Some? {
      var p := ws[n].peer.pending.value;
      UnackedBounds(p.acked, |p.acked|);
      MulStep(|p.frames| - Left(p), |p.frames|, cfg.maxRetries + 1);
    }
  }

  /** The timer neither repeats nor gives up a message that was never reported on the air, and
      gives it up no sooner than every back-off after the first report. */
  lemma TimerWaitsForKeyDown(cfg: SessionConfig, ws: seq<Watch>, times: seq<Instant>, evs: seq<Event>, n: nat,
                             now: Instant, retry: bool, order: seq<u16>)
    requires IsWatch(cfg, ws, times, evs) && n < |ws| && now >= ws[n].clock
    ensures TimerResent(cfg, ws[n].peer, now, retry, order) ==> ws[n].keyedAt.Some? && ws[n].keyedAt.value + cfg.ackTimeout <= now
    ensures TickFirst(cfg, ws[n].peer, now, retry, order).givingUp ==>
              && ws[n].keyedAt.Some?
              && now >= ws[n].keyedAt.value + cfg.ackTimeout * (1 + BackoffSum(cfg.maxRetries))
  {
    WatchKeeps(cfg, ws, times, evs, n);
    var peer := ws[n].peer;
    if peer.pending.Some? {
      MulMono(cfg.ackTimeout, 1, 1 + BackoffSum(peer.pending.value.attempts));
    }
  }
}
