/** Safety of the reliable exchange over every run of two stations. */
module TwoPartySafety {
  import opened Common
  import opened AircFrames
  import opened Session
  import opened TwoParty

  // ---- The invariant, piece by piece ----

  ghost predicate MessageOk(m: Message) {
    m.kind != Ack && Concat(m.chunks) == m.payload && 1 <= |m.chunks| <= 255
  }

  /** A frame that carries fragment `fragIndex` of a logged message. */
  ghost predicate DataOk(log: map<u16, Message>, f: AircFrame) {
    && f.seqno in log
    && f.kind == log[f.seqno].kind && f.kind != Ack
    && f.fragTotal == |log[f.seqno].chunks| && f.fragIndex < f.fragTotal
    && f.payload == log[f.seqno].chunks[f.fragIndex]
  }

  /** All the frames of one logged message, in order. */
  ghost predicate FramesOk(log: map<u16, Message>, frames: seq<AircFrame>) {
    && |frames| > 0 && frames[0].seqno in log && |frames| == |log[frames[0].seqno].chunks|
    && forall i :: 0 <= i < |frames| ==>
         frames[i].seqno == frames[0].seqno && frames[i].fragIndex == i && frames[i].piggyback.None? && DataOk(log, frames[i])
  }

  /** What an acknowledgement by `e` says is true of what `e` received. */
  ghost predicate ClaimOk(e: Endpoint, ack: OwedAck) {
    && (ack.bitmap.None? ==> ack.seqno in e.delivered)
    && (ack.bitmap.Some? ==> |ack.bitmap.value| > 0)
    && (ack.bitmap.Some? ==> forall i: nat :: BitOf(ack.bitmap.value, i) ==> (ack.seqno, i) in e.stored)
  }

  ghost predicate FrameOk(e: Endpoint, f: AircFrame) {
    && f.FragmentOk()
    && (f.kind != Ack ==> DataOk(e.log, f))
    && (forall i :: 0 <= i < |AcksIn(f)| ==> ClaimOk(e, AcksIn(f)[i]))
  }

  ghost predicate AirOk(e: Endpoint) {
    forall p :: p in e.air ==> FrameOk(e, p.frame)
  }

  ghost predicate NumbersOk(e: Endpoint) {
    && e.allocs <= 65535 && (e.allocs < 65535 ==> e.nextSeq == e.allocs + 1)
    && (forall s :: s in e.log ==> 1 <= s <= e.allocs && MessageOk(e.log[s]))
    && (forall i, j :: 0 <= i < j < |e.order| ==> e.order[i] < e.order[j])
    && (forall i :: 0 <= i < |e.order| ==> e.order[i] in e.log)
  }

  ghost predicate HeldOk(e: Endpoint) {
    && PeerOk(e.peer)
    && (e.peer.pending.Some? ==> FramesOk(e.log, e.peer.pending.value.frames))
    && (forall i :: 0 <= i < |e.peer.queue| ==> FramesOk(e.log, e.peer.queue[i]))
  }

  /** The messages still waiting are the tail of the enqueue order; all before them are settled. */
  ghost predicate OrderOk(e: Endpoint)
    requires PeerOk(e.peer)
  {
    var w := Waiting(e.peer);
    && |w| <= |e.order|
    && w == e.order[|e.order| - |w|..]
    && forall i :: 0 <= i < |e.order| - |w| ==> e.order[i] in e.released || e.order[i] in e.abandoned
  }

  /** No frame of a queued message has been transmitted yet. */
  ghost predicate UnstartedOk(e: Endpoint)
    requires PeerOk(e.peer)
  {
    forall p, i :: p in e.air && p.frame.kind != Ack && 0 <= i < |e.peer.queue| ==> p.frame.seqno != e.peer.queue[i][0].seqno
  }

  ghost predicate ReceivedOk(e: Endpoint) {
    && (e.peer.owedAck.Some? ==> ClaimOk(e, e.peer.owedAck.value))
    && (forall i :: 0 <= i < |e.peer.seen| ==> e.peer.seen[i] in e.delivered)
    && (forall s :: s in e.delivered ==> exists j :: 0 <= j < |e.deliveries| && e.deliveries[j].seqno == s)
    && (forall s: u16, i: nat :: (s, i) in e.stored ==>
          s in e.delivered || s in e.discarded
          || (s in e.peer.reasm && i < |e.peer.reasm[s].parts| && e.peer.reasm[s].parts[i].Some?))
  }

  ghost predicate SelfOk(e: Endpoint) {
    NumbersOk(e) && HeldOk(e) && AirOk(e) && OrderOk(e) && UnstartedOk(e) && ReceivedOk(e)
  }

  /** The fragments in hand are fragments of the message the sender logged. */
  ghost predicate EntryOk(log: map<u16, Message>, stored: set<(u16, nat)>, s: u16, r: Reassembly) {
    && s in log && r.kind == log[s].kind && |r.parts| == |log[s].chunks|
    && forall i: nat :: i < |r.parts| && r.parts[i].Some? ==> r.parts[i].value == log[s].chunks[i] && (s, i) in stored
  }

  ghost predicate AckedOk(tx: Endpoint, rx: Endpoint) {
    tx.peer.pending.Some? ==>
      var p := tx.peer.pending.value;
      |p.frames| > 0 && forall i: nat :: i < |p.acked| && p.acked[i] ==> (p.frames[0].seqno, i) in rx.stored
  }

  ghost predicate StoredOk(tx: Endpoint, rx: Endpoint) {
    forall s: u16, i: nat :: (s, i) in rx.stored ==> s in tx.log && i < |tx.log[s].chunks|
  }

  ghost predicate ReasmOk(tx: Endpoint, rx: Endpoint) {
    forall s :: s in rx.peer.reasm ==> EntryOk(tx.log, rx.stored, s, rx.peer.reasm[s])
  }

  /** A message released by an acknowledgement was delivered, or the receiver says it threw fragments away. */
  ghost predicate ReleasedOk(tx: Endpoint, rx: Endpoint) {
    forall s :: s in tx.released ==> s in rx.delivered || s in rx.discarded
  }

  /** What was delivered is what was enqueued under that number. */
  ghost predicate IntegrityOk(tx: Endpoint, rx: Endpoint) {
    forall j :: 0 <= j < |rx.deliveries| ==>
      var d := rx.deliveries[j];
      d.seqno in tx.log && d.kind == tx.log[d.seqno].kind && (d.kind == Hello || d.payload == tx.log[d.seqno].payload)
  }

  ghost predicate DeliveredBefore(rx: Endpoint, j: nat, s: u16) {
    exists i :: 0 <= i < j <= |rx.deliveries| && rx.deliveries[i].seqno == s
  }

  /** Reliable messages are first delivered in enqueue order, but for those given up or thrown away. */
  ghost predicate InOrder(tx: Endpoint, rx: Endpoint) {
    forall j, k1, k2 :: 0 <= j < |rx.deliveries| && 0 <= k1 < k2 < |tx.order| && tx.order[k2] == rx.deliveries[j].seqno ==>
      DeliveredBefore(rx, j, tx.order[k1]) || tx.order[k1] in tx.abandoned || tx.order[k1] in rx.discarded
  }

  ghost predicate CrossOk(tx: Endpoint, rx: Endpoint) {
    && AckedOk(tx, rx) && StoredOk(tx, rx) && ReasmOk(tx, rx) && ReleasedOk(tx, rx) && IntegrityOk(tx, rx) && InOrder(tx, rx)
  }

  ghost predicate Inv(e: Endpoint, o: Endpoint) {
    SelfOk(e) && SelfOk(o) && CrossOk(e, o) && CrossOk(o, e)
  }

  // ---- Consequences of the invariant ----

  /** If every fragment was stored at some time, the message was delivered or thrown away. */
  lemma AllStored(tx: Endpoint, rx: Endpoint, s: u16)
    requires SelfOk(rx) && CrossOk(tx, rx) && s in tx.log && |tx.log[s].chunks| > 0
    requires forall i: nat :: i < |tx.log[s].chunks| ==> (s, i) in rx.stored
    ensures s in rx.delivered || s in rx.discarded
  {
    if s !in rx.delivered && s !in rx.discarded {
      assert (s, 0) in rx.stored;
      var parts := rx.peer.reasm[s].parts;
      assert EntryOk(tx.log, rx.stored, s, rx.peer.reasm[s]);
      forall i: nat | i < |parts| ensures parts[i].Some? {
        assert (s, i) in rx.stored;
      }
      assert AllParts(parts);
    }
  }

  /** Nothing of a message reaches the air before every earlier reliable message is settled. */
  lemma StartedInOrder(e: Endpoint, p: Packet, k1: nat, k2: nat)
    requires SelfOk(e) && p in e.air && p.frame.kind != Ack
    requires k1 < k2 < |e.order| && e.order[k2] == p.frame.seqno
    ensures e.order[k1] in e.released || e.order[k1] in e.abandoned
  {
    var w := Waiting(e.peer);
    assert k1 < |e.order| - |w|;
  }

  lemma {:induction false} InitOk(a: SessionConfig, b: SessionConfig, now: Instant)
    ensures Inv(Fresh(a, now), Fresh(b, now))
  {
  }

  // ---- Each operation keeps it ----

  ghost predicate Blank(p: Peer) {
    p.pending.None? && p.queue == [] && p.owedAck.None? && p.seen == [] && p.reasm == map[]
  }

  lemma DropKeeps(e: Endpoint, o: Endpoint, blank: Peer)
    requires Inv(e, o) && Blank(blank)
    ensures Inv(DropSession(e, blank), o)
  {
    var e' := DropSession(e, blank);
    assert Waiting(blank) == [];
    forall i | 0 <= i < |e.order| ensures e.order[i] in e'.released || e.order[i] in e'.abandoned {
      var w := Waiting(e.peer);
      if i >= |e.order| - |w| {
        assert w[i - (|e.order| - |w|)] in ToSet(w);
      }
    }
    assert OrderOk(e');
  }

  lemma TouchKeeps(e: Endpoint, o: Endpoint, now: Instant)
    requires Inv(e, o)
    ensures Inv(e.(peer := e.peer.(lastHeard := now)), o)
  {
  }

  lemma KeyedKeeps(e: Endpoint, o: Endpoint, seqno: u16, now: Instant)
    requires Inv(e, o)
    ensures Inv(KeyedUp(e, seqno, now), o)
  {
  }

  lemma SpendKeeps(e: Endpoint, o: Endpoint)
    requires Inv(e, o) && e.allocs < 65535
    ensures Inv(Spend(e), o)
  {
  }

  /** More frames on the air, none of them of a queued message. */
  lemma TransmitKeeps(e: Endpoint, o: Endpoint, frames: seq<AircFrame>)
    requires Inv(e, o)
    requires forall f :: f in frames ==> FrameOk(e, f)
    requires forall f, i :: f in frames && f.kind != Ack && 0 <= i < |e.peer.queue| ==> f.seqno != e.peer.queue[i][0].seqno
    ensures Inv(e.(air := e.air + Packets(frames, true)), o)
  {
    var e' := e.(air := e.air + Packets(frames, true));
    forall p | p in e'.air ensures FrameOk(e', p.frame) {
      assert FrameOk(e, p.frame);
    }
  }

  lemma AckFrameOk(e: Endpoint, ack: OwedAck)
    requires ClaimOk(e, ack)
    ensures FrameOk(e, OwedFrame(ack)) && OwedFrame(ack).kind == Ack
  {
    OwedFrameParses(ack);
    assert AcksIn(OwedFrame(ack)) == [ack];
  }

  lemma DrainKeeps(e: Endpoint, o: Endpoint)
    requires Inv(e, o)
    ensures Inv(Drained(e), o)
  {
    if e.peer.owedAck.Some? {
      AckFrameOk(e, e.peer.owedAck.value);
      TransmitKeeps(e, o, [OwedFrame(e.peer.owedAck.value)]);
      var e1 := e.(air := e.air + Packets([OwedFrame(e.peer.owedAck.value)], true));
      UnoweKeeps(e1, o);
    } else {
      assert Packets([], true) == {};
    }
  }

  lemma UnoweKeeps(e: Endpoint, o: Endpoint)
    requires Inv(e, o)
    ensures Inv(e.(peer := e.peer.(owedAck := None)), o)
  {
  }

  /** A bitmap made from an entry claims only fragments that were stored. */
  lemma BitmapClaimOk(tx: Endpoint, rx: Endpoint, s: u16)
    requires ReasmOk(tx, rx) && s in rx.peer.reasm
    ensures ClaimOk(rx, OwedAck(s, Some(Bitmap(rx.peer.reasm[s].parts))))
  {
    var parts := rx.peer.reasm[s].parts;
    forall i: nat | BitOf(Bitmap(parts), i) ensures (s, i) in rx.stored {
      BitmapReports(parts, i);
    }
  }

  lemma {:induction false} ExpiryAcksOk(e: Endpoint, o: Endpoint, order: seq<u16>, n: nat)
    requires ReasmOk(o, e) && n <= |order|
    ensures forall f :: f in ExpiryAcksPrefix(e.peer, order, n) ==> FrameOk(e, f) && f.kind == Ack
  {
    if n > 0 {
      ExpiryAcksOk(e, o, order, n - 1);
      var s := order[n - 1];
      if s in e.peer.reasm && e.peer.reasm[s].wantAck {
        BitmapClaimOk(o, e, s);
        AckFrameOk(e, OwedAck(s, Some(Bitmap(e.peer.reasm[s].parts))));
      }
    }
  }

  lemma ExpireKeeps(e: Endpoint, o: Endpoint, now: Instant, order: seq<u16>)
    requires Inv(e, o)
    ensures Inv(ExpiredAt(e, now, order), o)
  {
    ExpiryAcksOk(e, o, order, |order|);
    TransmitKeeps(e, o, ExpiryAcks(e.peer, order));
    DiscardKeeps(e.(air := e.air + Packets(ExpiryAcks(e.peer, order), true)), o, Expired(e.cfg, e.peer, now));
  }

  lemma DiscardSelf(e: Endpoint, gone: set<u16>)
    requires SelfOk(e)
    ensures SelfOk(e.(peer := e.peer.(reasm := e.peer.reasm - gone), discarded := e.discarded + gone))
  {
    var e' := e.(peer := e.peer.(reasm := e.peer.reasm - gone), discarded := e.discarded + gone);
    forall p | p in e'.air ensures FrameOk(e', p.frame) {
      assert FrameOk(e, p.frame);
    }
  }

  lemma DiscardKeeps(e: Endpoint, o: Endpoint, gone: set<u16>)
    requires Inv(e, o)
    ensures Inv(e.(peer := e.peer.(reasm := e.peer.reasm - gone), discarded := e.discarded + gone), o)
  {
    var e' := e.(peer := e.peer.(reasm := e.peer.reasm - gone), discarded := e.discarded + gone);
    DiscardSelf(e, gone);
    assert CrossOk(e', o);
    assert CrossOk(o, e');
  }

  lemma {:induction false} HolesOk(e: Endpoint, frames: seq<AircFrame>, acked: seq<bool>, n: nat)
    requires FramesOk(e.log, frames) && n <= |frames|
    ensures forall f :: f in HolesPrefix(frames, acked, n) ==> FrameOk(e, f) && f.kind != Ack && f.seqno == frames[0].seqno
  {
    if n > 0 {
      HolesOk(e, frames, acked, n - 1);
      assert DataOk(e.log, frames[n - 1]);
      assert AcksIn(frames[n - 1].WithFlag(RETRY)) == [];
    }
  }

  lemma PendingNotQueued(e: Endpoint, i: nat)
    requires SelfOk(e) && e.peer.pending.Some? && i < |e.peer.queue|
    ensures e.peer.queue[i][0].seqno != e.peer.pending.value.frames[0].seqno
  {
    var w := Waiting(e.peer);
    assert w[0] == e.peer.pending.value.frames[0].seqno && w[i + 1] == e.peer.queue[i][0].seqno;
  }

  lemma HolesKeep(e: Endpoint, o: Endpoint, acked: seq<bool>)
    requires Inv(e, o) && e.peer.pending.Some?
    ensures Inv(e.(air := e.air + Packets(Holes(e.peer.pending.value.frames, acked), true)), o)
  {
    var frames := e.peer.pending.value.frames;
    HolesOk(e, frames, acked, |frames|);
    forall f, i | f in Holes(frames, acked) && f.kind != Ack && 0 <= i < |e.peer.queue| ensures f.seqno != e.peer.queue[i][0].seqno {
      PendingNotQueued(e, i);
    }
    TransmitKeeps(e, o, Holes(frames, acked));
  }

  lemma RetryAt(e: Endpoint, o: Endpoint, attempts: nat, next: Option<Instant>)
    requires Inv(e, o) && e.peer.pending.Some?
    ensures Inv(Resent(e, attempts, next), o)
  {
    var p := e.peer.pending.value;
    RearmKeeps(e, o, attempts, next);
    HolesKeep(e.(peer := e.peer.(pending := Some(p.(attempts := attempts, nextRetry := next)))), o, p.acked);
  }

  lemma RetryKeeps(e: Endpoint, o: Endpoint, now: Instant)
    requires Inv(e, o)
    ensures Inv(Retried(e, now), o)
  {
    if e.peer.pending.Some? {
      var p := e.peer.pending.value;
      RetryAt(e, o, p.attempts + 1, Some(now + Backoff(e.cfg, p.attempts + 1)));
      assert Retried(e, now) == Resent(e, p.attempts + 1, Some(now + Backoff(e.cfg, p.attempts + 1)));
    } else {
      assert Retried(e, now) == e;
    }
  }

  lemma RearmKeeps(e: Endpoint, o: Endpoint, attempts: nat, next: Option<Instant>)
    requires Inv(e, o) && e.peer.pending.Some?
    ensures Inv(e.(peer := e.peer.(pending := Some(e.peer.pending.value.(attempts := attempts, nextRetry := next)))), o)
  {
  }

  /** Move on to the next queued message. */
  function Advanced(e: Endpoint): Endpoint {
    var (p, out) := StartNext(e.peer);
    e.(peer := p, air := e.air + Packets(out, true))
  }

  lemma WaitingAdvances(p: Peer)
    requires PeerOk(p) && p.pending.Some?
    ensures PeerOk(StartNext(p).0) && Waiting(StartNext(p).0) == Waiting(p)[1..]
  {
    StartNextOk(p);
    var q := StartNext(p).0;
    if p.queue != [] {
      assert forall i :: 0 <= i < |q.queue| ==> q.queue[i] == p.queue[i + 1];
    }
  }

  lemma QueueDistinct(e: Endpoint, i: nat, j: nat)
    requires SelfOk(e) && i < j < |e.peer.queue|
    ensures e.peer.queue[i][0].seqno != e.peer.queue[j][0].seqno
  {
    var w := Waiting(e.peer);
    var n := if e.peer.pending.Some? then 1 else 0;
    assert w[i + n] == e.peer.queue[i][0].seqno && w[j + n] == e.peer.queue[j][0].seqno;
  }

  lemma FramesAreOk(e: Endpoint, frames: seq<AircFrame>)
    requires FramesOk(e.log, frames)
    ensures forall f :: f in frames ==> FrameOk(e, f) && f.kind != Ack && f.seqno == frames[0].seqno
  {
    forall f | f in frames ensures FrameOk(e, f) && f.kind != Ack && f.seqno == frames[0].seqno {
      var i :| 0 <= i < |frames| && frames[i] == f;
      assert AcksIn(f) == [];
    }
  }

  lemma AdvanceKeeps(e: Endpoint, o: Endpoint)
    requires Inv(e, o) && e.peer.pending.Some?
    requires var s := e.peer.pending.value.frames[0].seqno; s in e.released || s in e.abandoned
    ensures Inv(Advanced(e), o)
  {
    var e1 := e.(peer := StartNext(e.peer).0);
    AdvanceSelf(e, e1);
    AdvanceCross(e, e1, o);
    if e.peer.queue == [] {
      assert Packets([], true) == {};
    } else {
      StartTransmits(e, e1, o);
    }
  }

  lemma AdvanceCross(e: Endpoint, e1: Endpoint, o: Endpoint)
    requires Inv(e, o) && e1 == e.(peer := StartNext(e.peer).0) && SelfOk(e1)
    ensures Inv(e1, o)
  {
  }

  lemma StartTransmits(e: Endpoint, e1: Endpoint, o: Endpoint)
    requires SelfOk(e) && e.peer.queue != [] && e1 == e.(peer := StartNext(e.peer).0) && Inv(e1, o)
    ensures Inv(e1.(air := e1.air + Packets(e.peer.queue[0], true)), o)
  {
    FramesAreOk(e1, e.peer.queue[0]);
    forall f, i | f in e.peer.queue[0] && f.kind != Ack && 0 <= i < |e1.peer.queue| ensures f.seqno != e1.peer.queue[i][0].seqno {
      QueueDistinct(e, 0, i + 1);
    }
    TransmitKeeps(e1, o, e.peer.queue[0]);
  }

  lemma AdvanceOrder(e: Endpoint, e1: Endpoint)
    requires PeerOk(e.peer) && PeerOk(e1.peer) && OrderOk(e) && e.peer.pending.Some? && e1 == e.(peer := StartNext(e.peer).0)
    requires var s := e.peer.pending.value.frames[0].seqno; s in e.released || s in e.abandoned
    ensures OrderOk(e1)
  {
    WaitingAdvances(e.peer);
    var w, w1 := Waiting(e.peer), Waiting(e1.peer);
    assert w1 == e.order[|e.order| - |w1|..];
    forall i | 0 <= i < |e.order| - |w1| ensures e.order[i] in e.released || e.order[i] in e.abandoned {
      if i == |e.order| - |w| {
        assert w[0] == e.order[i];
      }
    }
  }

  lemma AdvanceSelf(e: Endpoint, e1: Endpoint)
    requires SelfOk(e) && e.peer.pending.Some? && e1 == e.(peer := StartNext(e.peer).0)
    requires var s := e.peer.pending.value.frames[0].seqno; s in e.released || s in e.abandoned
    ensures SelfOk(e1)
  {
    StartNextOk(e.peer);
    AdvanceOrder(e, e1);
    if e.peer.queue != [] {
      assert forall i :: 0 <= i < |e1.peer.queue| ==> e1.peer.queue[i] == e.peer.queue[i + 1];
    }
  }

  /** An acknowledgement that completes the message was earned. */
  lemma ReleaseEarned(e: Endpoint, o: Endpoint, ack: OwedAck)
    requires Inv(e, o) && ClaimOk(o, ack) && AckReleases(e.peer, ack)
    ensures ack.seqno in o.delivered || ack.seqno in o.discarded
  {
    if ack.bitmap.Some? {
      var p := e.peer.pending.value;
      var merged := MergeAcked(p.acked, ack.bitmap.value);
      forall i: nat | i < |e.log[ack.seqno].chunks| ensures (ack.seqno, i) in o.stored {
        assert merged[i];
      }
      AllStored(e, o, ack.seqno);
    }
  }

  lemma ReleaseKeeps(e: Endpoint, o: Endpoint, s: u16)
    requires Inv(e, o) && (s in o.delivered || s in o.discarded)
    ensures Inv(e.(released := e.released + {s}), o)
  {
  }

  lemma MergeKeeps(e: Endpoint, o: Endpoint, ack: OwedAck)
    requires Inv(e, o) && ClaimOk(o, ack) && AckMatches(e.peer, ack.seqno) && ack.bitmap.Some? && !AckReleases(e.peer, ack)
    ensures var p := e.peer.pending.value;
            Inv(e.(peer := e.peer.(pending := Some(Pending(p.frames, MergeAcked(p.acked, ack.bitmap.value), 0, None)))), o)
  {
  }

  lemma AckedKeeps(e: Endpoint, o: Endpoint, ack: OwedAck)
    requires Inv(e, o) && ClaimOk(o, ack)
    ensures Inv(Acked(e, ack), o)
  {
    if AckReleases(e.peer, ack) {
      ReleaseEarned(e, o, ack);
      ReleaseKeeps(e, o, ack.seqno);
      AdvanceKeeps(e.(released := e.released + {ack.seqno}), o);
    } else if AckMatches(e.peer, ack.seqno) && MergeAcked(e.peer.pending.value.acked, ack.bitmap.value) != e.peer.pending.value.acked {
      var p := e.peer.pending.value;
      var acked := MergeAcked(p.acked, ack.bitmap.value);
      MergeKeeps(e, o, ack);
      HolesKeep(e.(peer := e.peer.(pending := Some(Pending(p.frames, acked, 0, None)))), o, acked);
    } else {
      assert Packets([], true) == {};
    }
  }

  lemma GiveUpKeeps(e: Endpoint, o: Endpoint)
    requires Inv(e, o) && e.peer.pending.Some?
    ensures Inv(GivenUp(e), o)
  {
    var s := e.peer.pending.value.frames[0].seqno;
    AbandonKeeps(e, o, s);
    var e1 := e.(peer := e.peer.(dropped := e.peer.dropped + 1), abandoned := e.abandoned + {s});
    AdvanceKeeps(e1, o);
    GiveUpAdvances(e, e1);
  }

  lemma GiveUpAdvances(e: Endpoint, e1: Endpoint)
    requires e.peer.pending.Some? && |e.peer.pending.value.frames| > 0
    requires e1 == e.(peer := e.peer.(dropped := e.peer.dropped + 1), abandoned := e.abandoned + {e.peer.pending.value.frames[0].seqno})
    ensures GivenUp(e) == Advanced(e1)
  {
  }

  lemma AbandonKeeps(e: Endpoint, o: Endpoint, s: u16)
    requires Inv(e, o)
    ensures Inv(e.(peer := e.peer.(dropped := e.peer.dropped + 1), abandoned := e.abandoned + {s}), o)
  {
  }

  // ---- Accepting a frame that carries data ----

  ghost predicate OnAir(o: Endpoint, f: AircFrame) {
    f.kind != Ack && f.FragmentOk() && exists p :: p in o.air && p.frame == f
  }

  /** Receiver bookkeeping that only adds to what is known to have arrived. */
  lemma DeliverKeeps(e: Endpoint, o: Endpoint, f: AircFrame, d: AircFrame)
    requires Inv(e, o) && OnAir(o, f) && d.seqno == f.seqno && d.kind == f.kind
    requires d.kind == Hello || d.payload == o.log[f.seqno].payload
    ensures Inv(Deliver(e, Some(d)), o)
  {
    var p :| p in o.air && p.frame == f;
    assert FrameOk(o, f);
    DeliverInOrder(e, o, p, d);
    DeliverIntegrity(e, o, d);
    DeliverSelf(e, d);
  }

  lemma DeliverInOrder(e: Endpoint, o: Endpoint, p: Packet, d: AircFrame)
    requires SelfOk(o) && ReceivedOk(e) && InOrder(o, e) && ReleasedOk(o, e)
    requires p in o.air && p.frame.kind != Ack && d.seqno == p.frame.seqno
    ensures InOrder(o, Deliver(e, Some(d)))
  {
    var e' := Deliver(e, Some(d));
    forall j, k1, k2 | 0 <= j < |e'.deliveries| && 0 <= k1 < k2 < |o.order| && o.order[k2] == e'.deliveries[j].seqno
      ensures DeliveredBefore(e', j, o.order[k1]) || o.order[k1] in o.abandoned || o.order[k1] in e'.discarded
    {
      if j == |e.deliveries| {
        StartedInOrder(o, p, k1, k2);
        if o.order[k1] in e.delivered {
          var i :| 0 <= i < |e.deliveries| && e.deliveries[i].seqno == o.order[k1];
          assert e'.deliveries[i].seqno == o.order[k1];
        }
      } else {
        assert e'.deliveries[j] == e.deliveries[j];
        if DeliveredBefore(e, j, o.order[k1]) {
          var i :| 0 <= i < j && e.deliveries[i].seqno == o.order[k1];
          assert e'.deliveries[i].seqno == o.order[k1];
        }
      }
    }
  }

  lemma DeliverSelf(e: Endpoint, d: AircFrame)
    requires SelfOk(e)
    ensures SelfOk(Deliver(e, Some(d)))
  {
    var e' := Deliver(e, Some(d));
    forall s | s in e'.delivered ensures exists j :: 0 <= j < |e'.deliveries| && e'.deliveries[j].seqno == s {
      if s == d.seqno {
        assert e'.deliveries[|e.deliveries|].seqno == s;
      } else {
        var j :| 0 <= j < |e.deliveries| && e.deliveries[j].seqno == s;
        assert e'.deliveries[j].seqno == s;
      }
    }
  }

  lemma DeliverIntegrity(e: Endpoint, o: Endpoint, d: AircFrame)
    requires IntegrityOk(o, e) && d.seqno in o.log && d.kind == o.log[d.seqno].kind
    requires d.kind == Hello || d.payload == o.log[d.seqno].payload
    ensures IntegrityOk(o, Deliver(e, Some(d)))
  {
  }

  /** Owing an acknowledgement for something delivered, and remembering it. */
  lemma SettleKeeps(e: Endpoint, o: Endpoint, s: u16, owed: bool, seen: seq<u16>)
    requires Inv(e, o) && s in e.delivered
    requires forall i :: 0 <= i < |seen| ==> seen[i] == s || seen[i] in e.peer.seen
    ensures Inv(e.(peer := e.peer.(owedAck := if owed then Some(OwedAck(s, None)) else e.peer.owedAck, seen := seen)), o)
  {
  }

  lemma RememberedFrom(seen: seq<u16>, s: u16, window: nat)
    ensures var r := RememberSeq(seen, s, window); forall i :: 0 <= i < |r| ==> r[i] == s || r[i] in seen
  {
  }

  lemma AcceptWholeKeeps(e: Endpoint, o: Endpoint, f: AircFrame, now: Instant, addressed: bool, victim: u16)
    requires Inv(e, o) && OnAir(o, f) && (f.seqno in e.peer.seen || f.fragTotal == 1)
    ensures Inv(Accepted(e, f, now, addressed, victim), o)
  {
    var owed := addressed && f.WantsAck();
    assert FrameOk(o, f);
    if f.seqno in e.peer.seen {
      SettleKeeps(e, o, f.seqno, owed, e.peer.seen);
      var e1 := e.(peer := e.peer.(owedAck := if owed then Some(OwedAck(f.seqno, None)) else e.peer.owedAck));
      if f.kind == Hello {
        DeliverKeeps(e1, o, f, f);
      }
    } else {
      assert o.log[f.seqno].chunks == [f.payload];
      assert Concat([f.payload]) == f.payload + Concat([]);
      DeliverKeeps(e, o, f, f);
      RememberedFrom(e.peer.seen, f.seqno, e.cfg.dedupWindow);
      SettleKeeps(Deliver(e, Some(f)), o, f.seqno, owed, RememberSeq(e.peer.seen, f.seqno, e.cfg.dedupWindow));
    }
  }

  lemma {:induction false} JoinedIsConcat(parts: seq<Option<seq<byte>>>, chunks: seq<seq<byte>>)
    requires |parts| == |chunks| && forall i :: 0 <= i < |parts| ==> parts[i] == Some(chunks[i])
    ensures Joined(parts) == Concat(chunks)
  {
    if parts != [] {
      JoinedIsConcat(parts[1..], chunks[1..]);
    }
  }

  /** The reassembly entry after the fragment is added, and the table it goes into. */
  lemma StoreKeeps(e: Endpoint, o: Endpoint, f: AircFrame, r: Reassembly)
    requires Inv(e, o) && OnAir(o, f)
    requires EntryOk(o.log, e.stored + {(f.seqno, f.fragIndex as nat)}, f.seqno, r) && !AllParts(r.parts)
    requires r.parts[f.fragIndex].Some?
    requires forall i: nat :: f.seqno in e.peer.reasm && i < |e.peer.reasm[f.seqno].parts| && e.peer.reasm[f.seqno].parts[i].Some? ==>
               i < |r.parts| && r.parts[i].Some?
    ensures Inv(e.(peer := e.peer.(reasm := e.peer.reasm[f.seqno := r]), stored := e.stored + {(f.seqno, f.fragIndex as nat)}), o)
  {
    assert FrameOk(o, f);
  }

  lemma StoreDeliveredSelf(e: Endpoint, s: u16, i: nat)
    requires SelfOk(e) && s in e.delivered
    ensures SelfOk(e.(peer := e.peer.(reasm := e.peer.reasm - {s}), stored := e.stored + {(s, i)}))
  {
    var e' := e.(peer := e.peer.(reasm := e.peer.reasm - {s}), stored := e.stored + {(s, i)});
    forall p | p in e'.air ensures FrameOk(e', p.frame) {
      assert FrameOk(e, p.frame);
    }
  }

  /** A stored fragment of a message that is already delivered needs no entry. */
  lemma StoreDeliveredKeeps(e: Endpoint, o: Endpoint, f: AircFrame)
    requires Inv(e, o) && OnAir(o, f) && f.seqno in e.delivered
    ensures Inv(e.(peer := e.peer.(reasm := e.peer.reasm - {f.seqno}), stored := e.stored + {(f.seqno, f.fragIndex as nat)}), o)
  {
    var e' := e.(peer := e.peer.(reasm := e.peer.reasm - {f.seqno}), stored := e.stored + {(f.seqno, f.fragIndex as nat)});
    assert FrameOk(o, f);
    StoreDeliveredSelf(e, f.seqno, f.fragIndex);
    assert CrossOk(e', o);
    assert CrossOk(o, e');
  }

  lemma OweKeeps(e: Endpoint, o: Endpoint, ack: OwedAck)
    requires Inv(e, o) && ClaimOk(e, ack)
    ensures Inv(e.(peer := e.peer.(owedAck := Some(ack))), o)
  {
  }

  lemma AddFragmentOk(log: map<u16, Message>, stored: set<(u16, nat)>, reasm: map<u16, Reassembly>, f: AircFrame, now: Instant, wantAck: bool)
    requires DataOk(log, f) && f.FragmentOk()
    requires f.seqno in reasm ==> EntryOk(log, stored, f.seqno, reasm[f.seqno])
    ensures var r := AddFragment(EntryFor(reasm, f, now, wantAck), f, wantAck);
            && EntryOk(log, stored + {(f.seqno, f.fragIndex as nat)}, f.seqno, r)
            && r.parts[f.fragIndex].Some?
            && (f.seqno in reasm ==> |reasm[f.seqno].parts| == f.fragTotal)
            && forall i: nat :: f.seqno in reasm && i < |reasm[f.seqno].parts| && reasm[f.seqno].parts[i].Some? ==> r.parts[i].Some?
  {
  }

  lemma PartialKeeps(e: Endpoint, o: Endpoint, f: AircFrame, addressed: bool, r: Reassembly)
    requires Inv(e, o) && OnAir(o, f) && |r.parts| == f.fragTotal && !AllParts(r.parts)
    requires EntryOk(o.log, e.stored + {(f.seqno, f.fragIndex as nat)}, f.seqno, r) && r.parts[f.fragIndex].Some?
    requires forall i: nat :: f.seqno in e.peer.reasm && i < |e.peer.reasm[f.seqno].parts| && e.peer.reasm[f.seqno].parts[i].Some? ==>
               i < |r.parts| && r.parts[i].Some?
    ensures Inv(Partial(e, f, addressed, r), o)
  {
    StoreKeeps(e, o, f, r);
    var e2 := e.(peer := e.peer.(reasm := e.peer.reasm[f.seqno := r]), stored := e.stored + {(f.seqno, f.fragIndex as nat)});
    if addressed && f.WantsAck() && HasBit(f.flags, RETRY) {
      BitmapClaimOk(o, e2, f.seqno);
      OweKeeps(e2, o, OwedAck(f.seqno, Some(Bitmap(r.parts))));
    }
  }

  lemma CompleteKeeps(e: Endpoint, o: Endpoint, f: AircFrame, addressed: bool, r: Reassembly)
    requires Inv(e, o) && OnAir(o, f) && AllParts(r.parts)
    requires EntryOk(o.log, e.stored + {(f.seqno, f.fragIndex as nat)}, f.seqno, r)
    ensures Inv(Complete(e, f, addressed, r), o)
  {
    var owed := r.wantAck || (addressed && (f.WantsAck() || HasBit(r.flags, ACK_REQ)));
    var d := Session.Delivered(r, f.seqno);
    JoinedIsConcat(r.parts, o.log[f.seqno].chunks);
    assert FrameOk(o, f);
    DeliverKeeps(e, o, f, d);
    var e2 := Deliver(e, Some(d));
    StoreDeliveredKeeps(e2, o, f);
    var e3 := e2.(peer := e2.peer.(reasm := e2.peer.reasm - {f.seqno}), stored := e.stored + {(f.seqno, f.fragIndex as nat)});
    RememberedFrom(e.peer.seen, f.seqno, e.cfg.dedupWindow);
    SettleKeeps(e3, o, f.seqno, owed, RememberSeq(e.peer.seen, f.seqno, e.cfg.dedupWindow));
  }

  /** The endpoint once room is made in its reassembly table. */
  function WithRoom(e: Endpoint, f: AircFrame, victim: u16): Endpoint {
    e.(peer := e.peer.(reasm := MakeRoom(e.cfg, e.peer, f, victim)),
       discarded := e.discarded + (if NeedsRoom(e.cfg, e.peer, f) then {victim} else {}))
  }

  function Entry(e: Endpoint, f: AircFrame, now: Instant, addressed: bool): Reassembly
    requires f.FragmentOk()
  {
    var wantAck := addressed && f.WantsAck();
    AddFragment(EntryFor(e.peer.reasm, f, now, wantAck), f, wantAck)
  }

  function Partial(e: Endpoint, f: AircFrame, addressed: bool, r: Reassembly): Endpoint {
    e.(peer := e.peer.(reasm := e.peer.reasm[f.seqno := r],
                       owedAck := if addressed && f.WantsAck() && HasBit(f.flags, RETRY) then Some(OwedAck(f.seqno, Some(Bitmap(r.parts))))
                                  else e.peer.owedAck),
       stored := e.stored + {(f.seqno, f.fragIndex as nat)})
  }

  function Complete(e: Endpoint, f: AircFrame, addressed: bool, r: Reassembly): Endpoint {
    var owed := r.wantAck || (addressed && (f.WantsAck() || HasBit(r.flags, ACK_REQ)));
    var e2 := Deliver(e, Some(Session.Delivered(r, f.seqno)));
    e2.(peer := e2.peer.(reasm := e2.peer.reasm - {f.seqno},
                         seen := RememberSeq(e2.peer.seen, f.seqno, e.cfg.dedupWindow),
                         owedAck := if owed then Some(OwedAck(f.seqno, None)) else e2.peer.owedAck),
        stored := e.stored + {(f.seqno, f.fragIndex as nat)})
  }

  lemma AcceptedShape(e: Endpoint, f: AircFrame, now: Instant, addressed: bool, victim: u16)
    requires f.FragmentOk() && StoresFragment(e, f)
    requires var e1 := WithRoom(e, f, victim); f.seqno in e1.peer.reasm ==> |e1.peer.reasm[f.seqno].parts| == f.fragTotal
    ensures var e1 := WithRoom(e, f, victim);
            var r := Entry(e1, f, now, addressed);
            Accepted(e, f, now, addressed, victim) == if AllParts(r.parts) then Complete(e1, f, addressed, r) else Partial(e1, f, addressed, r)
  {
  }

  lemma RoomKeeps(e: Endpoint, o: Endpoint, f: AircFrame, victim: u16)
    requires Inv(e, o)
    ensures Inv(WithRoom(e, f, victim), o)
  {
    if NeedsRoom(e.cfg, e.peer, f) {
      DiscardKeeps(e, o, {victim});
    }
  }

  lemma AcceptFragmentKeeps(e: Endpoint, o: Endpoint, f: AircFrame, now: Instant, addressed: bool, victim: u16)
    requires Inv(e, o) && OnAir(o, f) && StoresFragment(e, f)
    ensures Inv(Accepted(e, f, now, addressed, victim), o)
  {
    RoomKeeps(e, o, f, victim);
    var e1 := WithRoom(e, f, victim);
    var r := Entry(e1, f, now, addressed);
    AddFragmentOk(o.log, e1.stored, e1.peer.reasm, f, now, addressed && f.WantsAck()) by {
      assert FrameOk(o, f);
      assert f.seqno in e1.peer.reasm ==> EntryOk(o.log, e1.stored, f.seqno, e1.peer.reasm[f.seqno]);
    }
    AcceptedShape(e, f, now, addressed, victim);
    if AllParts(r.parts) {
      CompleteKeeps(e1, o, f, addressed, r);
    } else {
      PartialKeeps(e1, o, f, addressed, r);
    }
  }

  // ---- Sending ----

  lemma LogKeeps(e: Endpoint, o: Endpoint, m: Message)
    requires Inv(e, o) && e.allocs < 65535 && MessageOk(m)
    ensures Inv(Spend(e).(log := e.log[e.nextSeq := m]), o)
    ensures e.nextSeq !in e.log
  {
    LogSelf(e, m);
    assert e.nextSeq !in e.log;
  }

  lemma LogSelf(e: Endpoint, m: Message)
    requires SelfOk(e) && e.allocs < 65535 && MessageOk(m)
    ensures SelfOk(Spend(e).(log := e.log[e.nextSeq := m]))
  {
    var e' := Spend(e).(log := e.log[e.nextSeq := m]);
    forall p | p in e'.air ensures FrameOk(e', p.frame) {
      assert FrameOk(e, p.frame);
    }
  }

  lemma FragmentsOk(log: map<u16, Message>, kind: Kind, s: u16, chunks: seq<seq<byte>>, flags: byte)
    requires s in log && log[s].kind == kind != Ack && log[s].chunks == chunks && 1 <= |chunks| <= 255
    ensures FramesOk(log, Fragments(kind, s, chunks, flags))
  {
  }

  /** Only reliable messages wait in a queue, so a number just handed out is not queued. */
  lemma FreshNotQueued(e: Endpoint, i: nat)
    requires SelfOk(e) && i < |e.peer.queue| && e.allocs < 65535
    ensures e.peer.queue[i][0].seqno != e.nextSeq
  {
    var n := if e.peer.pending.Some? then 1 else 0;
    var w := Waiting(e.peer);
    assert w[i + n] == e.peer.queue[i][0].seqno;
    assert e.order[|e.order| - |w| + i + n] in e.log;
  }

  lemma BroadcastKeeps(e: Endpoint, o: Endpoint, kind: Kind, payload: seq<byte>, flags: byte)
    requires Inv(e, o) && e.allocs < 65535 && kind != Ack
    ensures Inv(Broadcasted(e, kind, payload, flags), o)
  {
    var chunks := ChunkPayload(payload, e.cfg.MaxPayload(), false);
    ChunkPayloadJoins(payload, e.cfg.MaxPayload(), false);
    if |chunks| > 255 {
      SpendKeeps(e, o);
    } else {
      TransmitFresh(e, o, Message(kind, payload, chunks), flags, false);
    }
  }

  /** A message sent without waiting for an acknowledgement. */
  lemma TransmitFresh(e: Endpoint, o: Endpoint, m: Message, flags: byte, addressed: bool)
    requires Inv(e, o) && e.allocs < 65535 && MessageOk(m)
    ensures Inv(Spend(e).(log := e.log[e.nextSeq := m],
                          air := e.air + Packets(Fragments(m.kind, e.nextSeq, m.chunks, flags), addressed)), o)
  {
    LogKeeps(e, o, m);
    var e1 := Spend(e).(log := e.log[e.nextSeq := m]);
    var frames := Fragments(m.kind, e.nextSeq, m.chunks, flags);
    FragmentsOk(e1.log, m.kind, e.nextSeq, m.chunks, flags);
    FramesAreOk(e1, frames);
    forall f, i | f in frames && f.kind != Ack && 0 <= i < |e1.peer.queue| ensures f.seqno != e1.peer.queue[i][0].seqno {
      FreshNotQueued(e, i);
    }
    if addressed {
      TransmitKeeps(e1, o, frames);
    } else {
      ShoutKeeps(e1, o, frames);
    }
  }

  /** As `TransmitKeeps`, for frames to everybody. */
  lemma ShoutKeeps(e: Endpoint, o: Endpoint, frames: seq<AircFrame>)
    requires Inv(e, o)
    requires forall f :: f in frames ==> FrameOk(e, f)
    requires forall f, i :: f in frames && f.kind != Ack && 0 <= i < |e.peer.queue| ==> f.seqno != e.peer.queue[i][0].seqno
    ensures Inv(e.(air := e.air + Packets(frames, false)), o)
  {
    var e' := e.(air := e.air + Packets(frames, false));
    forall p | p in e'.air ensures FrameOk(e', p.frame) {
      assert FrameOk(e, p.frame);
    }
  }

  lemma DroppedKeeps(e: Endpoint, o: Endpoint)
    requires Inv(e, o)
    ensures Inv(e.(peer := e.peer.(dropped := e.peer.dropped + 1)), o)
  {
  }

  /** Put a logged, untransmitted message behind the one in flight. */
  lemma QueueKeeps(e: Endpoint, o: Endpoint, frames: seq<AircFrame>)
    requires Inv(e, o) && e.peer.pending.Some? && FramesOk(e.log, frames)
    requires forall i :: 0 <= i < |e.order| ==> e.order[i] < frames[0].seqno
    requires forall p :: p in e.air && p.frame.kind != Ack ==> p.frame.seqno != frames[0].seqno
    requires frames[0].seqno !in ToSet(SeqsOf(o))
    ensures Inv(e.(peer := e.peer.(queue := e.peer.queue + [frames]), order := e.order + [frames[0].seqno]), o)
  {
    var e' := e.(peer := e.peer.(queue := e.peer.queue + [frames]), order := e.order + [frames[0].seqno]);
    QueueSelf(e, frames);
    NewestUndelivered(e, e', o, frames[0].seqno);
  }

  lemma QueueSelf(e: Endpoint, frames: seq<AircFrame>)
    requires SelfOk(e) && e.peer.pending.Some? && FramesOk(e.log, frames)
    requires forall i :: 0 <= i < |e.order| ==> e.order[i] < frames[0].seqno
    requires forall p :: p in e.air && p.frame.kind != Ack ==> p.frame.seqno != frames[0].seqno
    ensures SelfOk(e.(peer := e.peer.(queue := e.peer.queue + [frames]), order := e.order + [frames[0].seqno]))
  {
    var e' := e.(peer := e.peer.(queue := e.peer.queue + [frames]), order := e.order + [frames[0].seqno]);
    assert Waiting(e'.peer) == Waiting(e.peer) + [frames[0].seqno];
  }

  function SeqsOf(e: Endpoint): seq<u16> {
    seq(|e.deliveries|, i requires 0 <= i < |e.deliveries| => e.deliveries[i].seqno)
  }

  lemma NewestUndelivered(e: Endpoint, e': Endpoint, o: Endpoint, s: u16)
    requires InOrder(e, o) && e'.order == e.order + [s] && e'.abandoned == e.abandoned && s !in ToSet(SeqsOf(o))
    ensures InOrder(e', o)
  {
    forall j, k1, k2 | 0 <= j < |o.deliveries| && 0 <= k1 < k2 < |e'.order| && e'.order[k2] == o.deliveries[j].seqno
      ensures DeliveredBefore(o, j, e'.order[k1]) || e'.order[k1] in e'.abandoned || e'.order[k1] in o.discarded
    {
      assert SeqsOf(o)[j] in ToSet(SeqsOf(o));
      assert k2 < |e.order| && e.order[k2] == e'.order[k2] && e.order[k1] == e'.order[k1];
    }
  }

  /** Start a logged, untransmitted message when nothing is in flight. */
  lemma StartKeeps(e: Endpoint, o: Endpoint, frames: seq<AircFrame>)
    requires Inv(e, o) && e.peer.pending.None? && FramesOk(e.log, frames)
    requires forall i :: 0 <= i < |e.order| ==> e.order[i] < frames[0].seqno
    requires frames[0].seqno !in ToSet(SeqsOf(o))
    ensures Inv(e.(peer := e.peer.(pending := Some(StartPending(frames))), order := e.order + [frames[0].seqno]), o)
  {
    var e' := e.(peer := e.peer.(pending := Some(StartPending(frames))), order := e.order + [frames[0].seqno]);
    assert !StartPending(frames).acked[0];
    assert Waiting(e'.peer) == [frames[0].seqno];
    NewestUndelivered(e, e', o, frames[0].seqno);
  }

  /** A number just handed out appears nowhere yet. */
  lemma NumberUnused(e: Endpoint, o: Endpoint)
    requires Inv(e, o) && e.allocs < 65535
    ensures forall i :: 0 <= i < |e.order| ==> e.order[i] < e.nextSeq
    ensures forall p :: p in e.air && p.frame.kind != Ack ==> p.frame.seqno != e.nextSeq
    ensures e.nextSeq !in ToSet(SeqsOf(o))
  {
    forall p | p in e.air && p.frame.kind != Ack ensures p.frame.seqno != e.nextSeq {
      assert FrameOk(e, p.frame);
    }
  }

  lemma SendQueuedKeeps(e: Endpoint, o: Endpoint, m: Message)
    requires Inv(e, o) && e.allocs < 65535 && MessageOk(m) && e.peer.pending.Some?
    ensures Inv(Spend(e).(log := e.log[e.nextSeq := m], order := e.order + [e.nextSeq],
                          peer := e.peer.(queue := e.peer.queue + [Fragments(m.kind, e.nextSeq, m.chunks, SetBit(0, ACK_REQ))])), o)
  {
    NumberUnused(e, o);
    LogKeeps(e, o, m);
    var e1 := Spend(e).(log := e.log[e.nextSeq := m]);
    var frames := Fragments(m.kind, e.nextSeq, m.chunks, SetBit(0, ACK_REQ));
    FragmentsOk(e1.log, m.kind, e.nextSeq, m.chunks, SetBit(0, ACK_REQ));
    QueueKeeps(e1, o, frames);
  }

  /** The first transmission of a reliable message, with the acknowledgement that rides on it. */
  function Launch(frames: seq<AircFrame>, piggy: Option<u16>): seq<AircFrame>
    requires |frames| > 0
  {
    if piggy.None? then frames else frames[0 := frames[0].WithPiggyback(piggy.value)]
  }

  lemma LaunchOk(e: Endpoint, frames: seq<AircFrame>, piggy: Option<u16>)
    requires FramesOk(e.log, frames) && (piggy.Some? ==> ClaimOk(e, OwedAck(piggy.value, None)))
    ensures forall f :: f in Launch(frames, piggy) ==> FrameOk(e, f) && f.kind != Ack && f.seqno == frames[0].seqno
  {
    FramesAreOk(e, frames);
    if piggy.Some? {
      var f := frames[0].WithPiggyback(piggy.value);
      assert DataOk(e.log, frames[0]);
      assert AcksIn(f) == [OwedAck(piggy.value, None)];
      forall g | g in Launch(frames, piggy) ensures g == f || g in frames {
      }
    }
  }

  lemma SendNowKeeps(e: Endpoint, o: Endpoint, m: Message, piggy: Option<u16>)
    requires Inv(e, o) && e.allocs < 65535 && MessageOk(m) && e.peer.pending.None?
    requires piggy.Some? ==> e.peer.owedAck == Some(OwedAck(piggy.value, None))
    ensures var frames := Fragments(m.kind, e.nextSeq, m.chunks, SetBit(0, ACK_REQ));
            Inv(Spend(e).(log := e.log[e.nextSeq := m], order := e.order + [e.nextSeq],
                          air := e.air + Packets(Launch(frames, piggy), true),
                          peer := e.peer.(pending := Some(StartPending(frames)),
                                          owedAck := if piggy.Some? then None else e.peer.owedAck)), o)
  {
    NumberUnused(e, o);
    LogKeeps(e, o, m);
    var e1 := Spend(e).(log := e.log[e.nextSeq := m]);
    var frames := Fragments(m.kind, e.nextSeq, m.chunks, SetBit(0, ACK_REQ));
    FragmentsOk(e1.log, m.kind, e.nextSeq, m.chunks, SetBit(0, ACK_REQ));
    StartKeeps(e1, o, frames);
    var e2 := e1.(peer := e1.peer.(pending := Some(StartPending(frames))), order := e1.order + [frames[0].seqno]);
    LaunchOk(e2, frames, piggy);
    TransmitKeeps(e2, o, Launch(frames, piggy));
    if piggy.Some? {
      UnoweKeeps(e2.(air := e2.air + Packets(Launch(frames, piggy), true)), o);
    }
  }

  predicate Refused(e: Endpoint, chunks: seq<seq<byte>>, reliable: bool) {
    |chunks| > 255 || (reliable && e.peer.pending.Some? && |e.peer.queue| >= e.cfg.maxQueue)
  }

  /** The four outcomes of a send: refused, unreliable, queued, started. `e` is already touched. */
  lemma SentShape(e: Endpoint, m: Message, piggy: Option<u16>, reliable: bool)
    requires piggy == PiggybackFor(e.cfg, e.peer, reliable)
    requires m.chunks == ChunkPayload(m.payload, e.cfg.MaxPayload(), piggy.Some?) && |m.chunks| >= 1
    ensures var sent := Sent(e, m.kind, m.payload, reliable, e.peer.lastHeard);
            var spent := Spend(e).(log := e.log[e.nextSeq := m]);
            if Refused(e, m.chunks, reliable) then sent == Spend(e.(peer := e.peer.(dropped := e.peer.dropped + 1)))
            else if !reliable then sent == spent.(air := e.air + Packets(Fragments(m.kind, e.nextSeq, m.chunks, 0), true))
            else
              var frames := Fragments(m.kind, e.nextSeq, m.chunks, SetBit(0, ACK_REQ));
              if e.peer.pending.Some? then
                sent == spent.(order := e.order + [e.nextSeq], peer := e.peer.(queue := e.peer.queue + [frames]))
              else
                sent == spent.(order := e.order + [e.nextSeq], air := e.air + Packets(Launch(frames, piggy), true),
                               peer := e.peer.(pending := Some(StartPending(frames)), owedAck := if piggy.Some? then None else e.peer.owedAck))
  {
    assert Packets([], true) == {};
  }

  lemma SentKeeps(e: Endpoint, o: Endpoint, kind: Kind, payload: seq<byte>, reliable: bool, now: Instant)
    requires Inv(e, o) && e.allocs < 65535 && kind != Ack
    ensures Inv(Sent(e, kind, payload, reliable, now), o)
  {
    TouchKeeps(e, o, now);
    var e0 := e.(peer := e.peer.(lastHeard := now));
    var piggy := PiggybackFor(e.cfg, e0.peer, reliable);
    var chunks := ChunkPayload(payload, e.cfg.MaxPayload(), piggy.Some?);
    ChunkPayloadJoins(payload, e.cfg.MaxPayload(), piggy.Some?);
    var m := Message(kind, payload, chunks);
    SentShape(e0, m, piggy, reliable);
    assert Sent(e, kind, payload, reliable, now) == Sent(e0, kind, payload, reliable, now);
    SentTouchedKeeps(e0, o, m, piggy, reliable);
  }

  lemma SentTouchedKeeps(e: Endpoint, o: Endpoint, m: Message, piggy: Option<u16>, reliable: bool)
    requires Inv(e, o) && e.allocs < 65535 && m.kind != Ack && Concat(m.chunks) == m.payload && |m.chunks| >= 1
    requires piggy == PiggybackFor(e.cfg, e.peer, reliable)
    requires m.chunks == ChunkPayload(m.payload, e.cfg.MaxPayload(), piggy.Some?)
    ensures Inv(Sent(e, m.kind, m.payload, reliable, e.peer.lastHeard), o)
  {
    SentShape(e, m, piggy, reliable);
    if Refused(e, m.chunks, reliable) {
      DroppedKeeps(e, o);
      SpendKeeps(e.(peer := e.peer.(dropped := e.peer.dropped + 1)), o);
    } else if !reliable {
      TransmitFresh(e, o, m, 0, true);
    } else if e.peer.pending.Some? {
      SendQueuedKeeps(e, o, m);
    } else {
      SendNowKeeps(e, o, m, piggy);
    }
  }

  // ---- Hearing, ticking, and whole runs ----

  lemma {:induction false} AckedAllKeeps(e: Endpoint, o: Endpoint, acks: seq<OwedAck>)
    requires Inv(e, o) && forall i :: 0 <= i < |acks| ==> ClaimOk(o, acks[i])
    ensures Inv(AckedAll(e, acks), o)
    decreases |acks|
  {
    if acks != [] {
      AckedKeeps(e, o, acks[0]);
      AckedAllKeeps(Acked(e, acks[0]), o, acks[1..]);
    }
  }

  lemma HeardKeeps(e: Endpoint, o: Endpoint, packet: Packet, now: Instant, victim: u16)
    requires Inv(e, o) && packet in o.air && packet.frame.FragmentOk()
    ensures Inv(Heard(e, packet, now, victim), o)
  {
    var f := packet.frame;
    assert FrameOk(o, f);
    TouchKeeps(e, o, now);
    var e0 := e.(peer := e.peer.(lastHeard := now));
    if NewEpoch(e0.peer, f) {
      DropKeeps(e0, o, HelloReset(e0.peer, f));
    }
    AckedAllKeeps(ResetFor(e0, f), o, AcksIn(f));
    var e1 := AckedAll(ResetFor(e0, f), AcksIn(f));
    if f.kind != Ack {
      AcceptKeeps(e1, o, f, now, packet.addressed, victim);
    }
  }

  lemma AcceptKeeps(e: Endpoint, o: Endpoint, f: AircFrame, now: Instant, addressed: bool, victim: u16)
    requires Inv(e, o) && OnAir(o, f)
    ensures Inv(Accepted(e, f, now, addressed, victim), o)
  {
    if f.seqno in e.peer.seen || f.fragTotal == 1 {
      AcceptWholeKeeps(e, o, f, now, addressed, victim);
    } else if |f.payload| <= e.cfg.MaxPayload() {
      AcceptFragmentKeeps(e, o, f, now, addressed, victim);
    }
  }

  lemma TickedKeeps(e: Endpoint, o: Endpoint, now: Instant, retry: bool, order: seq<u16>)
    requires Inv(e, o)
    ensures Inv(TwoParty.Ticked(e, now, retry, order), o)
  {
    ExpireKeeps(e, o, now, order);
    var e1 := ExpiredAt(e, now, order);
    if Since(now, e1.peer.lastHeard) > e.cfg.peerIdleTimeout {
      DropKeeps(e1, o, NewPeer(now));
    } else if retry && RetryDue(e1.peer, now) {
      if e1.peer.pending.value.attempts < e.cfg.maxRetries {
        RetryKeeps(e1, o, now);
      } else {
        GiveUpKeeps(e1, o);
        DropKeeps(GivenUp(e1), o, NewPeer(now));
      }
    }
  }

  lemma DoesKeeps(e: Endpoint, o: Endpoint, ev: Event)
    requires Inv(e, o) && Enabled(e, o, ev)
    ensures Inv(Does(e, ev), o)
  {
    match ev
    case Send(kind, payload, reliable, now) => SentKeeps(e, o, kind, payload, reliable, now);
    case Broadcast(kind, payload, flags) => BroadcastKeeps(e, o, kind, payload, flags);
    case SpendNumber => SpendKeeps(e, o);
    case Hear(packet, now, victim) => HeardKeeps(e, o, packet, now, victim);
    case DrainAcks => DrainKeeps(e, o);
    case Tick(now, retry, order) => TickedKeeps(e, o, now, retry, order);
    case KeyDown(seqno, now) => KeyedKeeps(e, o, seqno, now);
    case Forget(now) => DropKeeps(e, o, NewPeer(now));
  }

  /** An event at the left station, or at the right one. */
  datatype Act = Act(left: bool, event: Event)

  datatype World = World(left: Endpoint, right: Endpoint)

  ghost predicate Possible(w: World, act: Act) {
    if act.left then Enabled(w.left, w.right, act.event) else Enabled(w.right, w.left, act.event)
  }

  function Next(w: World, act: Act): World
    requires act.event.Hear? ==> act.event.packet.frame.FragmentOk()
  {
    if act.left then w.(left := Does(w.left, act.event)) else w.(right := Does(w.right, act.event))
  }

  /** `worlds` is a run from two stations that have never heard each other, driven by `acts`. */
  ghost predicate IsRun(a: SessionConfig, b: SessionConfig, worlds: seq<World>, acts: seq<Act>) {
    && |worlds| == |acts| + 1
    && (exists t :: worlds[0] == World(Fresh(a, t), Fresh(b, t)))
    && forall i :: 0 <= i < |acts| ==> Possible(worlds[i], acts[i]) && worlds[i + 1] == Next(worlds[i], acts[i])
  }

  lemma {:induction false} RunKeeps(a: SessionConfig, b: SessionConfig, worlds: seq<World>, acts: seq<Act>, n: nat)
    requires IsRun(a, b, worlds, acts) && n < |worlds|
    ensures Inv(worlds[n].left, worlds[n].right)
  {
    if n == 0 {
      var t :| worlds[0] == World(Fresh(a, t), Fresh(b, t));
      InitOk(a, b, t);
    } else {
      RunKeeps(a, b, worlds, acts, n - 1);
      var w, act := worlds[n - 1], acts[n - 1];
      assert Possible(w, act);
      if act.left {
        DoesKeeps(w.left, w.right, act.event);
      } else {
        DoesKeeps(w.right, w.left, act.event);
      }
    }
  }

  /** Over any run of any length, whatever is lost, duplicated or reordered: a reliable message
      the sender released on an acknowledgement was delivered by the receiver, unless the receiver
      itself threw fragments of it away (expiry, eviction, session reset). */
  lemma ReleasedWasDelivered(a: SessionConfig, b: SessionConfig, worlds: seq<World>, acts: seq<Act>, n: nat, s: u16)
    requires IsRun(a, b, worlds, acts) && n < |worlds|
    ensures s in worlds[n].left.released && s !in worlds[n].right.discarded ==>
              exists j :: 0 <= j < |worlds[n].right.deliveries| && worlds[n].right.deliveries[j].seqno == s
  {
    RunKeeps(a, b, worlds, acts, n);
  }

  /** Every payload delivered, but for a HELLO, is byte for byte the payload enqueued or broadcast
      under its number, and has its kind. */
  lemma DeliveredIsWhatWasSent(a: SessionConfig, b: SessionConfig, worlds: seq<World>, acts: seq<Act>, n: nat, j: nat)
    requires IsRun(a, b, worlds, acts) && n < |worlds| && j < |worlds[n].right.deliveries|
    ensures var d := worlds[n].right.deliveries[j];
            && d.seqno in worlds[n].left.log && d.kind == worlds[n].left.log[d.seqno].kind
            && (d.kind != Hello ==> d.payload == worlds[n].left.log[d.seqno].payload)
  {
    RunKeeps(a, b, worlds, acts, n);
  }

  /** When a reliable message is delivered, every reliable message accepted before it has been
      delivered before it, or was given up by the sender, or thrown away by the receiver. */
  lemma DeliveredInEnqueueOrder(a: SessionConfig, b: SessionConfig, worlds: seq<World>, acts: seq<Act>, n: nat, j: nat, k1: nat, k2: nat)
    requires IsRun(a, b, worlds, acts) && n < |worlds| && j < |worlds[n].right.deliveries|
    requires k1 < k2 < |worlds[n].left.order| && worlds[n].left.order[k2] == worlds[n].right.deliveries[j].seqno
    ensures var s := worlds[n].left.order[k1];
            || (exists i :: 0 <= i < j && worlds[n].right.deliveries[i].seqno == s)
            || s in worlds[n].left.abandoned || s in worlds[n].right.discarded
  {
    RunKeeps(a, b, worlds, acts, n);
    assert InOrder(worlds[n].left, worlds[n].right);
    assert DeliveredBefore(worlds[n].right, j, worlds[n].left.order[k1])
           || worlds[n].left.order[k1] in worlds[n].left.abandoned || worlds[n].left.order[k1] in worlds[n].right.discarded;
  }
}
