/** What the session layer does not leave undone: what is in flight is on the air, what was
    received is acknowledged however often it is repeated, and no message in flight is stuck. */
module SessionProgress {
  import opened Common
  import opened AircFrames
  import opened Session
  import opened TwoParty
  import opened TwoPartySafety

  // ---- What is in flight is on the air ----

  /** A packet that carries fragment `i` of message `s` and asks for an acknowledgement. */
  predicate Carries(m: Message, s: u16, i: nat, p: Packet) {
    && i < |m.chunks| && p.addressed
    && p.frame.kind == m.kind && p.frame.seqno == s && p.frame.fragIndex == i && p.frame.fragTotal == |m.chunks|
    && p.frame.payload == m.chunks[i] && p.frame.WantsAck()
  }

  ghost predicate Airborne(air: set<Packet>, m: Message, s: u16, i: nat) {
    exists p :: p in air && Carries(m, s, i, p)
  }

  /** Every fragment was transmitted. */
  ghost predicate AllAirborne(e: Endpoint, s: u16) {
    s in e.log && forall i: nat :: i < |e.log[s].chunks| ==> Airborne(e.air, e.log[s], s, i)
  }

  predicate Queued(e: Endpoint, s: u16) {
    exists i :: 0 <= i < |e.peer.queue| && |e.peer.queue[i]| > 0 && e.peer.queue[i][0].seqno == s
  }

  predicate AllAsk(frames: seq<AircFrame>) {
    forall i :: 0 <= i < |frames| ==> frames[i].WantsAck()
  }

  /** The frames held ask for an acknowledgement; the message in flight was transmitted whole; so
      was every reliable message, but for those that still wait and those given up. */
  ghost predicate StartedOk(e: Endpoint) {
    && (forall i :: 0 <= i < |e.peer.queue| ==> AllAsk(e.peer.queue[i]))
    && (e.peer.pending.Some? ==>
          && AllAsk(e.peer.pending.value.frames) && |e.peer.pending.value.frames| > 0
          && AllAirborne(e, e.peer.pending.value.frames[0].seqno))
    && (forall k :: 0 <= k < |e.order| ==> Queued(e, e.order[k]) || AllAirborne(e, e.order[k]) || e.order[k] in e.abandoned)
  }

  /** Nothing held or logged changes, and nothing leaves the air. */
  lemma {:induction false} MoreAir(e: Endpoint, e': Endpoint, s: u16)
    requires AllAirborne(e, s) && e.air <= e'.air && s in e'.log && e'.log[s] == e.log[s]
    ensures AllAirborne(e', s)
  {
    forall i: nat | i < |e'.log[s].chunks| ensures Airborne(e'.air, e'.log[s], s, i) {
      assert Airborne(e.air, e.log[s], s, i);
    }
  }

  lemma QuietStarted(e: Endpoint, e': Endpoint)
    requires StartedOk(e) && e.air <= e'.air && e'.order == e.order && e.abandoned <= e'.abandoned
    requires forall s :: s in e.log ==> s in e'.log && e'.log[s] == e.log[s]
    requires e'.peer.queue == e.peer.queue
    requires e'.peer.pending.Some? ==> e.peer.pending.Some? && e'.peer.pending.value.frames == e.peer.pending.value.frames
    ensures StartedOk(e')
  {
    if e'.peer.pending.Some? {
      MoreAir(e, e', e.peer.pending.value.frames[0].seqno);
    }
    forall k | 0 <= k < |e'.order| ensures Queued(e', e'.order[k]) || AllAirborne(e', e'.order[k]) || e'.order[k] in e'.abandoned {
      if AllAirborne(e, e.order[k]) {
        MoreAir(e, e', e.order[k]);
      } else if Queued(e, e.order[k]) {
        var i :| 0 <= i < |e.peer.queue| && |e.peer.queue[i]| > 0 && e.peer.queue[i][0].seqno == e.order[k];
        assert e'.peer.queue[i][0].seqno == e'.order[k];
      }
    }
  }

  /** Transmitting all the frames of a logged message puts all its fragments on the air. */
  lemma SendsAll(e: Endpoint, frames: seq<AircFrame>, sent: seq<AircFrame>)
    requires FramesOk(e.log, frames) && AllAsk(frames) && Packets(sent, true) <= e.air && |sent| == |frames|
    requires forall i :: 0 <= i < |frames| ==>
               && sent[i].kind == frames[i].kind && sent[i].seqno == frames[i].seqno && sent[i].fragIndex == frames[i].fragIndex
               && sent[i].fragTotal == frames[i].fragTotal && sent[i].payload == frames[i].payload && sent[i].WantsAck()
    ensures AllAirborne(e, frames[0].seqno)
  {
    var s := frames[0].seqno;
    forall i: nat | i < |e.log[s].chunks| ensures Airborne(e.air, e.log[s], s, i) {
      assert DataOk(e.log, frames[i]);
      assert sent[i] in sent;
      assert Packet(sent[i], true) in e.air && Carries(e.log[s], s, i, Packet(sent[i], true));
    }
  }

  /** The next queued message, if there is one, starts with a transmission of its own. */
  lemma NextStarts(e: Endpoint, e': Endpoint)
    requires HeldOk(e) && StartedOk(e) && e.peer.pending.Some?
    requires e'.log == e.log && e'.order == e.order && e.abandoned <= e'.abandoned
    requires var (p, out) := StartNext(e.peer);
             e'.peer.pending == p.pending && e'.peer.queue == p.queue && e'.air == e.air + Packets(out, true)
    ensures StartedOk(e')
  {
    if e.peer.queue != [] {
      SendsAll(e', e.peer.queue[0], e.peer.queue[0]);
    }
    forall k | 0 <= k < |e'.order| ensures Queued(e', e'.order[k]) || AllAirborne(e', e'.order[k]) || e'.order[k] in e'.abandoned {
      if AllAirborne(e, e.order[k]) {
        MoreAir(e, e', e.order[k]);
      } else if Queued(e, e.order[k]) {
        var i :| 0 <= i < |e.peer.queue| && |e.peer.queue[i]| > 0 && e.peer.queue[i][0].seqno == e.order[k];
        if i > 0 {
          assert e'.peer.queue[i - 1][0].seqno == e'.order[k];
        }
      }
    }
  }

  lemma AckedStarts(e: Endpoint, ack: OwedAck)
    requires HeldOk(e) && StartedOk(e)
    ensures StartedOk(Acked(e, ack))
  {
    if AckReleases(e.peer, ack) {
      NextStarts(e, Acked(e, ack));
    } else {
      QuietStarted(e, Acked(e, ack));
    }
  }

  lemma {:induction false} AckedAllStarts(e: Endpoint, o: Endpoint, acks: seq<OwedAck>)
    requires Inv(e, o) && StartedOk(e) && forall i :: 0 <= i < |acks| ==> ClaimOk(o, acks[i])
    ensures StartedOk(AckedAll(e, acks))
    decreases |acks|
  {
    if acks != [] {
      AckedStarts(e, acks[0]);
      AckedKeeps(e, o, acks[0]);
      AckedAllStarts(Acked(e, acks[0]), o, acks[1..]);
    }
  }

  /** A session dropped gives up all that waited. */
  lemma DropStarted(e: Endpoint, blank: Peer)
    requires PeerOk(e.peer) && StartedOk(e) && blank.pending.None? && blank.queue == []
    ensures StartedOk(DropSession(e, blank))
  {
    var e' := DropSession(e, blank);
    forall k | 0 <= k < |e'.order| ensures AllAirborne(e', e'.order[k]) || e'.order[k] in e'.abandoned {
      if AllAirborne(e, e.order[k]) {
        MoreAir(e, e', e.order[k]);
      } else if Queued(e, e.order[k]) {
        var i :| 0 <= i < |e.peer.queue| && |e.peer.queue[i]| > 0 && e.peer.queue[i][0].seqno == e.order[k];
        var n := if e.peer.pending.Some? then 1 else 0;
        assert Waiting(e.peer)[i + n] == e.order[k];
      }
    }
  }

  lemma HeardStarts(e: Endpoint, o: Endpoint, packet: Packet, now: Instant, victim: u16)
    requires Inv(e, o) && StartedOk(e) && packet in o.air && packet.frame.FragmentOk()
    ensures StartedOk(Heard(e, packet, now, victim))
  {
    var f := packet.frame;
    assert FrameOk(o, f);
    TouchKeeps(e, o, now);
    var e0 := e.(peer := e.peer.(lastHeard := now));
    QuietStarted(e, e0);
    OpenedStarts(e0, o, f);
    if f.kind != Ack {
      AcceptedStarts(Opened(e, f, now), f, now, packet.addressed, victim);
    }
  }

  lemma OpenedStarts(e: Endpoint, o: Endpoint, f: AircFrame)
    requires Inv(e, o) && StartedOk(e) && FrameOk(o, f)
    ensures StartedOk(AckedAll(ResetFor(e, f), AcksIn(f)))
  {
    if NewEpoch(e.peer, f) {
      DropStarted(e, HelloReset(e.peer, f));
      DropKeeps(e, o, HelloReset(e.peer, f));
    }
    AckedAllStarts(ResetFor(e, f), o, AcksIn(f));
  }

  lemma AcceptedStarts(e: Endpoint, f: AircFrame, now: Instant, addressed: bool, victim: u16)
    requires StartedOk(e) && f.FragmentOk()
    ensures StartedOk(Accepted(e, f, now, addressed, victim))
  {
    var e' := Accepted(e, f, now, addressed, victim);
    AcceptedQuiet(e, f, now, addressed, victim);
    QuietStarted(e, e');
  }

  lemma AcceptedQuiet(e: Endpoint, f: AircFrame, now: Instant, addressed: bool, victim: u16)
    requires f.FragmentOk()
    ensures var e' := Accepted(e, f, now, addressed, victim);
            && e'.air == e.air && e'.order == e.order && e'.abandoned == e.abandoned && e'.log == e.log
            && e'.peer.queue == e.peer.queue && e'.peer.pending == e.peer.pending
  {
    AcceptQuiet(e.cfg, e.peer, f, now, addressed, victim);
    AcceptedIsAccept(e, f, now, addressed, victim);
  }

  lemma AcceptQuiet(cfg: SessionConfig, peer: Peer, f: AircFrame, now: Instant, addressed: bool, victim: u16)
    requires f.FragmentOk()
    ensures var p := Accept(cfg, peer, f, now, addressed, victim).0;
            p.queue == peer.queue && p.pending == peer.pending
  {
  }

  /** A reliable message handed over while nothing is in flight. */
  lemma LaunchStarts(e: Endpoint, m: Message, piggy: Option<u16>, e': Endpoint)
    requires StartedOk(e) && MessageOk(m) && e.nextSeq !in e.log && e.peer.pending.None?
    requires var frames := Fragments(m.kind, e.nextSeq, m.chunks, SetBit(0, ACK_REQ));
             && e'.log == e.log[e.nextSeq := m] && e'.order == e.order + [e.nextSeq] && e'.abandoned == e.abandoned
             && e'.air == e.air + Packets(Launch(frames, piggy), true)
             && e'.peer.pending == Some(StartPending(frames)) && e'.peer.queue == e.peer.queue
    ensures StartedOk(e')
  {
    var frames := Fragments(m.kind, e.nextSeq, m.chunks, SetBit(0, ACK_REQ));
    FragmentsOk(e'.log, m.kind, e.nextSeq, m.chunks, SetBit(0, ACK_REQ));
    PutBitReads(frames[0].flags, PIGGYACK, true, ACK_REQ);
    SendsAll(e', frames, Launch(frames, piggy));
    var e1 := e'.(order := e.order, peer := e.peer);
    QuietStarted(e, e1);
    forall k | 0 <= k < |e.order| ensures Queued(e', e'.order[k]) || AllAirborne(e', e'.order[k]) || e'.order[k] in e'.abandoned {
      assert Queued(e1, e1.order[k]) || AllAirborne(e1, e1.order[k]) || e1.order[k] in e1.abandoned;
      if AllAirborne(e1, e1.order[k]) {
        MoreAir(e1, e', e1.order[k]);
      }
    }
  }

  lemma QueueStarts(e: Endpoint, m: Message, e': Endpoint)
    requires StartedOk(e) && MessageOk(m) && e.nextSeq !in e.log && e.peer.pending.Some?
    requires var frames := Fragments(m.kind, e.nextSeq, m.chunks, SetBit(0, ACK_REQ));
             && e'.log == e.log[e.nextSeq := m] && e'.order == e.order + [e.nextSeq] && e'.abandoned == e.abandoned
             && e'.air == e.air
             && e'.peer.pending == e.peer.pending && e'.peer.queue == e.peer.queue + [frames]
    ensures StartedOk(e')
  {
    var n := |e.peer.queue|;
    assert e'.peer.queue[n][0].seqno == e.nextSeq;
    MoreAir(e, e', e.peer.pending.value.frames[0].seqno);
    forall k | 0 <= k < |e.order| ensures Queued(e', e'.order[k]) || AllAirborne(e', e'.order[k]) || e'.order[k] in e'.abandoned {
      if AllAirborne(e, e.order[k]) {
        MoreAir(e, e', e.order[k]);
      } else if Queued(e, e.order[k]) {
        var i :| 0 <= i < n && |e.peer.queue[i]| > 0 && e.peer.queue[i][0].seqno == e.order[k];
        assert e'.peer.queue[i][0].seqno == e'.order[k];
      }
    }
  }

  lemma SentStarts(e: Endpoint, m: Message, piggy: Option<u16>, reliable: bool)
    requires StartedOk(e) && e.nextSeq !in e.log && |m.chunks| >= 1 && Concat(m.chunks) == m.payload && m.kind != Ack
    requires piggy == PiggybackFor(e.cfg, e.peer, reliable)
    requires m.chunks == ChunkPayload(m.payload, e.cfg.MaxPayload(), piggy.Some?)
    ensures StartedOk(Sent(e, m.kind, m.payload, reliable, e.peer.lastHeard))
  {
    SentShape(e, m, piggy, reliable);
    var e' := Sent(e, m.kind, m.payload, reliable, e.peer.lastHeard);
    if Refused(e, m.chunks, reliable) || !reliable {
      QuietStarted(e, e');
    } else if e.peer.pending.Some? {
      QueueStarts(e, m, e');
    } else {
      LaunchStarts(e, m, piggy, e');
    }
  }

  lemma SendStarts(e: Endpoint, kind: Kind, payload: seq<byte>, reliable: bool, now: Instant)
    requires e.nextSeq !in e.log && StartedOk(e) && kind != Ack
    ensures StartedOk(Sent(e, kind, payload, reliable, now))
  {
    var e0 := e.(peer := e.peer.(lastHeard := now));
    QuietStarted(e, e0);
    var piggy := PiggybackFor(e.cfg, e0.peer, reliable);
    var chunks := ChunkPayload(payload, e.cfg.MaxPayload(), piggy.Some?);
    ChunkPayloadJoins(payload, e.cfg.MaxPayload(), piggy.Some?);
    SentStarts(e0, Message(kind, payload, chunks), piggy, reliable);
    SentTouched(e, kind, payload, reliable, now);
  }

  lemma SentTouched(e: Endpoint, kind: Kind, payload: seq<byte>, reliable: bool, now: Instant)
    ensures Sent(e, kind, payload, reliable, now) == Sent(e.(peer := e.peer.(lastHeard := now)), kind, payload, reliable, now)
  {
  }

  lemma BroadcastStarts(e: Endpoint, kind: Kind, payload: seq<byte>, flags: byte)
    requires StartedOk(e) && e.nextSeq !in e.log
    ensures StartedOk(Broadcasted(e, kind, payload, flags))
  {
    QuietStarted(e, Broadcasted(e, kind, payload, flags));
  }

  lemma GiveUpStarts(e: Endpoint)
    requires HeldOk(e) && StartedOk(e) && e.peer.pending.Some?
    ensures StartedOk(GivenUp(e))
  {
    NextStarts(e, GivenUp(e));
  }

  lemma TickStarts(e: Endpoint, o: Endpoint, now: Instant, retry: bool, order: seq<u16>)
    requires Inv(e, o) && StartedOk(e)
    ensures StartedOk(TwoParty.Ticked(e, now, retry, order))
  {
    var e1 := ExpiredAt(e, now, order);
    ExpireKeeps(e, o, now, order);
    QuietStarted(e, e1);
    if Since(now, e1.peer.lastHeard) > e.cfg.peerIdleTimeout {
      DropStarted(e1, NewPeer(now));
    } else if retry && RetryDue(e1.peer, now) {
      if e1.peer.pending.value.attempts < e.cfg.maxRetries {
        QuietStarted(e1, Retried(e1, now));
      } else {
        GiveUpStarts(e1);
        GiveUpKeeps(e1, o);
        DropStarted(GivenUp(e1), NewPeer(now));
      }
    }
  }

  lemma DoesStarts(e: Endpoint, o: Endpoint, ev: Event)
    requires Inv(e, o) && StartedOk(e) && Enabled(e, o, ev)
    ensures StartedOk(Does(e, ev))
  {
    match ev
    case Send(kind, payload, reliable, now) => assert e.nextSeq !in e.log; SendStarts(e, kind, payload, reliable, now);
    case Broadcast(kind, payload, flags) => assert e.nextSeq !in e.log; BroadcastStarts(e, kind, payload, flags);
    case SpendNumber => QuietStarted(e, Spend(e));
    case Hear(packet, now, victim) => HeardStarts(e, o, packet, now, victim);
    case DrainAcks => QuietStarted(e, Drained(e));
    case Tick(now, retry, order) => TickStarts(e, o, now, retry, order);
    case KeyDown(seqno, now) => QuietStarted(e, KeyedUp(e, seqno, now));
    case Forget(now) => DropStarted(e, NewPeer(now));
  }

  lemma {:induction false} RunStarts(a: SessionConfig, b: SessionConfig, worlds: seq<World>, acts: seq<Act>, n: nat)
    requires IsRun(a, b, worlds, acts) && n < |worlds|
    ensures StartedOk(worlds[n].left) && StartedOk(worlds[n].right)
  {
    if n == 0 {
      var t :| worlds[0] == World(Fresh(a, t), Fresh(b, t));
    } else {
      RunStarts(a, b, worlds, acts, n - 1);
      RunKeeps(a, b, worlds, acts, n - 1);
      var w, act := worlds[n - 1], acts[n - 1];
      assert Possible(w, act);
      if act.left {
        DoesStarts(w.left, w.right, act.event);
      } else {
        DoesStarts(w.right, w.left, act.event);
      }
    }
  }

  /** Over any run: each reliable message accepted still waits in the queue, or was given up, or
      each of its fragments was transmitted, addressed and asking for an acknowledgement; and so was
      each fragment of the message in flight. */
  lemma AcceptedIsSent(a: SessionConfig, b: SessionConfig, worlds: seq<World>, acts: seq<Act>, n: nat)
    requires IsRun(a, b, worlds, acts) && n < |worlds|
    ensures var e := worlds[n].left;
            && (forall k :: 0 <= k < |e.order| ==> Queued(e, e.order[k]) || AllAirborne(e, e.order[k]) || e.order[k] in e.abandoned)
            && (e.peer.pending.Some? ==> |e.peer.pending.value.frames| > 0 && AllAirborne(e, e.peer.pending.value.frames[0].seqno))
  {
    RunStarts(a, b, worlds, acts, n);
  }
}
