/** Which releases prove delivery: exactly those of messages that cannot be cut in fragments the
    receiver takes. The sender can tell from the payload's length and the two frame sizes. */
module Releases {
  import opened Common
  import opened AircFrames
  import opened Session
  import opened TwoParty
  import opened TwoPartySafety
  import opened ExpiryGap

  // ---- What a release is earned by ----

  /** The message was cut as the session layer cuts, leaving room for a piggyback or not. */
  predicate CutAs(cfg: SessionConfig, m: Message, piggy: bool) {
    (piggy ==> cfg.MaxPayload() > 2) && m.chunks == ChunkPayload(m.payload, cfg.MaxPayload(), piggy)
  }

  ghost predicate CutOk(e: Endpoint) {
    forall s :: s in e.log ==> CutAs(e.cfg, e.log[s], false) || CutAs(e.cfg, e.log[s], true)
  }

  /** Only fragments of fragmented messages are ever stored, and only those that fit. */
  ghost predicate FitsOk(tx: Endpoint, rx: Endpoint) {
    forall s: u16, i: nat :: (s, i) in rx.stored ==>
      s in tx.log && i < |tx.log[s].chunks| && |tx.log[s].chunks| >= 2 && |tx.log[s].chunks[i]| <= rx.cfg.MaxPayload()
  }

  ghost predicate AllWere(tx: Endpoint, rx: Endpoint, s: u16)
    requires s in tx.log
  {
    forall i: nat :: i < |tx.log[s].chunks| ==> (s, i) in rx.stored
  }

  /** What was released was delivered, or each of its fragments was stored at some time. */
  ghost predicate EarnedOk(tx: Endpoint, rx: Endpoint) {
    forall s :: s in tx.released ==> s in tx.log && (s in rx.delivered || AllWere(tx, rx, s))
  }

  /** What is only ever added to. */
  ghost predicate Grows(e: Endpoint, e': Endpoint) {
    && e'.cfg == e.cfg && e.stored <= e'.stored && e.delivered <= e'.delivered
    && forall s :: s in e.log ==> s in e'.log && e'.log[s] == e.log[s]
  }

  lemma {:induction false} AckedAllGrows(e: Endpoint, acks: seq<OwedAck>)
    ensures var e' := AckedAll(e, acks);
            e'.cfg == e.cfg && e'.stored == e.stored && e'.delivered == e.delivered && e'.log == e.log
    decreases |acks|
  {
    if acks != [] {
      AckedAllGrows(Acked(e, acks[0]), acks[1..]);
    }
  }

  lemma OpenedGrows(e: Endpoint, frame: AircFrame, now: Instant)
    ensures var e' := Opened(e, frame, now);
            e'.cfg == e.cfg && e'.stored == e.stored && e'.delivered == e.delivered && e'.log == e.log
  {
    AckedAllGrows(ResetFor(e.(peer := e.peer.(lastHeard := now)), frame), AcksIn(frame));
  }

  /** Logged messages are cut by the session layer's own rule, whichever operation logs them. */
  lemma LogsCut(e: Endpoint, o: Endpoint, ev: Event)
    requires Inv(e, o) && Enabled(e, o, ev) && (ev.Send? || ev.Broadcast?) && CutOk(e)
    ensures Grows(e, Does(e, ev)) && CutOk(Does(e, ev)) && Does(e, ev).released == e.released
  {
    assert e.nextSeq !in e.log;
    if ev.Send? {
      SendCuts(e, ev.kind, ev.payload, ev.reliable, ev.now);
    } else {
      BroadcastCuts(e, ev.kind, ev.payload, ev.flags);
    }
  }

  lemma SendCuts(e: Endpoint, kind: Kind, payload: seq<byte>, reliable: bool, now: Instant)
    requires e.nextSeq !in e.log && CutOk(e)
    ensures var e' := Sent(e, kind, payload, reliable, now); Grows(e, e') && CutOk(e') && e'.released == e.released
  {
    var piggy := PiggybackFor(e.cfg, e.peer, reliable).Some?;
    assert CutAs(e.cfg, Message(kind, payload, ChunkPayload(payload, e.cfg.MaxPayload(), piggy)), piggy);
  }

  lemma BroadcastCuts(e: Endpoint, kind: Kind, payload: seq<byte>, flags: byte)
    requires e.nextSeq !in e.log && CutOk(e)
    ensures var e' := Broadcasted(e, kind, payload, flags); Grows(e, e') && CutOk(e') && e'.released == e.released
  {
    assert CutAs(e.cfg, Message(kind, payload, ChunkPayload(payload, e.cfg.MaxPayload(), false)), false);
  }

  lemma HeardGrows(e: Endpoint, packet: Packet, now: Instant, victim: u16)
    requires packet.frame.FragmentOk()
    ensures Grows(e, Heard(e, packet, now, victim)) && Heard(e, packet, now, victim).log == e.log
  {
    OpenedGrows(e, packet.frame, now);
    var e1 := Opened(e, packet.frame, now);
    if packet.frame.kind != Ack {
      AcceptedGrows(e1, packet.frame, now, packet.addressed, victim);
    }
  }

  lemma AcceptedGrows(e: Endpoint, frame: AircFrame, now: Instant, addressed: bool, victim: u16)
    requires frame.FragmentOk()
    ensures Grows(e, Accepted(e, frame, now, addressed, victim)) && Accepted(e, frame, now, addressed, victim).log == e.log
  {
  }

  lemma OthersGrow(e: Endpoint, ev: Event)
    requires !ev.Send? && !ev.Broadcast? && !ev.Hear?
    ensures var e' := Does(e, ev);
            e'.cfg == e.cfg && e'.stored == e.stored && e'.delivered == e.delivered && e'.log == e.log && e'.released == e.released
  {
  }

  lemma DoesGrows(e: Endpoint, o: Endpoint, ev: Event)
    requires Inv(e, o) && Enabled(e, o, ev) && CutOk(e)
    ensures Grows(e, Does(e, ev)) && CutOk(Does(e, ev))
  {
    if ev.Send? || ev.Broadcast? {
      LogsCut(e, o, ev);
    } else if ev.Hear? {
      HeardGrows(e, ev.packet, ev.now, ev.victim);
    } else {
      OthersGrow(e, ev);
    }
  }

  // ---- Hearing: what is stored, and what is released ----

  /** A fragment that is stored belongs to a fragmented message and fits. */
  lemma AcceptedFits(e: Endpoint, o: Endpoint, f: AircFrame, now: Instant, addressed: bool, victim: u16)
    requires DataOk(o.log, f) && f.FragmentOk() && FitsOk(o, e)
    ensures FitsOk(o, Accepted(e, f, now, addressed, victim))
  {
    var e' := Accepted(e, f, now, addressed, victim);
    if StoresFragment(e, f) {
      assert e'.stored == e.stored + {(f.seqno, f.fragIndex as nat)};
    } else {
      assert e'.stored == e.stored;
    }
  }

  lemma HeardFits(e: Endpoint, o: Endpoint, packet: Packet, now: Instant, victim: u16)
    requires FrameOk(o, packet.frame) && FitsOk(o, e)
    ensures FitsOk(o, Heard(e, packet, now, victim))
  {
    OpenedGrows(e, packet.frame, now);
    var e1 := Opened(e, packet.frame, now);
    assert FitsOk(o, e1);
    if packet.frame.kind != Ack {
      AcceptedFits(e1, o, packet.frame, now, packet.addressed, victim);
    }
  }

  /** A release is earned: the acknowledgement says delivered, or fragment by fragment stored. */
  lemma AckedEarns(e: Endpoint, o: Endpoint, ack: OwedAck)
    requires Inv(e, o) && ClaimOk(o, ack) && EarnedOk(e, o)
    ensures EarnedOk(Acked(e, ack), o)
  {
    if AckReleases(e.peer, ack) {
      assert ack.seqno in e.log;
      if ack.bitmap.Some? {
        var p := e.peer.pending.value;
        var merged := MergeAcked(p.acked, ack.bitmap.value);
        forall i: nat | i < |e.log[ack.seqno].chunks| ensures (ack.seqno, i) in o.stored {
          assert merged[i];
        }
      }
    }
    EarnedStays(e, Acked(e, ack), o, if AckReleases(e.peer, ack) then {ack.seqno} else {});
  }

  lemma EarnedStays(e: Endpoint, e': Endpoint, o: Endpoint, more: set<u16>)
    requires EarnedOk(e, o) && e'.log == e.log && e'.released == e.released + more
    requires forall s :: s in more ==> s in e.log && (s in o.delivered || AllWere(e, o, s))
    ensures EarnedOk(e', o)
  {
    forall s | s in e'.released ensures s in e'.log && (s in o.delivered || AllWere(e', o, s)) {
      assert s in e.log && (s in o.delivered || AllWere(e, o, s));
    }
  }

  lemma {:induction false} AckedAllEarns(e: Endpoint, o: Endpoint, acks: seq<OwedAck>)
    requires Inv(e, o) && EarnedOk(e, o) && forall i :: 0 <= i < |acks| ==> ClaimOk(o, acks[i])
    ensures EarnedOk(AckedAll(e, acks), o)
    decreases |acks|
  {
    if acks != [] {
      AckedEarns(e, o, acks[0]);
      AckedKeeps(e, o, acks[0]);
      AckedAllEarns(Acked(e, acks[0]), o, acks[1..]);
    }
  }

  lemma ResetEarns(e: Endpoint, o: Endpoint, f: AircFrame)
    requires Inv(e, o) && EarnedOk(e, o)
    ensures Inv(ResetFor(e, f), o) && EarnedOk(ResetFor(e, f), o)
  {
    if NewEpoch(e.peer, f) {
      DropKeeps(e, o, HelloReset(e.peer, f));
    }
    EarnedStays(e, ResetFor(e, f), o, {});
  }

  lemma OpenedEarns(e: Endpoint, o: Endpoint, f: AircFrame, now: Instant)
    requires Inv(e, o) && FrameOk(o, f) && EarnedOk(e, o)
    ensures EarnedOk(Opened(e, f, now), o)
  {
    var e0 := e.(peer := e.peer.(lastHeard := now));
    TouchKeeps(e, o, now);
    EarnedStays(e, e0, o, {});
    ResetEarns(e0, o, f);
    AckedAllEarns(ResetFor(e0, f), o, AcksIn(f));
  }

  lemma HeardEarns(e: Endpoint, o: Endpoint, packet: Packet, now: Instant, victim: u16)
    requires Inv(e, o) && packet in o.air && packet.frame.FragmentOk() && EarnedOk(e, o)
    ensures EarnedOk(Heard(e, packet, now, victim), o)
  {
    assert FrameOk(o, packet.frame);
    OpenedEarns(e, o, packet.frame, now);
    AcceptedEarns(Opened(e, packet.frame, now), o, packet, now, victim);
  }

  lemma AcceptedEarns(e: Endpoint, o: Endpoint, packet: Packet, now: Instant, victim: u16)
    requires packet.frame.FragmentOk() && EarnedOk(e, o)
    ensures EarnedOk(Accepted(e, packet.frame, now, packet.addressed, victim), o)
  {
    EarnedStays(e, Accepted(e, packet.frame, now, packet.addressed, victim), o, {});
  }

  lemma LoggedEarns(e: Endpoint, e': Endpoint, o: Endpoint)
    requires EarnedOk(e, o) && Grows(e, e') && e'.released == e.released
    ensures EarnedOk(e', o)
  {
    forall s | s in e'.released ensures s in e'.log && (s in o.delivered || AllWere(e', o, s)) {
      assert s in e.log && (s in o.delivered || AllWere(e, o, s));
    }
  }

  lemma DoesEarns(e: Endpoint, o: Endpoint, ev: Event)
    requires Inv(e, o) && Enabled(e, o, ev) && CutOk(e) && EarnedOk(e, o)
    ensures EarnedOk(Does(e, ev), o)
  {
    if ev.Send? || ev.Broadcast? {
      LogsCut(e, o, ev);
      LoggedEarns(e, Does(e, ev), o);
    } else if ev.Hear? {
      HeardEarns(e, o, ev.packet, ev.now, ev.victim);
    } else {
      OthersGrow(e, ev);
      EarnedStays(e, Does(e, ev), o, {});
    }
  }

  lemma DoesFits(e: Endpoint, o: Endpoint, ev: Event)
    requires Inv(e, o) && Enabled(e, o, ev) && CutOk(e) && FitsOk(o, e)
    ensures FitsOk(o, Does(e, ev))
  {
    if ev.Send? || ev.Broadcast? {
      assert Does(e, ev).stored == e.stored && Does(e, ev).cfg == e.cfg;
    } else if ev.Hear? {
      assert FrameOk(o, ev.packet.frame);
      HeardFits(e, o, ev.packet, ev.now, ev.victim);
    } else {
      OthersGrow(e, ev);
    }
  }

  ghost predicate Exact(e: Endpoint, o: Endpoint) {
    CutOk(e) && CutOk(o) && FitsOk(e, o) && FitsOk(o, e) && EarnedOk(e, o) && EarnedOk(o, e)
  }

  /** The other side of the exchange only sees the log, and what was stored and delivered, grow. */
  lemma GrowsKeeps(e: Endpoint, e': Endpoint, o: Endpoint)
    requires Grows(e, e') && FitsOk(e, o) && EarnedOk(o, e)
    ensures FitsOk(e', o) && EarnedOk(o, e')
  {
    forall s | s in o.released ensures s in o.log && (s in e'.delivered || AllWere(o, e', s)) {
      assert s in o.log && (s in e.delivered || AllWere(o, e, s));
    }
  }

  lemma DoesExact(e: Endpoint, o: Endpoint, ev: Event)
    requires Inv(e, o) && Enabled(e, o, ev) && Exact(e, o)
    ensures Exact(Does(e, ev), o) && Does(e, ev).cfg == e.cfg
  {
    DoesGrows(e, o, ev);
    DoesEarns(e, o, ev);
    DoesFits(e, o, ev);
    GrowsKeeps(e, Does(e, ev), o);
  }

  lemma {:induction false} RunExact(a: SessionConfig, b: SessionConfig, worlds: seq<World>, acts: seq<Act>, n: nat)
    requires IsRun(a, b, worlds, acts) && n < |worlds|
    ensures Exact(worlds[n].left, worlds[n].right) && worlds[n].left.cfg == a && worlds[n].right.cfg == b
  {
    if n == 0 {
      var t :| worlds[0] == World(Fresh(a, t), Fresh(b, t));
    } else {
      RunExact(a, b, worlds, acts, n - 1);
      RunKeeps(a, b, worlds, acts, n - 1);
      var w, act := worlds[n - 1], acts[n - 1];
      assert Possible(w, act);
      if act.left {
        DoesExact(w.left, w.right, act.event);
      } else {
        DoesExact(w.right, w.left, act.event);
      }
    }
  }

  // ---- Which releases prove delivery ----

  predicate DeliveredAt(e: Endpoint, s: u16) {
    exists j :: 0 <= j < |e.deliveries| && e.deliveries[j].seqno == s
  }

  lemma StoredNeedsTwo(tx: Endpoint, rx: Endpoint, s: u16)
    requires FitsOk(tx, rx) && s in tx.log && |tx.log[s].chunks| > 0 && AllWere(tx, rx, s)
    ensures |tx.log[s].chunks| >= 2
  {
    assert (s, 0) in rx.stored;
  }

  /** A release of a message that went out in one piece proves that it was delivered, whatever
      the receiver threw away, evicted or forgot. */
  lemma WholeReleaseDelivers(a: SessionConfig, b: SessionConfig, worlds: seq<World>, acts: seq<Act>, n: nat, s: u16)
    requires IsRun(a, b, worlds, acts) && n < |worlds|
    requires s in worlds[n].left.released && s in worlds[n].left.log && |worlds[n].left.log[s].chunks| == 1
    ensures DeliveredAt(worlds[n].right, s)
  {
    RunExact(a, b, worlds, acts, n);
    RunKeeps(a, b, worlds, acts, n);
    if AllWere(worlds[n].left, worlds[n].right, s) {
      StoredNeedsTwo(worlds[n].left, worlds[n].right, s);
    }
  }

  /** A message released but not delivered was cut, and each of its fragments fits the receiver. */
  lemma UndeliveredWasCut(a: SessionConfig, b: SessionConfig, worlds: seq<World>, acts: seq<Act>, n: nat, s: u16)
    requires IsRun(a, b, worlds, acts) && n < |worlds| && s in worlds[n].left.released && !DeliveredAt(worlds[n].right, s)
    ensures s in worlds[n].left.log
    ensures var payload := worlds[n].left.log[s].payload;
            Cuts(a, b, payload, false) || Cuts(a, b, payload, true)
  {
    RunExact(a, b, worlds, acts, n);
    RunKeeps(a, b, worlds, acts, n);
    var tx, rx := worlds[n].left, worlds[n].right;
    assert MessageOk(tx.log[s]);
    assert s !in rx.delivered;
    forall i: nat | i < |tx.log[s].chunks| ensures |tx.log[s].chunks| >= 2 && |tx.log[s].chunks[i]| <= b.MaxPayload() {
      assert (s, i) in rx.stored;
    }
    assert |tx.log[s].chunks[0]| <= b.MaxPayload();
  }

  // ---- Order, for messages in one piece ----

  /** Messages of which a fragment was ever stored. */
  function Fragmented(e: Endpoint): set<u16> {
    set p | p in e.stored :: p.0
  }

  /** Nothing is held or thrown away that was not stored. */
  ghost predicate KnownOk(e: Endpoint) {
    e.peer.reasm.Keys <= Fragmented(e) && e.discarded <= Fragmented(e)
  }

  lemma {:induction false} AckedAllKnown(e: Endpoint, acks: seq<OwedAck>)
    requires KnownOk(e)
    ensures KnownOk(AckedAll(e, acks))
    decreases |acks|
  {
    if acks != [] {
      assert Acked(e, acks[0]).peer.reasm == e.peer.reasm;
      AckedAllKnown(Acked(e, acks[0]), acks[1..]);
    }
  }

  lemma DropKnown(e: Endpoint, blank: Peer)
    requires KnownOk(e) && blank.reasm == map[]
    ensures KnownOk(DropSession(e, blank))
  {
  }

  lemma AcceptsWhole(e: Endpoint, f: AircFrame, now: Instant, addressed: bool, victim: u16)
    requires f.FragmentOk() && !StoresFragment(e, f)
    ensures var e' := Accepted(e, f, now, addressed, victim);
            e'.stored == e.stored && e'.discarded == e.discarded && e'.peer.reasm == e.peer.reasm
  {
  }

  /** The table afterwards: what room was made for, with or without the frame's own message. */
  lemma FragmentTable(cfg: SessionConfig, peer: Peer, f: AircFrame, now: Instant, addressed: bool, victim: u16)
    requires f.FragmentOk()
    ensures AcceptFragment(cfg, peer, f, now, addressed, victim).0.reasm.Keys <= peer.reasm.Keys + {f.seqno}
  {
    assert MakeRoom(cfg, peer, f, victim).Keys <= peer.reasm.Keys;
  }

  lemma AcceptsFragment(e: Endpoint, f: AircFrame, now: Instant, addressed: bool, victim: u16)
    requires f.FragmentOk() && StoresFragment(e, f) && (NeedsRoom(e.cfg, e.peer, f) ==> victim in e.peer.reasm)
    ensures var e' := Accepted(e, f, now, addressed, victim);
            && e'.stored == e.stored + {(f.seqno, f.fragIndex as nat)}
            && e'.peer.reasm.Keys <= e.peer.reasm.Keys + {f.seqno}
            && e'.discarded <= e.discarded + e.peer.reasm.Keys + {f.seqno}
  {
    FragmentTable(e.cfg, e.peer, f, now, addressed, victim);
    var e' := Accepted(e, f, now, addressed, victim);
    assert e'.peer.reasm == AcceptFragment(e.cfg, e.peer, f, now, addressed, victim).0.reasm;
  }

  lemma AcceptedKnown(e: Endpoint, f: AircFrame, now: Instant, addressed: bool, victim: u16)
    requires KnownOk(e) && f.FragmentOk() && (NeedsRoom(e.cfg, e.peer, f) ==> victim in e.peer.reasm)
    ensures KnownOk(Accepted(e, f, now, addressed, victim))
  {
    if StoresFragment(e, f) {
      AcceptsFragment(e, f, now, addressed, victim);
      MoreKnown(e, Accepted(e, f, now, addressed, victim), f.seqno, f.fragIndex, true);
    } else {
      AcceptsWhole(e, f, now, addressed, victim);
      MoreKnown(e, Accepted(e, f, now, addressed, victim), f.seqno, f.fragIndex, false);
    }
  }

  lemma MoreKnown(e: Endpoint, e': Endpoint, s: u16, i: nat, stores: bool)
    requires KnownOk(e) && e'.stored == e.stored + (if stores then {(s, i)} else {})
    requires e'.peer.reasm.Keys <= e.peer.reasm.Keys + (if stores then {s} else {})
    requires e'.discarded <= e.discarded + e.peer.reasm.Keys + (if stores then {s} else {})
    ensures KnownOk(e')
  {
    assert Fragmented(e') == Fragmented(e) + (if stores then {s} else {});
  }

  lemma HeardKnown(e: Endpoint, packet: Packet, now: Instant, victim: u16)
    requires KnownOk(e) && packet.frame.FragmentOk() && EvictsOldest(e, packet.frame, now, victim)
    ensures KnownOk(Heard(e, packet, now, victim))
  {
    var e0 := e.(peer := e.peer.(lastHeard := now));
    if NewEpoch(e0.peer, packet.frame) {
      DropKnown(e0, HelloReset(e0.peer, packet.frame));
    }
    AckedAllKnown(ResetFor(e0, packet.frame), AcksIn(packet.frame));
    if packet.frame.kind != Ack {
      AcceptedKnown(Opened(e, packet.frame, now), packet.frame, now, packet.addressed, victim);
    }
  }

  lemma TickedKnown(e: Endpoint, now: Instant, retry: bool, order: seq<u16>)
    requires KnownOk(e)
    ensures KnownOk(TwoParty.Ticked(e, now, retry, order))
  {
    var e1 := ExpiredAt(e, now, order);
    assert KnownOk(e1);
    DropKnown(e1, NewPeer(now));
    if e1.peer.pending.Some? {
      assert GivenUp(e1).peer.reasm == e1.peer.reasm && KnownOk(GivenUp(e1));
      DropKnown(GivenUp(e1), NewPeer(now));
    }
  }

  lemma DoesKnown(e: Endpoint, o: Endpoint, ev: Event)
    requires KnownOk(e) && Enabled(e, o, ev)
    ensures KnownOk(Does(e, ev))
  {
    match ev
    case Hear(packet, now, victim) => HeardKnown(e, packet, now, victim);
    case Tick(now, retry, order) => TickedKnown(e, now, retry, order);
    case Forget(now) => DropKnown(e, NewPeer(now));
    case _ => assert Does(e, ev).peer.reasm == e.peer.reasm;
  }

  lemma {:induction false} RunKnown(a: SessionConfig, b: SessionConfig, worlds: seq<World>, acts: seq<Act>, n: nat)
    requires IsRun(a, b, worlds, acts) && n < |worlds|
    ensures KnownOk(worlds[n].left) && KnownOk(worlds[n].right)
  {
    if n == 0 {
      var t :| worlds[0] == World(Fresh(a, t), Fresh(b, t));
    } else {
      RunKnown(a, b, worlds, acts, n - 1);
      var w, act := worlds[n - 1], acts[n - 1];
      assert Possible(w, act);
      if act.left {
        DoesKnown(w.left, w.right, act.event);
      } else {
        DoesKnown(w.right, w.left, act.event);
      }
    }
  }

  lemma DiscardedNeedsTwo(tx: Endpoint, rx: Endpoint, s: u16)
    requires FitsOk(tx, rx) && KnownOk(rx) && s in rx.discarded
    ensures s in tx.log && |tx.log[s].chunks| >= 2
  {
    var p :| p in rx.stored && p.0 == s;
    assert (s, p.1) in rx.stored;
  }

  /** When a reliable message is delivered, every earlier one that went out in one piece was
      delivered before it, or given up by the sender, whatever the receiver threw away. */
  lemma WholeInEnqueueOrder(a: SessionConfig, b: SessionConfig, worlds: seq<World>, acts: seq<Act>, n: nat, j: nat, k1: nat, k2: nat)
    requires IsRun(a, b, worlds, acts) && n < |worlds| && j < |worlds[n].right.deliveries|
    requires k1 < k2 < |worlds[n].left.order| && worlds[n].left.order[k2] == worlds[n].right.deliveries[j].seqno
    requires worlds[n].left.order[k1] in worlds[n].left.log && |worlds[n].left.log[worlds[n].left.order[k1]].chunks| == 1
    ensures var s := worlds[n].left.order[k1];
            (exists i :: 0 <= i < j && worlds[n].right.deliveries[i].seqno == s) || s in worlds[n].left.abandoned
  {
    DeliveredInEnqueueOrder(a, b, worlds, acts, n, j, k1, k2);
    RunKnown(a, b, worlds, acts, n);
    RunExact(a, b, worlds, acts, n);
    var s := worlds[n].left.order[k1];
    if s in worlds[n].right.discarded {
      DiscardedNeedsTwo(worlds[n].left, worlds[n].right, s);
    }
  }

  // ---- Exactly which ----

  /** Some run of the two stations gets to `w`. */
  ghost predicate Reached(a: SessionConfig, b: SessionConfig, w: World) {
    exists worlds, acts :: IsRun(a, b, worlds, acts) && w in worlds
  }

  /** In every run: whenever a message of this kind and payload is released, it was delivered. */
  ghost predicate ReleaseProvesDelivery(a: SessionConfig, b: SessionConfig, kind: Kind, payload: seq<byte>) {
    forall w: World, s: u16 ::
      Reached(a, b, w) && s in w.left.released && s in w.left.log && w.left.log[s].kind == kind && w.left.log[s].payload == payload ==>
        DeliveredAt(w.right, s)
  }

  /** A release proves delivery exactly for the payloads that are not cut in two or more fragments
      the receiver takes, neither with nor without an acknowledgement riding along. */
  lemma ReleaseProvesDeliveryExactly(a: SessionConfig, b: SessionConfig, kind: Kind, payload: seq<byte>)
    requires kind != Ack
    ensures ReleaseProvesDelivery(a, b, kind, payload) <==> !Cuts(a, b, payload, false) && !Cuts(a, b, payload, true)
  {
    if !Cuts(a, b, payload, false) && !Cuts(a, b, payload, true) {
      forall w: World, s: u16 |
        Reached(a, b, w) && s in w.left.released && s in w.left.log && w.left.log[s].kind == kind && w.left.log[s].payload == payload
        ensures DeliveredAt(w.right, s)
      {
        var worlds: seq<World>, acts: seq<Act> :| IsRun(a, b, worlds, acts) && w in worlds;
        var n :| 0 <= n < |worlds| && worlds[n] == w;
        if !DeliveredAt(w.right, s) {
          UndeliveredWasCut(a, b, worlds, acts, n, s);
        }
      }
    } else {
      var pl := Plan(a, b, kind, payload, !Cuts(a, b, payload, false));
      var r := ExpiryFakesCompletion(pl);
      assert Reached(a, b, r.Last());
    }
  }

  /** The most a payload may hold and still go out in one piece, with or without a piggyback. */
  function Room(cfg: SessionConfig): nat {
    if cfg.MaxPayload() > 2 then cfg.MaxPayload() - 2 else cfg.MaxPayload()
  }

  lemma {:induction false} CutAtRoom(cfg: SessionConfig, payload: seq<byte>, piggy: bool)
    requires piggy ==> cfg.MaxPayload() > 2
    ensures |ChunkPayload(payload, cfg.MaxPayload(), piggy)| >= 2 <==> |payload| > if piggy then Room(cfg) else cfg.MaxPayload()
  {
    var max := cfg.MaxPayload();
    var first := if piggy then Max(1, max - 2) else max;
    if |payload| > first {
      assert |Chunks(payload[first..], max)| > 0;
    }
  }

  /** The sender can tell beforehand: a payload that fits one frame together with the two octets of
      an acknowledgement is safe; to a station that takes the same frames, a longer one is not. */
  lemma SafeLength(a: SessionConfig, b: SessionConfig, payload: seq<byte>)
    requires a.MaxPayload() <= b.MaxPayload() && |ChunkPayload(payload, a.MaxPayload(), a.MaxPayload() > 2)| <= 255
    ensures Cuts(a, b, payload, false) || Cuts(a, b, payload, true) <==> |payload| > Room(a)
  {
    var piggy := a.MaxPayload() > 2;
    CutAtRoom(a, payload, false);
    CutAtRoom(a, payload, piggy);
    ChunkPayloadJoins(payload, a.MaxPayload(), piggy);
    if |payload| > Room(a) {
      assert Cuts(a, b, payload, piggy);
    }
  }
}
