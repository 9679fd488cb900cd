/** What each station owes the other and the air, over every run: to acknowledge only what it was
    asked to, and to keep its tables bounded. */
module SessionDuties {
  import opened Common
  import opened AircFrames
  import opened Session
  import opened TwoParty
  import opened TwoPartySafety
  import SessionExact

  // ---- Acknowledgements are only of what asked for them ----

  /** Numbers of which this station heard a frame addressed to it, up to event `n`. */
  function Addressed(acts: seq<Act>, left: bool, n: nat): set<u16>
    requires n <= |acts|
  {
    if n == 0 then {}
    else
      var ev := acts[n - 1].event;
      Addressed(acts, left, n - 1)
      + (if acts[n - 1].left == left && ev.Hear? && ev.packet.addressed then {ev.packet.frame.seqno} else {})
  }

  /** ... of which it heard a frame asking for an acknowledgement. */
  function Asking(acts: seq<Act>, left: bool, n: nat): set<u16>
    requires n <= |acts|
  {
    if n == 0 then {}
    else
      var ev := acts[n - 1].event;
      Asking(acts, left, n - 1)
      + (if acts[n - 1].left == left && ev.Hear? && ev.packet.frame.WantsAck() then {ev.packet.frame.seqno} else {})
  }

  /** What is owed, and may yet be owed, was addressed and asked for. */
  ghost predicate OwesOk(p: Peer, addressed: set<u16>, asking: set<u16>) {
    && (p.owedAck.Some? ==> p.owedAck.value.seqno in addressed * asking)
    && (forall s :: s in p.reasm && p.reasm[s].wantAck ==> s in addressed * asking)
    && (forall s :: s in p.reasm && HasBit(p.reasm[s].flags, ACK_REQ) ==> s in asking)
  }

  ghost predicate AcksOk(air: set<Packet>, addressed: set<u16>, asking: set<u16>) {
    forall p, i :: p in air && 0 <= i < |AcksIn(p.frame)| ==> AcksIn(p.frame)[i].seqno in addressed * asking
  }

  ghost predicate AskedOk(e: Endpoint, addressed: set<u16>, asking: set<u16>) {
    OwesOk(e.peer, addressed, asking) && AcksOk(e.air, addressed, asking)
  }

  /** More frames on the air whose acknowledgements were asked for. */
  lemma MoreAcks(air: set<Packet>, frames: seq<AircFrame>, to: bool, addressed: set<u16>, asking: set<u16>)
    requires AcksOk(air, addressed, asking)
    requires forall f, i :: f in frames && 0 <= i < |AcksIn(f)| ==> AcksIn(f)[i].seqno in addressed * asking
    ensures AcksOk(air + Packets(frames, to), addressed, asking)
  {
  }

  lemma AcceptOwes(cfg: SessionConfig, p: Peer, f: AircFrame, now: Instant, addr: bool, victim: u16, addressed: set<u16>, asking: set<u16>)
    requires OwesOk(p, addressed, asking) && f.FragmentOk()
    requires (addr ==> f.seqno in addressed) && (f.WantsAck() ==> f.seqno in asking)
    ensures OwesOk(Accept(cfg, p, f, now, addr, victim).0, addressed, asking)
  {
    if f.seqno !in p.seen && f.fragTotal != 1 && |f.payload| <= cfg.MaxPayload() {
      var room := MakeRoom(cfg, p, f, victim);
      var wantAck := addr && f.WantsAck();
      var before := EntryFor(room, f, now, wantAck);
      EntryOwes(before, f, wantAck);
    }
  }

  lemma EntryOwes(e: Reassembly, f: AircFrame, wantAck: bool)
    requires |e.parts| == f.fragTotal && f.FragmentOk()
    ensures var r := AddFragment(e, f, wantAck);
            && (r.wantAck ==> e.wantAck || wantAck)
            && (HasBit(r.flags, ACK_REQ) ==> HasBit(e.flags, ACK_REQ) || f.WantsAck())
  {
  }

  lemma {:induction false} AckedAllAsked(e: Endpoint, acks: seq<OwedAck>, addressed: set<u16>, asking: set<u16>)
    requires HeldOk(e) && AskedOk(e, addressed, asking)
    ensures AskedOk(AckedAll(e, acks), addressed, asking)
    decreases |acks|
  {
    if acks != [] {
      AckedAsked(e, acks[0], addressed, asking);
      AckedAllAsked(Acked(e, acks[0]), acks[1..], addressed, asking);
    }
  }

  /** Data frames held carry no acknowledgement. */
  lemma HeldCarryNone(e: Endpoint, frames: seq<AircFrame>, acked: seq<bool>, n: nat)
    requires FramesOk(e.log, frames) && n <= |frames|
    ensures forall f :: f in frames ==> AcksIn(f) == []
    ensures forall f :: f in HolesPrefix(frames, acked, n) ==> AcksIn(f) == []
  {
    forall f | f in frames ensures AcksIn(f) == [] {
      var i :| 0 <= i < |frames| && frames[i] == f;
      assert DataOk(e.log, frames[i]);
    }
    if n > 0 {
      HeldCarryNone(e, frames, acked, n - 1);
      assert DataOk(e.log, frames[n - 1]);
    }
  }

  lemma AckedAsked(e: Endpoint, ack: OwedAck, addressed: set<u16>, asking: set<u16>)
    requires HeldOk(e) && AskedOk(e, addressed, asking)
    ensures HeldOk(Acked(e, ack)) && AskedOk(Acked(e, ack), addressed, asking)
  {
    ApplyAckOk(e.peer, ack);
    var (p, out) := ApplyAck(e.peer, ack);
    if AckMatches(e.peer, ack.seqno) {
      var pending := e.peer.pending.value;
      if AckReleases(e.peer, ack) {
        if e.peer.queue != [] {
          HeldCarryNone(e, e.peer.queue[0], [], 0);
        }
      } else {
        HeldCarryNone(e, pending.frames, MergeAcked(pending.acked, ack.bitmap.value), |pending.frames|);
      }
    }
    MoreAcks(e.air, out, true, addressed, asking);
  }

  lemma OpenedAsked(e: Endpoint, f: AircFrame, now: Instant, addressed: set<u16>, asking: set<u16>)
    requires HeldOk(e) && AskedOk(e, addressed, asking)
    ensures AskedOk(Opened(e, f, now), addressed, asking)
  {
    var e0 := ResetFor(e.(peer := e.peer.(lastHeard := now)), f);
    AckedAllAsked(e0, AcksIn(f), addressed, asking);
  }

  lemma HearAsked(e: Endpoint, packet: Packet, now: Instant, victim: u16, addressed: set<u16>, asking: set<u16>)
    requires HeldOk(e) && AskedOk(e, addressed, asking) && packet.frame.FragmentOk()
    requires packet.addressed ==> packet.frame.seqno in addressed
    requires packet.frame.WantsAck() ==> packet.frame.seqno in asking
    ensures AskedOk(Heard(e, packet, now, victim), addressed, asking)
  {
    var f := packet.frame;
    OpenedAsked(e, f, now, addressed, asking);
    var e1 := Opened(e, f, now);
    if f.kind != Ack {
      AcceptOwes(e1.cfg, e1.peer, f, now, packet.addressed, victim, addressed, asking);
      AcceptedIsAccept(e1, f, now, packet.addressed, victim);
    }
  }

  lemma DrainAsked(e: Endpoint, addressed: set<u16>, asking: set<u16>)
    requires AskedOk(e, addressed, asking) && ReceivedOk(e)
    ensures AskedOk(Drained(e), addressed, asking)
  {
    if e.peer.owedAck.Some? {
      OwedFrameParses(e.peer.owedAck.value);
      assert AcksIn(OwedFrame(e.peer.owedAck.value)) == [e.peer.owedAck.value];
    }
    MoreAcks(e.air, Drain(e.peer).1, true, addressed, asking);
  }

  lemma {:induction false} ExpiryAsked(p: Peer, order: seq<u16>, n: nat, addressed: set<u16>, asking: set<u16>)
    requires OwesOk(p, addressed, asking) && n <= |order|
    ensures forall f, i :: f in ExpiryAcksPrefix(p, order, n) && 0 <= i < |AcksIn(f)| ==> AcksIn(f)[i].seqno in addressed * asking
  {
    if n > 0 {
      ExpiryAsked(p, order, n - 1, addressed, asking);
      var s := order[n - 1];
      if s in p.reasm && p.reasm[s].wantAck {
        var ack := OwedAck(s, Some(Bitmap(p.reasm[s].parts)));
        OwedFrameParses(ack);
        assert AcksIn(AckWithBitmap(s, Bitmap(p.reasm[s].parts))) == [ack];
      }
    }
  }

  lemma ResentAsked(e: Endpoint, attempts: nat, next: Option<Instant>, addressed: set<u16>, asking: set<u16>)
    requires HeldOk(e) && AskedOk(e, addressed, asking) && e.peer.pending.Some?
    ensures AskedOk(Resent(e, attempts, next), addressed, asking)
  {
    var p := e.peer.pending.value;
    HeldCarryNone(e, p.frames, p.acked, |p.frames|);
    MoreAcks(e.air, Holes(p.frames, p.acked), true, addressed, asking);
  }

  lemma GivenUpAsked(e: Endpoint, addressed: set<u16>, asking: set<u16>)
    requires HeldOk(e) && AskedOk(e, addressed, asking)
    ensures AskedOk(GivenUp(e), addressed, asking)
  {
    if e.peer.queue != [] {
      HeldCarryNone(e, e.peer.queue[0], [], 0);
    }
    MoreAcks(e.air, GiveUp(e.peer).1, true, addressed, asking);
  }

  lemma TickAsked(e: Endpoint, now: Instant, retry: bool, order: seq<u16>, addressed: set<u16>, asking: set<u16>)
    requires HeldOk(e) && AskedOk(e, addressed, asking)
    ensures AskedOk(TwoParty.Ticked(e, now, retry, order), addressed, asking)
  {
    ExpiryAsked(e.peer, order, |order|, addressed, asking);
    MoreAcks(e.air, ExpiryAcks(e.peer, order), true, addressed, asking);
    var e1 := ExpiredAt(e, now, order);
    if Since(now, e1.peer.lastHeard) <= e.cfg.peerIdleTimeout && retry && RetryDue(e1.peer, now) {
      if e1.peer.pending.value.attempts < e.cfg.maxRetries {
        var attempts := e1.peer.pending.value.attempts + 1;
        ResentAsked(e1, attempts, Some(now + Backoff(e1.cfg, attempts)), addressed, asking);
      } else {
        GivenUpAsked(e1, addressed, asking);
      }
    }
  }

  lemma SendAsked(e: Endpoint, kind: Kind, payload: seq<byte>, reliable: bool, now: Instant, addressed: set<u16>, asking: set<u16>)
    requires AskedOk(e, addressed, asking) && kind != Ack
    ensures AskedOk(Sent(e, kind, payload, reliable, now), addressed, asking)
  {
    var peer := e.peer.(lastHeard := now);
    MoreAcks(e.air, Enqueue(e.cfg, peer, e.nextSeq, kind, payload, reliable).1.frames, true, addressed, asking);
  }

  lemma BroadcastAsked(e: Endpoint, kind: Kind, payload: seq<byte>, flags: byte, addressed: set<u16>, asking: set<u16>)
    requires AskedOk(e, addressed, asking) && kind != Ack
    ensures AskedOk(Broadcasted(e, kind, payload, flags), addressed, asking)
  {
    var chunks := ChunkPayload(payload, e.cfg.MaxPayload(), false);
    if |chunks| <= 255 {
      MoreAcks(e.air, Fragments(kind, e.nextSeq, chunks, flags), false, addressed, asking);
    }
  }

  lemma DoesAsked(e: Endpoint, o: Endpoint, ev: Event, addressed: set<u16>, asking: set<u16>)
    requires Inv(e, o) && Enabled(e, o, ev) && AskedOk(e, addressed, asking)
    requires ev.Hear? && ev.packet.addressed ==> ev.packet.frame.seqno in addressed
    requires ev.Hear? && ev.packet.frame.WantsAck() ==> ev.packet.frame.seqno in asking
    ensures AskedOk(Does(e, ev), addressed, asking)
  {
    match ev
    case Send(kind, payload, reliable, now) => SendAsked(e, kind, payload, reliable, now, addressed, asking);
    case Broadcast(kind, payload, flags) => BroadcastAsked(e, kind, payload, flags, addressed, asking);
    case Hear(packet, now, victim) => HearAsked(e, packet, now, victim, addressed, asking);
    case DrainAcks => DrainAsked(e, addressed, asking);
    case Tick(now, retry, order) => TickAsked(e, now, retry, order, addressed, asking);
    case _ =>
  }

  lemma AskedMore(e: Endpoint, a: set<u16>, b: set<u16>, a': set<u16>, b': set<u16>)
    requires AskedOk(e, a, b) && a <= a' && b <= b'
    ensures AskedOk(e, a', b')
  {
  }

  function Side(w: World, left: bool): Endpoint { if left then w.left else w.right }

  lemma SideAsked(w: World, acts: seq<Act>, left: bool, n: nat)
    requires 0 < n <= |acts| && Inv(Side(w, left), Side(w, !left)) && Possible(w, acts[n - 1])
    requires AskedOk(Side(w, left), Addressed(acts, left, n - 1), Asking(acts, left, n - 1))
    ensures AskedOk(Side(Next(w, acts[n - 1]), left), Addressed(acts, left, n), Asking(acts, left, n))
  {
    var e := Side(w, left);
    AskedMore(e, Addressed(acts, left, n - 1), Asking(acts, left, n - 1), Addressed(acts, left, n), Asking(acts, left, n));
    if acts[n - 1].left == left {
      DoesAsked(e, Side(w, !left), acts[n - 1].event, Addressed(acts, left, n), Asking(acts, left, n));
    }
  }

  lemma {:induction false} RunAsked(a: SessionConfig, b: SessionConfig, worlds: seq<World>, acts: seq<Act>, n: nat, left: bool)
    requires IsRun(a, b, worlds, acts) && n < |worlds|
    ensures AskedOk(Side(worlds[n], left), Addressed(acts, left, n), Asking(acts, left, n))
  {
    if n == 0 {
      var t :| worlds[0] == World(Fresh(a, t), Fresh(b, t));
    } else {
      RunAsked(a, b, worlds, acts, n - 1, left);
      RunKeeps(a, b, worlds, acts, n - 1);
      SideAsked(worlds[n - 1], acts, left, n);
    }
  }

  /** Over any run, a message is acknowledged, in whole or in part, only if a frame of it was
      addressed to the station and a frame of it asked: a broadcast makes nobody key up. */
  lemma AcknowledgedWasAsked(a: SessionConfig, b: SessionConfig, worlds: seq<World>, acts: seq<Act>, n: nat, p: Packet, i: nat)
    requires IsRun(a, b, worlds, acts) && n < |worlds| && p in worlds[n].right.air && i < |AcksIn(p.frame)|
    ensures AcksIn(p.frame)[i].seqno in Addressed(acts, false, n)
    ensures AcksIn(p.frame)[i].seqno in Asking(acts, false, n)
  {
    RunAsked(a, b, worlds, acts, n, false);
  }

  // ---- Bounded tables ----

  predicate Bounded(cfg: SessionConfig, p: Peer) {
    |p.queue| <= cfg.maxQueue && |p.reasm| <= Max(1, cfg.maxReasm)
  }

  lemma {:induction false} AckedAllBounded(e: Endpoint, acks: seq<OwedAck>)
    requires Bounded(e.cfg, e.peer)
    ensures Bounded(e.cfg, AckedAll(e, acks).peer) && AckedAll(e, acks).cfg == e.cfg
    decreases |acks|
  {
    if acks != [] {
      AckedAllBounded(Acked(e, acks[0]), acks[1..]);
    }
  }

  lemma FewerEntries(before: map<u16, Reassembly>, after: map<u16, Reassembly>)
    requires after.Keys <= before.Keys
    ensures |after| <= |before|
  {
    SmallerSet(after.Keys, before.Keys);
    assert |after| == |after.Keys| && |before| == |before.Keys|;
  }

  lemma OneMoreEntry(room: map<u16, Reassembly>, s: u16, r: Reassembly)
    ensures |room[s := r]| == if s in room then |room| else |room| + 1
  {
    assert room[s := r].Keys == room.Keys + {s};
    assert |room[s := r]| == |room[s := r].Keys| && |room| == |room.Keys|;
  }

  lemma AcceptBounded(cfg: SessionConfig, p: Peer, f: AircFrame, now: Instant, addressed: bool, victim: u16)
    requires Bounded(cfg, p) && f.FragmentOk() && (NeedsRoom(cfg, p, f) ==> victim in p.reasm)
    ensures Bounded(cfg, Accept(cfg, p, f, now, addressed, victim).0)
  {
    var room := MakeRoom(cfg, p, f, victim);
    assert room.Keys == if NeedsRoom(cfg, p, f) then p.reasm.Keys - {victim} else p.reasm.Keys;
    assert |room| == |room.Keys| && |p.reasm| == |p.reasm.Keys|;
    if f.seqno !in p.seen && f.fragTotal != 1 && |f.payload| <= cfg.MaxPayload() {
      var wantAck := addressed && f.WantsAck();
      OneMoreEntry(room, f.seqno, AddFragment(EntryFor(room, f, now, wantAck), f, wantAck));
      FewerEntries(room, room - {f.seqno});
    }
  }

  lemma HearBounded(e: Endpoint, packet: Packet, now: Instant, victim: u16)
    requires Bounded(e.cfg, e.peer) && packet.frame.FragmentOk() && EvictsOldest(e, packet.frame, now, victim)
    ensures Bounded(e.cfg, Heard(e, packet, now, victim).peer) && Heard(e, packet, now, victim).cfg == e.cfg
  {
    var f := packet.frame;
    var e0 := ResetFor(e.(peer := e.peer.(lastHeard := now)), f);
    assert |e0.peer.reasm| <= |e.peer.reasm|;
    AckedAllBounded(e0, AcksIn(f));
    var e1 := Opened(e, f, now);
    if f.kind != Ack {
      AcceptBounded(e1.cfg, e1.peer, f, now, packet.addressed, victim);
      AcceptedIsAccept(e1, f, now, packet.addressed, victim);
    }
  }

  lemma DoesBounded(e: Endpoint, o: Endpoint, ev: Event)
    requires Bounded(e.cfg, e.peer) && Enabled(e, o, ev)
    ensures Bounded(e.cfg, Does(e, ev).peer) && Does(e, ev).cfg == e.cfg
  {
    if ev.Hear? {
      HearBounded(e, ev.packet, ev.now, ev.victim);
    } else if ev.Tick? {
      FewerEntries(e.peer.reasm, e.peer.reasm - Expired(e.cfg, e.peer, ev.now));
    }
  }

  /** Over any run: at most `max_queue` messages wait behind the one in flight, and at most
      `max_reasm` incomplete messages are kept (one, if that is zero). */
  lemma {:induction false} TablesBounded(a: SessionConfig, b: SessionConfig, worlds: seq<World>, acts: seq<Act>, n: nat)
    requires IsRun(a, b, worlds, acts) && n < |worlds|
    ensures worlds[n].left.cfg == a && |worlds[n].left.peer.queue| <= a.maxQueue && |worlds[n].left.peer.reasm| <= Max(1, a.maxReasm)
    ensures worlds[n].right.cfg == b && |worlds[n].right.peer.queue| <= b.maxQueue && |worlds[n].right.peer.reasm| <= Max(1, b.maxReasm)
  {
    if n == 0 {
      var t :| worlds[0] == World(Fresh(a, t), Fresh(b, t));
    } else {
      TablesBounded(a, b, worlds, acts, n - 1);
      var w, act := worlds[n - 1], acts[n - 1];
      assert Possible(w, act);
      if act.left {
        DoesBounded(w.left, w.right, act.event);
      } else {
        DoesBounded(w.right, w.left, act.event);
      }
    }
  }

  // ---- Nothing is given up or thrown away lightly ----

  lemma {:induction false} AckedAllKeepsBooks(e: Endpoint, acks: seq<OwedAck>)
    ensures AckedAll(e, acks).abandoned == e.abandoned && AckedAll(e, acks).discarded == e.discarded
    ensures AckedAll(e, acks).peer.reasm == e.peer.reasm
    decreases |acks|
  {
    if acks != [] {
      AckedAllKeepsBooks(Acked(e, acks[0]), acks[1..]);
    }
  }

  lemma HearKeepsBooks(e: Endpoint, packet: Packet, now: Instant, victim: u16)
    requires packet.frame.FragmentOk()
    ensures Heard(e, packet, now, victim).abandoned
         == if NewEpoch(e.peer, packet.frame) then e.abandoned + WaitingSet(e.peer.(lastHeard := now)) else e.abandoned
  {
    AckedAllKeepsBooks(ResetFor(e.(peer := e.peer.(lastHeard := now)), packet.frame), AcksIn(packet.frame));
  }

  lemma WaitingSame(p: Peer, p': Peer)
    requires PeerOk(p) && PeerOk(p') && p'.pending == p.pending && p'.queue == p.queue
    ensures WaitingSet(p') == WaitingSet(p)
  {
    assert Waiting(p') == Waiting(p);
  }

  /** What is given up at a step was in flight or waiting, and the step is the timer, a new epoch of the
      other station, or the session being forgotten. */
  lemma GivenUpWasWaiting(e: Endpoint, o: Endpoint, ev: Event, s: u16)
    requires PeerOk(e.peer) && Enabled(e, o, ev) && s in Does(e, ev).abandoned && s !in e.abandoned
    ensures s in WaitingSet(e.peer)
    ensures ev.Tick? || ev.Forget? || (ev.Hear? && NewEpoch(e.peer, ev.packet.frame))
  {
    match ev
    case Hear(packet, now, victim) =>
      HearKeepsBooks(e, packet, now, victim);
      WaitingSame(e.peer, e.peer.(lastHeard := now));
    case Tick(now, retry, order) => TickGivesUpWaiting(e, now, retry, order, s);
    case _ =>
  }

  lemma TickGivesUpWaiting(e: Endpoint, now: Instant, retry: bool, order: seq<u16>, s: u16)
    requires PeerOk(e.peer) && s in TwoParty.Ticked(e, now, retry, order).abandoned && s !in e.abandoned
    ensures s in WaitingSet(e.peer)
  {
    var e1 := ExpiredAt(e, now, order);
    WaitingSame(e.peer, e1.peer);
    if e.peer.pending.Some? {
      var w := Waiting(e.peer);
      assert w[0] == e.peer.pending.value.frames[0].seqno && w[0] in ToSet(w);
    }
  }

  lemma HearThrowsAway(e: Endpoint, packet: Packet, now: Instant, victim: u16, s: u16)
    requires packet.frame.FragmentOk() && EvictsOldest(e, packet.frame, now, victim)
    requires s in Heard(e, packet, now, victim).discarded && s !in e.discarded
    ensures s in e.peer.reasm
  {
    var f := packet.frame;
    var e0 := ResetFor(e.(peer := e.peer.(lastHeard := now)), f);
    AckedAllKeepsBooks(e0, AcksIn(f));
    assert e0.peer.reasm == map[] || e0.peer.reasm == e.peer.reasm;
    var e1 := Opened(e, f, now);
    if f.kind != Ack && s !in e1.discarded && NeedsRoom(e1.cfg, e1.peer, f) {
      assert victim in Stamps(e1.peer.reasm);
    }
  }

  lemma TickThrowsAway(e: Endpoint, now: Instant, retry: bool, order: seq<u16>, s: u16)
    requires s in TwoParty.Ticked(e, now, retry, order).discarded && s !in e.discarded
    ensures s in e.peer.reasm
  {
    var e1 := ExpiredAt(e, now, order);
    assert s in e1.discarded ==> s in Expired(e.cfg, e.peer, now);
    assert e1.peer.reasm.Keys <= e.peer.reasm.Keys;
  }

  /** What is thrown away at a step was an incomplete message in hand. */
  lemma ThrownAwayWasHeld(e: Endpoint, o: Endpoint, ev: Event, s: u16)
    requires Enabled(e, o, ev) && s in Does(e, ev).discarded && s !in e.discarded
    ensures s in e.peer.reasm && (ev.Tick? || ev.Forget? || ev.Hear?)
  {
    match ev
    case Hear(packet, now, victim) => HearThrowsAway(e, packet, now, victim, s);
    case Tick(now, retry, order) => TickThrowsAway(e, now, retry, order, s);
    case _ =>
  }

  // ---- Frames fit ----

  /** Encoded, the frame is no longer than the station may send (nine octets if that is less). */
  predicate Fits(cfg: SessionConfig, f: AircFrame) {
    |AircFrames.Encode(f)| <= Max(cfg.paclen, 9)
  }

  predicate AllFit(cfg: SessionConfig, frames: seq<AircFrame>) {
    forall i :: 0 <= i < |frames| ==> Fits(cfg, frames[i])
  }

  predicate PeerFits(cfg: SessionConfig, p: Peer) {
    && (p.pending.Some? ==> AllFit(cfg, p.pending.value.frames))
    && (forall i :: 0 <= i < |p.queue| ==> AllFit(cfg, p.queue[i]))
  }

  ghost predicate FitOk(e: Endpoint) {
    (forall p :: p in e.air && p.frame.kind != Ack ==> Fits(e.cfg, p.frame)) && PeerFits(e.cfg, e.peer)
  }

  /** Frames that fit go out, and what is held stays what it was or is taken from the queue. */
  lemma MoreFit(e: Endpoint, e': Endpoint, frames: seq<AircFrame>, to: bool)
    requires FitOk(e) && e'.cfg == e.cfg && e'.air == e.air + Packets(frames, to)
    requires forall f :: f in frames && f.kind != Ack ==> Fits(e.cfg, f)
    requires e'.peer.queue == e.peer.queue || (e.peer.queue != [] && e'.peer.queue == e.peer.queue[1..]) || e'.peer.queue == []
    requires e'.peer.pending.Some? ==>
               || (e.peer.pending.Some? && e'.peer.pending.value.frames == e.peer.pending.value.frames)
               || (e.peer.queue != [] && e'.peer.pending.value.frames == e.peer.queue[0])
    ensures FitOk(e')
  {
  }

  lemma {:induction false} HolesFit(cfg: SessionConfig, frames: seq<AircFrame>, acked: seq<bool>, n: nat)
    requires AllFit(cfg, frames) && n <= |frames|
    ensures forall f :: f in HolesPrefix(frames, acked, n) ==> Fits(cfg, f)
  {
    if n > 0 {
      HolesFit(cfg, frames, acked, n - 1);
    }
  }

  lemma AckedFit(e: Endpoint, ack: OwedAck)
    requires FitOk(e)
    ensures FitOk(Acked(e, ack)) && Acked(e, ack).cfg == e.cfg
  {
    var out := ApplyAck(e.peer, ack).1;
    if AckMatches(e.peer, ack.seqno) && !AckReleases(e.peer, ack) {
      var p := e.peer.pending.value;
      HolesFit(e.cfg, p.frames, MergeAcked(p.acked, ack.bitmap.value), |p.frames|);
    }
    MoreFit(e, Acked(e, ack), out, true);
  }

  lemma {:induction false} AckedAllFit(e: Endpoint, acks: seq<OwedAck>)
    requires FitOk(e)
    ensures FitOk(AckedAll(e, acks)) && AckedAll(e, acks).cfg == e.cfg
    decreases |acks|
  {
    if acks != [] {
      AckedFit(e, acks[0]);
      AckedAllFit(Acked(e, acks[0]), acks[1..]);
    }
  }

  lemma AcceptSendsNothing(cfg: SessionConfig, p: Peer, f: AircFrame, now: Instant, addressed: bool, victim: u16)
    requires f.FragmentOk()
    ensures var p' := Accept(cfg, p, f, now, addressed, victim).0; p'.pending == p.pending && p'.queue == p.queue
  {
  }

  lemma SameFit(e: Endpoint, e': Endpoint)
    requires FitOk(e) && e'.cfg == e.cfg && e'.air == e.air
    requires e'.peer.queue == e.peer.queue && e'.peer.pending == e.peer.pending
    ensures FitOk(e')
  {
  }

  lemma HearFit(e: Endpoint, packet: Packet, now: Instant, victim: u16)
    requires FitOk(e) && packet.frame.FragmentOk()
    ensures FitOk(Heard(e, packet, now, victim)) && Heard(e, packet, now, victim).cfg == e.cfg
  {
    var f := packet.frame;
    AckedAllFit(ResetFor(e.(peer := e.peer.(lastHeard := now)), f), AcksIn(f));
    var e1 := Opened(e, f, now);
    if f.kind != Ack {
      AcceptSendsNothing(e1.cfg, e1.peer, f, now, packet.addressed, victim);
      AcceptedIsAccept(e1, f, now, packet.addressed, victim);
      SameFit(e1, Accepted(e1, f, now, packet.addressed, victim));
    }
  }

  lemma TickFit(e: Endpoint, now: Instant, retry: bool, order: seq<u16>)
    requires FitOk(e)
    ensures FitOk(TwoParty.Ticked(e, now, retry, order)) && TwoParty.Ticked(e, now, retry, order).cfg == e.cfg
  {
    var e1 := ExpiredAt(e, now, order);
    SessionExact.BitmapsAreAcks(e.peer, order, |order|);
    MoreFit(e, e1, ExpiryAcks(e.peer, order), true);
    if Since(now, e1.peer.lastHeard) <= e.cfg.peerIdleTimeout && retry && RetryDue(e1.peer, now) {
      var p := e1.peer.pending.value;
      if p.attempts < e.cfg.maxRetries {
        HolesFit(e.cfg, p.frames, p.acked, |p.frames|);
        MoreFit(e1, Retried(e1, now), Holes(p.frames, p.acked), true);
      } else {
        MoreFit(e1, GivenUp(e1), GiveUp(e1.peer).1, true);
      }
    }
  }

  lemma FragmentsFit(cfg: SessionConfig, kind: Kind, s: u16, payload: seq<byte>, piggy: bool, flags: byte)
    requires |ChunkPayload(payload, cfg.MaxPayload(), piggy)| <= 255
    ensures var frames := Fragments(kind, s, ChunkPayload(payload, cfg.MaxPayload(), piggy), flags);
            && AllFit(cfg, frames)
            && (piggy && cfg.MaxPayload() > 2 ==> forall ack: u16 :: |frames| > 0 ==> Fits(cfg, frames[0].WithPiggyback(ack)))
  {
    ChunkPayloadJoins(payload, cfg.MaxPayload(), piggy);
    var chunks := ChunkPayload(payload, cfg.MaxPayload(), piggy);
    assert forall i :: 0 <= i < |chunks| ==> chunks[i] in chunks;
  }

  lemma EnqueueFit(cfg: SessionConfig, peer: Peer, s: u16, kind: Kind, payload: seq<byte>, reliable: bool)
    requires PeerFits(cfg, peer)
    ensures var (p, out) := Enqueue(cfg, peer, s, kind, payload, reliable); PeerFits(cfg, p) && AllFit(cfg, out.frames)
  {
    var piggy := PiggybackFor(cfg, peer, reliable);
    ChunkPayloadJoins(payload, cfg.MaxPayload(), piggy.Some?);
    if |ChunkPayload(payload, cfg.MaxPayload(), piggy.Some?)| <= 255 {
      FragmentsFit(cfg, kind, s, payload, piggy.Some?, if reliable then SetBit(0, ACK_REQ) else 0);
    }
  }

  lemma SendFit(e: Endpoint, kind: Kind, payload: seq<byte>, reliable: bool, now: Instant)
    requires FitOk(e)
    ensures FitOk(Sent(e, kind, payload, reliable, now)) && Sent(e, kind, payload, reliable, now).cfg == e.cfg
  {
    EnqueueFit(e.cfg, e.peer.(lastHeard := now), e.nextSeq, kind, payload, reliable);
  }

  lemma BroadcastFit(e: Endpoint, kind: Kind, payload: seq<byte>, flags: byte)
    requires FitOk(e)
    ensures FitOk(Broadcasted(e, kind, payload, flags)) && Broadcasted(e, kind, payload, flags).cfg == e.cfg
  {
    var chunks := ChunkPayload(payload, e.cfg.MaxPayload(), false);
    if |chunks| <= 255 {
      FragmentsFit(e.cfg, kind, e.nextSeq, payload, false, flags);
      MoreFit(e, Broadcasted(e, kind, payload, flags), Fragments(kind, e.nextSeq, chunks, flags), false);
    }
  }

  lemma DoesFit(e: Endpoint, o: Endpoint, ev: Event)
    requires FitOk(e) && Enabled(e, o, ev)
    ensures FitOk(Does(e, ev)) && Does(e, ev).cfg == e.cfg
  {
    match ev
    case Send(kind, payload, reliable, now) => SendFit(e, kind, payload, reliable, now);
    case Broadcast(kind, payload, flags) => BroadcastFit(e, kind, payload, flags);
    case Hear(packet, now, victim) => HearFit(e, packet, now, victim);
    case Tick(now, retry, order) => TickFit(e, now, retry, order);
    case DrainAcks => MoreFit(e, Drained(e), Drain(e.peer).1, true);
    case _ =>
  }

  lemma {:induction false} RunFits(a: SessionConfig, b: SessionConfig, worlds: seq<World>, acts: seq<Act>, n: nat)
    requires IsRun(a, b, worlds, acts) && n < |worlds|
    ensures worlds[n].left.cfg == a && FitOk(worlds[n].left)
    ensures worlds[n].right.cfg == b && FitOk(worlds[n].right)
  {
    if n == 0 {
      var t :| worlds[0] == World(Fresh(a, t), Fresh(b, t));
    } else {
      RunFits(a, b, worlds, acts, n - 1);
      var w, act := worlds[n - 1], acts[n - 1];
      assert Possible(w, act);
      if act.left {
        DoesFit(w.left, w.right, act.event);
      } else {
        DoesFit(w.right, w.left, act.event);
      }
    }
  }

  /** Over any run, whatever a station transmits but acknowledgements, repeated or with an
      acknowledgement riding on it, is no longer than its frames may be, header included. */
  lemma EverythingFits(a: SessionConfig, b: SessionConfig, worlds: seq<World>, acts: seq<Act>, n: nat, p: Packet)
    requires IsRun(a, b, worlds, acts) && n < |worlds| && p in worlds[n].left.air && p.frame.kind != Ack
    ensures |AircFrames.Encode(p.frame)| <= if a.paclen > 9 then a.paclen else 9
  {
    RunFits(a, b, worlds, acts, n);
  }

  /** And it is not cut shorter than that: every fragment but the last fills its frame. */
  lemma FragmentsFill(cfg: SessionConfig, kind: Kind, s: u16, payload: seq<byte>, flags: byte, i: nat)
    requires cfg.paclen > 8 && |ChunkPayload(payload, cfg.MaxPayload(), false)| <= 255
    requires i + 1 < |ChunkPayload(payload, cfg.MaxPayload(), false)|
    ensures |AircFrames.Encode(Fragments(kind, s, ChunkPayload(payload, cfg.MaxPayload(), false), flags)[i])| == cfg.paclen
  {
    SessionExact.CutInFew(payload, cfg.MaxPayload(), false);
  }

  // ---- What can be accepted ----

  /** Would a reliable send be accepted rather than dropped? */
  predicate CanAccept(cfg: SessionConfig, peer: Peer) {
    peer.pending.Some? ==> |peer.queue| < cfg.maxQueue
  }

  /** `can_accept` answers rightly for every message that fits 255 fragments. */
  lemma CanAcceptExactly(e: Endpoint, kind: Kind, payload: seq<byte>, now: Instant)
    requires |ChunkPayload(payload, e.cfg.MaxPayload(), false)| <= 255 && |ChunkPayload(payload, e.cfg.MaxPayload(), true)| <= 255
    ensures CanAccept(e.cfg, e.peer) <==> Does(e, Send(kind, payload, true, now)).order == e.order + [e.nextSeq]
  {
  }
}
