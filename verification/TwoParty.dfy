/** Two stations and the air between them. Everything a station ever transmitted stays on the
    air for good and may be heard any number of times, in any order, or never: loss,
    duplication and reordering. */
module TwoParty {
  import opened Common
  import opened AircFrames
  import opened Session

  datatype Packet = Packet(frame: AircFrame, addressed: bool)

  /** A message as it was enqueued, with the fragments it was cut into. */
  datatype Message = Message(kind: Kind, payload: seq<byte>, chunks: seq<seq<byte>>)

  /** One station's entry for the other, and the history of what it did.
      An absent entry is the fresh one the next frame would create. */
  datatype Endpoint = Endpoint(
    cfg: SessionConfig,
    peer: Peer,
    nextSeq: u16,
    allocs: nat,               // sequence numbers handed out so far, to anybody
    air: set<Packet>,          // everything transmitted so far
    log: map<u16, Message>,    // what each number was spent on
    order: seq<u16>,           // reliable messages accepted, in enqueue order
    released: set<u16>,        // ... released by an acknowledgement
    abandoned: set<u16>,       // ... given up, or dropped with the session
    deliveries: seq<AircFrame>,
    delivered: set<u16>,
    stored: set<(u16, nat)>,   // fragments ever put into a reassembly entry
    discarded: set<u16>)       // reassembly entries expired, evicted or dropped with the session

  function Fresh(cfg: SessionConfig, now: Instant): Endpoint {
    Endpoint(cfg, NewPeer(now), 1, 0, {}, map[], [], {}, {}, [], {}, {}, {})
  }

  function Packets(frames: seq<AircFrame>, addressed: bool): set<Packet> {
    set f | f in frames :: Packet(f, addressed)
  }

  function QueueSeqs(queue: seq<seq<AircFrame>>): seq<u16>
    requires forall i :: 0 <= i < |queue| ==> |queue[i]| > 0
  {
    seq(|queue|, i requires 0 <= i < |queue| => queue[i][0].seqno)
  }

  /** Reliable messages not yet released: the one in flight, then the queue. */
  function Waiting(p: Peer): seq<u16>
    requires PeerOk(p)
  {
    (if p.pending.Some? then [p.pending.value.frames[0].seqno] else []) + QueueSeqs(p.queue)
  }

  function ToSet(s: seq<u16>): set<u16> {
    set i | 0 <= i < |s| :: s[i]
  }

  function WaitingSet(p: Peer): set<u16> {
    if PeerOk(p) then ToSet(Waiting(p)) else {}
  }

  // ---- What one operation does to an endpoint ----

  function Deliver(e: Endpoint, d: Option<AircFrame>): Endpoint {
    if d.None? then e else e.(deliveries := e.deliveries + [d.value], delivered := e.delivered + {d.value.seqno})
  }

  /** The session is dropped: by a HELLO from a new epoch, eviction, idleness or giving up. */
  function DropSession(e: Endpoint, blank: Peer): Endpoint {
    e.(peer := blank, abandoned := e.abandoned + WaitingSet(e.peer), discarded := e.discarded + e.peer.reasm.Keys)
  }

  function ResetFor(e: Endpoint, frame: AircFrame): Endpoint {
    if NewEpoch(e.peer, frame) then DropSession(e, HelloReset(e.peer, frame)) else e
  }

  function Acked(e: Endpoint, ack: OwedAck): Endpoint {
    var (p, out) := ApplyAck(e.peer, ack);
    e.(peer := p, air := e.air + Packets(out, true),
       released := if AckReleases(e.peer, ack) then e.released + {ack.seqno} else e.released)
  }

  function AckedAll(e: Endpoint, acks: seq<OwedAck>): Endpoint
    decreases |acks|
  {
    if acks == [] then e else AckedAll(Acked(e, acks[0]), acks[1..])
  }

  predicate StoresFragment(e: Endpoint, frame: AircFrame) {
    frame.seqno !in e.peer.seen && frame.fragTotal != 1 && |frame.payload| <= e.cfg.MaxPayload()
  }

  function Accepted(e: Endpoint, frame: AircFrame, now: Instant, addressed: bool, victim: u16): Endpoint
    requires frame.FragmentOk()
  {
    var (p, d, _) := Accept(e.cfg, e.peer, frame, now, addressed, victim);
    var e1 := Deliver(e.(peer := p), d);
    if !StoresFragment(e, frame) then e1
    else
      var room := MakeRoom(e.cfg, e.peer, frame, victim);
      e1.(stored := e.stored + {(frame.seqno, frame.fragIndex as nat)},
          discarded := e.discarded
                       + (if NeedsRoom(e.cfg, e.peer, frame) then {victim} else {})
                       + (if frame.seqno in room && |room[frame.seqno].parts| != frame.fragTotal then {frame.seqno} else {}))
  }

  /** The entry is touched, reset by a new epoch, and the acknowledgements are applied. */
  function Opened(e: Endpoint, frame: AircFrame, now: Instant): Endpoint {
    AckedAll(ResetFor(e.(peer := e.peer.(lastHeard := now)), frame), AcksIn(frame))
  }

  function Heard(e: Endpoint, packet: Packet, now: Instant, victim: u16): Endpoint
    requires packet.frame.FragmentOk()
  {
    var e1 := Opened(e, packet.frame, now);
    if packet.frame.kind == Ack then e1 else Accepted(e1, packet.frame, now, packet.addressed, victim)
  }

  function Spend(e: Endpoint): Endpoint {
    e.(nextSeq := SeqAfter(e.nextSeq), allocs := e.allocs + 1)
  }

  function Sent(e: Endpoint, kind: Kind, payload: seq<byte>, reliable: bool, now: Instant): Endpoint {
    var peer := e.peer.(lastHeard := now);
    var s := e.nextSeq;
    var (p, out) := Enqueue(e.cfg, peer, s, kind, payload, reliable);
    var chunks := ChunkPayload(payload, e.cfg.MaxPayload(), PiggybackFor(e.cfg, peer, reliable).Some?);
    Spend(e).(peer := p, air := e.air + Packets(out.frames, true),
              log := if out.accepted then e.log[s := Message(kind, payload, chunks)] else e.log,
              order := if out.accepted && reliable then e.order + [s] else e.order)
  }

  /** An unacknowledged message to everybody, out of the same number space. */
  function Broadcasted(e: Endpoint, kind: Kind, payload: seq<byte>, flags: byte): Endpoint {
    var s := e.nextSeq;
    var chunks := ChunkPayload(payload, e.cfg.MaxPayload(), false);
    if |chunks| > 255 then Spend(e)
    else
      Spend(e).(air := e.air + Packets(Fragments(kind, s, chunks, flags), false),
                log := e.log[s := Message(kind, payload, chunks)])
  }

  function Drained(e: Endpoint): Endpoint {
    var (p, out) := Drain(e.peer);
    e.(peer := p, air := e.air + Packets(out, true))
  }

  function ExpiredAt(e: Endpoint, now: Instant, order: seq<u16>): Endpoint {
    var gone := Expired(e.cfg, e.peer, now);
    e.(peer := e.peer.(reasm := e.peer.reasm - gone), air := e.air + Packets(ExpiryAcks(e.peer, order), true),
       discarded := e.discarded + gone)
  }

  /** The holes sent again, and the timer set. */
  function Resent(e: Endpoint, attempts: nat, next: Option<Instant>): Endpoint
    requires e.peer.pending.Some?
  {
    var p := e.peer.pending.value;
    e.(peer := e.peer.(pending := Some(p.(attempts := attempts, nextRetry := next))),
       air := e.air + Packets(Holes(p.frames, p.acked), true))
  }

  function Retried(e: Endpoint, now: Instant): Endpoint {
    if e.peer.pending.None? then e
    else Resent(e, e.peer.pending.value.attempts + 1, Some(now + Backoff(e.cfg, e.peer.pending.value.attempts + 1)))
  }

  function GivenUp(e: Endpoint): Endpoint {
    var (p, out, _) := GiveUp(e.peer);
    e.(peer := p, air := e.air + Packets(out, true),
       abandoned := e.abandoned + (if e.peer.pending.Some? && |e.peer.pending.value.frames| > 0
                                   then {e.peer.pending.value.frames[0].seqno} else {}))
  }

  function Ticked(e: Endpoint, now: Instant, retry: bool, order: seq<u16>): Endpoint {
    var e1 := ExpiredAt(e, now, order);
    if Since(now, e1.peer.lastHeard) > e.cfg.peerIdleTimeout then DropSession(e1, NewPeer(now))
    else if !retry || !RetryDue(e1.peer, now) then e1
    else if e1.peer.pending.value.attempts < e.cfg.maxRetries then Retried(e1, now)
    else
      var e2 := GivenUp(e1);
      if e1.peer.queue == [] then DropSession(e2, NewPeer(now)) else e2
  }

  function KeyedUp(e: Endpoint, seqno: u16, now: Instant): Endpoint {
    e.(peer := Keyed(e.cfg, e.peer, seqno, now))
  }

  datatype Event =
    | Send(kind: Kind, payload: seq<byte>, reliable: bool, now: Instant)
    | Broadcast(kind: Kind, payload: seq<byte>, flags: byte)
    | SpendNumber
    | Hear(packet: Packet, now: Instant, victim: u16)
    | DrainAcks
    | Tick(now: Instant, retry: bool, order: seq<u16>)
    | KeyDown(seqno: u16, now: Instant)
    | Forget(now: Instant)

  /** If a full reassembly table has to make room for the frame, an oldest entry goes. */
  ghost predicate EvictsOldest(e: Endpoint, frame: AircFrame, now: Instant, victim: u16) {
    var e1 := Opened(e, frame, now);
    NeedsRoom(e1.cfg, e1.peer, frame) ==> IsOldest(Stamps(e1.peer.reasm), victim)
  }

  /** A frame is heard only if the other station transmitted it; the sixteen-bit number space
      is not reused; acknowledgements are sent by the session layer only. The entry evicted is an
      oldest one, and the entries that expire are visited in some order. Nothing else is asked. */
  ghost predicate Enabled(e: Endpoint, other: Endpoint, ev: Event) {
    match ev
    case Send(kind, _, _, _) => e.allocs < 65535 && kind != Ack
    case Broadcast(kind, _, flags) => e.allocs < 65535 && kind != Ack && !HasBit(flags, PIGGYACK)
    case SpendNumber => e.allocs < 65535
    case Hear(packet, now, victim) =>
      packet in other.air && packet.frame.FragmentOk() && EvictsOldest(e, packet.frame, now, victim)
    case Tick(now, _, order) => Enumerates(order, Expired(e.cfg, e.peer, now))
    case _ => true
  }

  function Does(e: Endpoint, ev: Event): Endpoint
    requires ev.Hear? ==> ev.packet.frame.FragmentOk()
  {
    match ev
    case Send(kind, payload, reliable, now) => Sent(e, kind, payload, reliable, now)
    case Broadcast(kind, payload, flags) => Broadcasted(e, kind, payload, flags)
    case SpendNumber => Spend(e)
    case Hear(packet, now, victim) => Heard(e, packet, now, victim)
    case DrainAcks => Drained(e)
    case Tick(now, retry, order) => Ticked(e, now, retry, order)
    case KeyDown(seqno, now) => KeyedUp(e, seqno, now)
    case Forget(now) => DropSession(e, NewPeer(now))
  }

  // ---- The endpoint moves exactly as the session layer does ----

  lemma {:induction false} AckedAllIsApplyAcks(e: Endpoint, acks: seq<OwedAck>)
    ensures AckedAll(e, acks).peer == ApplyAcks(e.peer, acks).0
    ensures AckedAll(e, acks).air == e.air + Packets(ApplyAcks(e.peer, acks).1, true)
    ensures AckedAll(e, acks).cfg == e.cfg && AckedAll(e, acks).deliveries == e.deliveries
    decreases |acks|
  {
    if acks != [] {
      AckedAllIsApplyAcks(Acked(e, acks[0]), acks[1..]);
    }
  }

  lemma AcceptedIsAccept(e: Endpoint, frame: AircFrame, now: Instant, addressed: bool, victim: u16)
    requires frame.FragmentOk()
    ensures var (p, d, _) := Accept(e.cfg, e.peer, frame, now, addressed, victim);
            var e' := Accepted(e, frame, now, addressed, victim);
            e'.peer == p && e'.air == e.air && e'.deliveries == e.deliveries + (if d.Some? then [d.value] else [])
  {
  }

  lemma HeardIsReceive(e: Endpoint, packet: Packet, now: Instant, victim: u16)
    requires packet.frame.FragmentOk()
    ensures var (p, out) := Receive(e.cfg, e.peer.(lastHeard := now), packet.frame, now, packet.addressed, victim);
            var e' := Heard(e, packet, now, victim);
            && e'.peer == p
            && e'.air == e.air + Packets(out.transmit, true)
            && e'.deliveries == e.deliveries + (if out.deliver.Some? then [out.deliver.value] else [])
  {
    var e0 := e.(peer := e.peer.(lastHeard := now));
    AckedAllIsApplyAcks(ResetFor(e0, packet.frame), AcksIn(packet.frame));
    var e1 := AckedAll(ResetFor(e0, packet.frame), AcksIn(packet.frame));
    assert ResetFor(e0, packet.frame).peer == HelloReset(e0.peer, packet.frame);
    if packet.frame.kind != Ack {
      AcceptedIsAccept(e1, packet.frame, now, packet.addressed, victim);
    }
  }

  lemma TickedIsTick(e: Endpoint, now: Instant, retry: bool, order: seq<u16>)
    ensures var tick := Session.Tick(e.cfg, e.peer, now, retry, order);
            var e' := Ticked(e, now, retry, order);
            && e'.air == e.air + Packets(tick.transmit, true)
            && e'.peer == if tick.lost then NewPeer(now) else tick.peer
  {
  }
}
