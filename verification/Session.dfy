/** What one AIRC session operation does to one peer entry, as functions on values.
    The class `SessionTable.Sessions` computes them in place; the run theorems are about them. */
module Session {
  import opened Common
  import opened AircFrames

  datatype SessionConfig = SessionConfig(
    paclen: nat,
    ackTimeout: nat,
    maxRetries: nat,
    reassemblyTimeout: nat,
    peerIdleTimeout: nat,
    maxQueue: nat,
    dedupWindow: nat,
    maxPeers: nat,
    maxReasm: nat)
  {
    function MaxPayload(): nat {
      if paclen > HEADER_LEN then paclen - HEADER_LEN else 1
    }
  }

  datatype Pending = Pending(
    frames: seq<AircFrame>,
    acked: seq<bool>,
    attempts: nat,
    nextRetry: Option<Instant>)

  datatype Reassembly = Reassembly(
    kind: Kind,
    flags: byte,
    parts: seq<Option<seq<byte>>>,
    started: Instant,
    wantAck: bool)

  /** `bitmap == None` means the whole message arrived. */
  datatype OwedAck = OwedAck(seqno: u16, bitmap: Option<seq<byte>>)

  datatype Peer = Peer(
    lastHeard: Instant,
    dropped: nat,
    pending: Option<Pending>,
    owedAck: Option<OwedAck>,
    queue: seq<seq<AircFrame>>,
    seen: seq<u16>,
    reasm: map<u16, Reassembly>,
    epoch: u16)

  function NewPeer(now: Instant): Peer {
    Peer(now, 0, None, None, [], [], map[], 0)
  }

  /** `next_seq`: the sixteen-bit counter skips zero. */
  function SeqAfter(n: u16): u16 {
    if n == 65535 then 1 else n + 1
  }

  datatype RxOutcome = RxOutcome(deliver: Option<AircFrame>, transmit: seq<AircFrame>, duplicate: bool)

  datatype SendOutcome = SendOutcome(frames: seq<AircFrame>, accepted: bool)

  // ---- Invariant of a peer entry ----

  predicate SameMessage(frames: seq<AircFrame>) {
    |frames| >= 1 && forall i :: 0 <= i < |frames| ==> frames[i].seqno == frames[0].seqno
  }

  predicate AllTrue(bits: seq<bool>) {
    forall i :: 0 <= i < |bits| ==> bits[i]
  }

  predicate PendingOk(p: Pending) {
    SameMessage(p.frames) && |p.acked| == |p.frames| && !AllTrue(p.acked)
  }

  predicate AllParts(parts: seq<Option<seq<byte>>>) {
    forall i :: 0 <= i < |parts| ==> parts[i].Some?
  }

  /** An empty pending slot means an empty queue, a pending message still has an
      unacknowledged fragment, and a reassembly entry still has a hole. */
  predicate PeerOk(p: Peer) {
    && (p.pending.None? ==> p.queue == [])
    && (p.pending.Some? ==> PendingOk(p.pending.value))
    && (forall i :: 0 <= i < |p.queue| ==> SameMessage(p.queue[i]))
    && (forall s :: s in p.reasm ==> !AllParts(p.reasm[s].parts))
  }

  // ---- Bitmaps ----

  predicate BitOf(bits: seq<byte>, i: nat) {
    i / 8 < |bits| && HasBit(bits[i / 8], i % 8)
  }

  function BitmapPrefix(parts: seq<Option<seq<byte>>>, k: nat): (b: seq<byte>)
    requires k <= |parts|
    ensures |b| == Max(1, (|parts| + 7) / 8)
  {
    if k == 0 then seq(Max(1, (|parts| + 7) / 8), _ => 0)
    else
      var b := BitmapPrefix(parts, k - 1);
      if parts[k - 1].Some? then b[(k - 1) / 8 := SetBit(b[(k - 1) / 8], (k - 1) % 8)] else b
  }

  function Bitmap(parts: seq<Option<seq<byte>>>): seq<byte> {
    BitmapPrefix(parts, |parts|)
  }

  lemma {:induction false} NoBits(k: nat)
    ensures !HasBit(0, k)
  {
    if k > 0 {
      NoBits(k - 1);
    }
  }

  lemma {:induction false} BitmapPrefixBits(parts: seq<Option<seq<byte>>>, k: nat, i: nat)
    requires k <= |parts|
    ensures BitOf(BitmapPrefix(parts, k), i) <==> i < k && parts[i].Some?
  {
    if k == 0 {
      NoBits(i % 8);
    } else {
      BitmapPrefixBits(parts, k - 1, i);
      var b := BitmapPrefix(parts, k - 1);
      if parts[k - 1].Some? {
        if i / 8 == (k - 1) / 8 {
          PutBitReads(b[i / 8], (k - 1) % 8, true, i % 8);
        }
      }
    }
  }

  /** A bitmap reports exactly the fragments in hand. */
  lemma BitmapReports(parts: seq<Option<seq<byte>>>, i: nat)
    ensures BitOf(Bitmap(parts), i) <==> i < |parts| && parts[i].Some?
  {
    BitmapPrefixBits(parts, |parts|, i);
  }

  // ---- Fragmentation ----

  function Chunks(p: seq<byte>, max: nat): seq<seq<byte>>
    requires max >= 1
  {
    if |p| == 0 then [] else if |p| <= max then [p] else [p[..max]] + Chunks(p[max..], max)
  }

  function ChunkPayload(p: seq<byte>, max: nat, piggy: bool): seq<seq<byte>>
    requires max >= 1
  {
    var first := if piggy then Max(1, max - 2) else max;
    if |p| == 0 then [[]]
    else if |p| <= first then [p]
    else [p[..first]] + Chunks(p[first..], max)
  }

  lemma {:induction false} ChunksJoin(p: seq<byte>, max: nat)
    requires max >= 1
    ensures Concat(Chunks(p, max)) == p
    ensures forall c :: c in Chunks(p, max) ==> 1 <= |c| <= max
  {
    if |p| <= max {
      assert Concat([p]) == p + Concat([]);
    } else {
      ChunksJoin(p[max..], max);
      assert p == p[..max] + p[max..];
      assert ([p[..max]] + Chunks(p[max..], max))[1..] == Chunks(p[max..], max);
    }
  }

  /** Fragments rejoin to the payload, whether or not room was left for a piggyback; each
      fits the frame, the first one leaving two octets when it carries an acknowledgement. */
  lemma ChunkPayloadJoins(p: seq<byte>, max: nat, piggy: bool)
    requires max >= 1
    ensures Concat(ChunkPayload(p, max, piggy)) == p
    ensures |ChunkPayload(p, max, piggy)| >= 1
    ensures forall c :: c in ChunkPayload(p, max, piggy) ==> |c| <= max
    ensures piggy && max > 2 ==> |ChunkPayload(p, max, piggy)[0]| + 2 <= max
  {
    var first := if piggy then Max(1, max - 2) else max;
    if 0 < |p| && first < |p| {
      ChunksJoin(p[first..], max);
      assert p == p[..first] + p[first..];
      assert ([p[..first]] + Chunks(p[first..], max))[1..] == Chunks(p[first..], max);
    } else {
      assert Concat([p]) == p + Concat([]);
    }
  }

  function Fragments(kind: Kind, seqno: u16, chunks: seq<seq<byte>>, flags: byte): seq<AircFrame>
    requires |chunks| <= 255
  {
    seq(|chunks|, i requires 0 <= i < |chunks| =>
      AircFrame(kind, flags, seqno, i, |chunks|, chunks[i], None))
  }

  // ---- Acknowledgements ----

  function AckFor(seqno: u16): AircFrame {
    NewFrame(Ack, seqno, U16Bytes(seqno))
  }

  function AckWithBitmap(seqno: u16, bitmap: seq<byte>): AircFrame {
    NewFrame(Ack, seqno, U16Bytes(seqno) + bitmap)
  }

  function OwedFrame(o: OwedAck): AircFrame {
    if o.bitmap.None? then AckFor(o.seqno) else AckWithBitmap(o.seqno, o.bitmap.value)
  }

  function ParseAck(payload: seq<byte>): Option<OwedAck> {
    if |payload| < 2 then None
    else
      Some(OwedAck(U16Of(payload[0], payload[1]), if |payload| == 2 then None else Some(payload[2..])))
  }

  /** Writing an acknowledgement and reading it back agree (a bitmap is never empty). */
  lemma OwedFrameParses(o: OwedAck)
    requires o.bitmap.Some? ==> |o.bitmap.value| > 0
    ensures ParseAck(OwedFrame(o).payload) == Some(o)
  {
    if o.bitmap.Some? {
      assert (U16Bytes(o.seqno) + o.bitmap.value)[2..] == o.bitmap.value;
    }
  }

  function MergeAcked(acked: seq<bool>, bits: seq<byte>): (r: seq<bool>)
    ensures |r| == |acked|
  {
    seq(|acked|, i requires 0 <= i < |acked| => acked[i] || BitOf(bits, i))
  }

  /** How many of the first `n` fragments are not acknowledged. */
  function Unacked(acked: seq<bool>, n: nat): nat
    requires n <= |acked|
  {
    if n == 0 then 0 else Unacked(acked, n - 1) + (if acked[n - 1] then 0 else 1)
  }

  /** The frames not yet acknowledged, marked as retransmissions. */
  function Holes(frames: seq<AircFrame>, acked: seq<bool>): seq<AircFrame> {
    HolesPrefix(frames, acked, |frames|)
  }

  function HolesPrefix(frames: seq<AircFrame>, acked: seq<bool>, n: nat): seq<AircFrame>
    requires n <= |frames|
  {
    if n == 0 then []
    else HolesPrefix(frames, acked, n - 1)
         + (if n - 1 < |acked| && acked[n - 1] then [] else [frames[n - 1].WithFlag(RETRY)])
  }

  function StartPending(frames: seq<AircFrame>): Pending {
    Pending(frames, seq(|frames|, _ => false), 0, None)
  }

  /** Clear the pending slot and start the next queued message, if there is one. */
  function StartNext(peer: Peer): (Peer, seq<AircFrame>) {
    if peer.queue == [] then (peer.(pending := None), [])
    else (peer.(pending := Some(StartPending(peer.queue[0])), queue := peer.queue[1..]), peer.queue[0])
  }

  predicate AckMatches(peer: Peer, seqno: u16) {
    peer.pending.Some? && |peer.pending.value.frames| > 0 && peer.pending.value.frames[0].seqno == seqno
  }

  /** This acknowledgement completes the message in flight. */
  predicate AckReleases(peer: Peer, ack: OwedAck) {
    && AckMatches(peer, ack.seqno)
    && (ack.bitmap.Some? ==> AllTrue(MergeAcked(peer.pending.value.acked, ack.bitmap.value)))
  }

  function ApplyAck(peer: Peer, ack: OwedAck): (Peer, seq<AircFrame>) {
    if !AckMatches(peer, ack.seqno) then (peer, [])
    else if AckReleases(peer, ack) then StartNext(peer)
    else
      var pending := peer.pending.value;
      var acked := MergeAcked(pending.acked, ack.bitmap.value);
      if acked == pending.acked then (peer, [])
      else (peer.(pending := Some(Pending(pending.frames, acked, 0, None))), Holes(pending.frames, acked))
  }

  // ---- Receiving ----

  function UntilFS(p: seq<byte>): seq<byte> {
    if p == [] || p[0] == FS then [] else [p[0]] + UntilFS(p[1..])
  }

  function AfterFS(p: seq<byte>): Option<seq<byte>> {
    if p == [] then None else if p[0] == FS then Some(p[1..]) else AfterFS(p[1..])
  }

  predicate IsSpace(b: byte) { 0x09 <= b <= 0x0D || b == 0x20 }

  function TrimStart(p: seq<byte>): seq<byte> {
    if p != [] && IsSpace(p[0]) then TrimStart(p[1..]) else p
  }

  function TrimEnd(p: seq<byte>): seq<byte> {
    if p != [] && IsSpace(p[|p| - 1]) then TrimEnd(p[..|p| - 1]) else p
  }

  function HexDigit(b: byte): Option<nat> {
    if 0x30 <= b <= 0x39 then Some(b - 0x30)
    else if 0x41 <= b <= 0x46 then Some(b - 0x41 + 10)
    else if 0x61 <= b <= 0x66 then Some(b - 0x61 + 10)
    else None
  }

  /** `u16::from_str_radix(.., 16)` on the digits that follow an optional plus sign. */
  function ParseHex(p: seq<byte>, acc: nat): Option<u16> {
    if p == [] then (if acc < 65536 then Some(acc) else None)
    else match HexDigit(p[0])
      case None => None
      case Some(d) => if acc * 16 + d >= 65536 then None else ParseHex(p[1..], acc * 16 + d)
  }

  function HelloEpoch(frame: AircFrame): u16 {
    match AfterFS(frame.payload)
    case None => 0
    case Some(rest) =>
      var text := TrimEnd(TrimStart(UntilFS(rest)));
      var digits := if text != [] && text[0] == 0x2B then text[1..] else text;
      if digits == [] then 0
      else match ParseHex(digits, 0) case None => 0 case Some(n) => n
  }

  predicate NewEpoch(peer: Peer, frame: AircFrame) {
    frame.kind == Hello && HelloEpoch(frame) != peer.epoch
  }

  function HelloReset(peer: Peer, frame: AircFrame): Peer {
    if NewEpoch(peer, frame) then
      peer.(seen := [], reasm := map[], pending := None, owedAck := None, queue := [], epoch := HelloEpoch(frame))
    else peer
  }

  function RememberSeq(seen: seq<u16>, seqno: u16, window: nat): seq<u16> {
    var s := seen + [seqno];
    if |s| > window then s[|s| - window..] else s
  }

  /** The reassembly table is full and this is the first fragment of a new message. */
  predicate NeedsRoom(cfg: SessionConfig, peer: Peer, frame: AircFrame) {
    frame.seqno !in peer.reasm && |peer.reasm| >= cfg.maxReasm && |peer.reasm| > 0
  }

  function Stamps(reasm: map<u16, Reassembly>): map<u16, Instant> {
    map s | s in reasm :: reasm[s].started
  }

  function MakeRoom(cfg: SessionConfig, peer: Peer, frame: AircFrame, victim: u16): map<u16, Reassembly> {
    if NeedsRoom(cfg, peer, frame) then peer.reasm - {victim} else peer.reasm
  }

  function FreshEntry(frame: AircFrame, now: Instant, wantAck: bool): Reassembly {
    Reassembly(frame.kind, frame.flags, seq(frame.fragTotal, _ => None), now, wantAck)
  }

  /** The table's entry for this message, replaced when the fragment counts disagree. */
  function EntryFor(reasm: map<u16, Reassembly>, frame: AircFrame, now: Instant, wantAck: bool): (e: Reassembly)
    ensures |e.parts| == frame.fragTotal
  {
    if frame.seqno in reasm && |reasm[frame.seqno].parts| == frame.fragTotal then reasm[frame.seqno]
    else FreshEntry(frame, now, wantAck)
  }

  function AddFragment(e: Reassembly, frame: AircFrame, wantAck: bool): Reassembly
    requires |e.parts| == frame.fragTotal && frame.FragmentOk()
  {
    e.(wantAck := e.wantAck || wantAck,
       flags := if frame.WantsAck() then SetBit(e.flags, ACK_REQ) else e.flags,
       parts := e.parts[frame.fragIndex := Some(frame.payload)])
  }

  function Joined(parts: seq<Option<seq<byte>>>): seq<byte> {
    if parts == [] then []
    else (if parts[0].Some? then parts[0].value else []) + Joined(parts[1..])
  }

  /** The rejoined message; its flags are those collected on the entry. */
  function Delivered(e: Reassembly, seqno: u16): AircFrame {
    NewFrame(e.kind, seqno, Joined(e.parts)).(flags := e.flags)
  }

  function AcceptFragment(cfg: SessionConfig, peer: Peer, frame: AircFrame, now: Instant, addressed: bool, victim: u16)
    : (Peer, Option<AircFrame>)
    requires frame.FragmentOk()
  {
    if |frame.payload| > cfg.MaxPayload() then (peer, None)
    else
      var reasm := MakeRoom(cfg, peer, frame, victim);
      var wantAck := addressed && frame.WantsAck();
      var e := AddFragment(EntryFor(reasm, frame, now, wantAck), frame, wantAck);
      if !AllParts(e.parts) then
        (peer.(reasm := reasm[frame.seqno := e],
               owedAck := if wantAck && HasBit(frame.flags, RETRY) then Some(OwedAck(frame.seqno, Some(Bitmap(e.parts))))
                          else peer.owedAck), None)
      else
        (peer.(reasm := reasm - {frame.seqno},
               seen := RememberSeq(peer.seen, frame.seqno, cfg.dedupWindow),
               owedAck := if e.wantAck || (addressed && (frame.WantsAck() || HasBit(e.flags, ACK_REQ)))
                          then Some(OwedAck(frame.seqno, None)) else peer.owedAck),
         Some(Delivered(e, frame.seqno)))
  }

  function OweFull(peer: Peer, frame: AircFrame, addressed: bool): Option<OwedAck> {
    if addressed && frame.WantsAck() then Some(OwedAck(frame.seqno, None)) else peer.owedAck
  }

  /** A frame that is not an acknowledgement: duplicate, whole, or a fragment. */
  function Accept(cfg: SessionConfig, peer: Peer, frame: AircFrame, now: Instant, addressed: bool, victim: u16)
    : (Peer, Option<AircFrame>, bool)
    requires frame.FragmentOk()
  {
    if frame.seqno in peer.seen then
      (peer.(owedAck := OweFull(peer, frame, addressed)),
       if frame.kind == Hello then Some(frame) else None,
       frame.kind != Hello)
    else if frame.fragTotal == 1 then
      (peer.(owedAck := OweFull(peer, frame, addressed), seen := RememberSeq(peer.seen, frame.seqno, cfg.dedupWindow)),
       Some(frame), false)
    else
      var (p, d) := AcceptFragment(cfg, peer, frame, now, addressed, victim);
      (p, d, false)
  }

  /** The acknowledgements a received frame carries, in the order they are applied. */
  function AcksIn(frame: AircFrame): seq<OwedAck> {
    (if frame.piggyback.Some? then [OwedAck(frame.piggyback.value, None)] else [])
    + (if frame.kind == Ack && ParseAck(frame.payload).Some? then [ParseAck(frame.payload).value] else [])
  }

  function ApplyAcks(peer: Peer, acks: seq<OwedAck>): (Peer, seq<AircFrame>)
    decreases |acks|
  {
    if acks == [] then (peer, [])
    else
      var (p, out) := ApplyAck(peer, acks[0]);
      var (q, more) := ApplyAcks(p, acks[1..]);
      (q, out + more)
  }

  /** Everything `on_receive` does to the (just touched) peer entry. */
  function Receive(cfg: SessionConfig, peer: Peer, frame: AircFrame, now: Instant, addressed: bool, victim: u16)
    : (Peer, RxOutcome)
    requires frame.FragmentOk()
  {
    var (p, out) := ApplyAcks(HelloReset(peer, frame), AcksIn(frame));
    if frame.kind == Ack then (p, RxOutcome(None, out, false))
    else
      var (q, deliver, duplicate) := Accept(cfg, p, frame, now, addressed, victim);
      (q, RxOutcome(deliver, out, duplicate))
  }

  // ---- Sending ----

  function PiggybackFor(cfg: SessionConfig, peer: Peer, reliable: bool): Option<u16> {
    if reliable && peer.pending.None? && cfg.MaxPayload() > 2 && peer.owedAck.Some? && peer.owedAck.value.bitmap.None?
    then Some(peer.owedAck.value.seqno) else None
  }

  function Enqueue(cfg: SessionConfig, peer: Peer, seqno: u16, kind: Kind, payload: seq<byte>, reliable: bool)
    : (Peer, SendOutcome)
  {
    var piggy := PiggybackFor(cfg, peer, reliable);
    var chunks := ChunkPayload(payload, cfg.MaxPayload(), piggy.Some?);
    ChunkPayloadJoins(payload, cfg.MaxPayload(), piggy.Some?);
    if |chunks| > 255 then (peer.(dropped := peer.dropped + 1), SendOutcome([], false))
    else
      var frames := Fragments(kind, seqno, chunks, if reliable then SetBit(0, ACK_REQ) else 0);
      if !reliable then (peer, SendOutcome(frames, true))
      else if peer.pending.Some? then
        if |peer.queue| >= cfg.maxQueue then (peer.(dropped := peer.dropped + 1), SendOutcome([], false))
        else (peer.(queue := peer.queue + [frames]), SendOutcome([], true))
      else
        var p := peer.(pending := Some(StartPending(frames)));
        if piggy.None? then (p, SendOutcome(frames, true))
        else (p.(owedAck := None), SendOutcome(frames[0 := frames[0].WithPiggyback(piggy.value)], true))
  }

  function Drain(peer: Peer): (Peer, seq<AircFrame>) {
    (peer.(owedAck := None), if peer.owedAck.Some? then [OwedFrame(peer.owedAck.value)] else [])
  }

  // ---- Timers ----

  function Backoff(cfg: SessionConfig, attempt: nat): nat {
    cfg.ackTimeout * Min(attempt, 4)
  }

  function Keyed(cfg: SessionConfig, peer: Peer, seqno: u16, now: Instant): Peer {
    if AckMatches(peer, seqno) then
      peer.(pending := Some(peer.pending.value.(nextRetry := Some(now + Backoff(cfg, Max(peer.pending.value.attempts, 1))))))
    else peer
  }

  function Expired(cfg: SessionConfig, peer: Peer, now: Instant): set<u16> {
    set s | s in peer.reasm && Since(now, peer.reasm[s].started) >= cfg.reassemblyTimeout
  }

  /** Bitmaps sent for expired reassembly entries, visited in `order`. */
  function ExpiryAcks(peer: Peer, order: seq<u16>): seq<AircFrame> {
    ExpiryAcksPrefix(peer, order, |order|)
  }

  function ExpiryAcksPrefix(peer: Peer, order: seq<u16>, n: nat): seq<AircFrame>
    requires n <= |order|
  {
    if n == 0 then []
    else
      var s := order[n - 1];
      ExpiryAcksPrefix(peer, order, n - 1)
      + (if s in peer.reasm && peer.reasm[s].wantAck then [AckWithBitmap(s, Bitmap(peer.reasm[s].parts))] else [])
  }

  predicate RetryDue(peer: Peer, now: Instant) {
    peer.pending.Some? && peer.pending.value.nextRetry.Some? && now >= peer.pending.value.nextRetry.value
  }

  datatype TickPass = TickPass(peer: Peer, transmit: seq<AircFrame>, lost: bool, givingUp: bool)

  /** The first loop of `tick_retries` at one peer. */
  function TickFirst(cfg: SessionConfig, peer: Peer, now: Instant, retry: bool, order: seq<u16>): TickPass {
    var p := peer.(reasm := peer.reasm - Expired(cfg, peer, now));
    var acks := ExpiryAcks(peer, order);
    if Since(now, p.lastHeard) > cfg.peerIdleTimeout then TickPass(p, acks, true, false)
    else if !retry || !RetryDue(p, now) then TickPass(p, acks, false, false)
    else
      var pending := p.pending.value;
      if pending.attempts >= cfg.maxRetries then TickPass(p, acks, false, true)
      else
        var again := pending.(attempts := pending.attempts + 1,
                              nextRetry := Some(now + Backoff(cfg, pending.attempts + 1)));
        TickPass(p.(pending := Some(again)), acks + Holes(pending.frames, pending.acked), false, false)
  }

  /** The second loop of `tick_retries` at a peer whose message is given up. */
  function GiveUp(peer: Peer): (Peer, seq<AircFrame>, bool) {
    var (p, out) := StartNext(peer.(dropped := peer.dropped + 1));
    (p, out, peer.queue == [])
  }

  function Finish(first: TickPass): TickPass {
    if !first.givingUp then first
    else
      var (p, out, lost) := GiveUp(first.peer);
      TickPass(p, first.transmit + out, lost, true)
  }

  /** Both loops at one peer. */
  function Tick(cfg: SessionConfig, peer: Peer, now: Instant, retry: bool, order: seq<u16>): TickPass {
    Finish(TickFirst(cfg, peer, now, retry, order))
  }

  // ---- Every operation keeps the peer invariant ----

  lemma StartNextOk(peer: Peer)
    requires PeerOk(peer)
    ensures PeerOk(StartNext(peer).0)
  {
    if peer.queue != [] {
      assert SameMessage(peer.queue[0]);
      assert !StartPending(peer.queue[0]).acked[0];
    }
  }

  lemma ApplyAckOk(peer: Peer, ack: OwedAck)
    requires PeerOk(peer)
    ensures PeerOk(ApplyAck(peer, ack).0)
  {
    StartNextOk(peer);
  }

  lemma {:induction false} ApplyAcksOk(peer: Peer, acks: seq<OwedAck>)
    requires PeerOk(peer)
    ensures PeerOk(ApplyAcks(peer, acks).0)
    decreases |acks|
  {
    if acks != [] {
      ApplyAckOk(peer, acks[0]);
      ApplyAcksOk(ApplyAck(peer, acks[0]).0, acks[1..]);
    }
  }

  lemma HelloResetOk(peer: Peer, frame: AircFrame)
    requires PeerOk(peer)
    ensures PeerOk(HelloReset(peer, frame))
  {
  }

  lemma AcceptOk(cfg: SessionConfig, peer: Peer, frame: AircFrame, now: Instant, addressed: bool, victim: u16)
    requires PeerOk(peer) && frame.FragmentOk()
    ensures PeerOk(Accept(cfg, peer, frame, now, addressed, victim).0)
  {
  }

  lemma ReceiveOk(cfg: SessionConfig, peer: Peer, frame: AircFrame, now: Instant, addressed: bool, victim: u16)
    requires PeerOk(peer) && frame.FragmentOk()
    ensures PeerOk(Receive(cfg, peer, frame, now, addressed, victim).0)
  {
    HelloResetOk(peer, frame);
    ApplyAcksOk(HelloReset(peer, frame), AcksIn(frame));
    var (p, out) := ApplyAcks(HelloReset(peer, frame), AcksIn(frame));
    AcceptOk(cfg, p, frame, now, addressed, victim);
  }

  lemma EnqueueOk(cfg: SessionConfig, peer: Peer, seqno: u16, kind: Kind, payload: seq<byte>, reliable: bool)
    requires PeerOk(peer)
    ensures PeerOk(Enqueue(cfg, peer, seqno, kind, payload, reliable).0)
  {
    var piggy := PiggybackFor(cfg, peer, reliable);
    var chunks := ChunkPayload(payload, cfg.MaxPayload(), piggy.Some?);
    ChunkPayloadJoins(payload, cfg.MaxPayload(), piggy.Some?);
    if |chunks| <= 255 {
      var frames := Fragments(kind, seqno, chunks, if reliable then SetBit(0, ACK_REQ) else 0);
      assert SameMessage(frames);
      assert !StartPending(frames).acked[0];
    }
  }

  lemma TickOk(cfg: SessionConfig, peer: Peer, now: Instant, retry: bool, order: seq<u16>)
    requires PeerOk(peer)
    ensures PeerOk(TickFirst(cfg, peer, now, retry, order).peer)
    ensures PeerOk(Tick(cfg, peer, now, retry, order).peer)
  {
    var p := TickFirst(cfg, peer, now, retry, order).peer;
    StartNextOk(p.(dropped := p.dropped + 1));
  }
}
