/** What one operation of the session layer leaves behind, told from what was there before: the
    timers, acknowledgements with a bitmap, new epochs, and the cutting of a payload. */
module SessionExact {
  import opened Common
  import opened AircFrames
  import opened Session
  import opened TwoParty
  import opened TwoPartySafety
  import SessionLiveness

  // ---- Sending again what is missing ----

  lemma {:induction false} HolesAreMissing(frames: seq<AircFrame>, acked: seq<bool>, n: nat, f: AircFrame)
    requires n <= |frames| && |acked| == |frames|
    ensures f in HolesPrefix(frames, acked, n) <==> exists i :: 0 <= i < n && !acked[i] && f == frames[i].WithFlag(RETRY)
  {
    if n > 0 {
      HolesAreMissing(frames, acked, n - 1, f);
    }
  }

  /** Transmitted at this step: these frames, to the other station, and bitmaps of what expired. */
  ghost predicate Transmitted(e: Endpoint, e': Endpoint, frames: set<AircFrame>) {
    && e.air <= e'.air
    && (forall f :: f in frames ==> Packet(f, true) in e'.air)
    && forall p :: p in e'.air && p !in e.air ==> p.addressed && (p.frame in frames || p.frame.kind == Ack)
  }

  function Missing(p: Pending): set<AircFrame> {
    set i | 0 <= i < |p.frames| && i < |p.acked| && !p.acked[i] :: p.frames[i].WithFlag(RETRY)
  }

  lemma HolesAre(p: Pending)
    requires |p.acked| == |p.frames|
    ensures (set f | f in Holes(p.frames, p.acked)) == Missing(p)
  {
    forall f ensures f in Holes(p.frames, p.acked) <==> f in Missing(p) {
      HolesAreMissing(p.frames, p.acked, |p.frames|, f);
    }
  }

  lemma {:induction false} BitmapsAreAcks(p: Peer, order: seq<u16>, n: nat)
    requires n <= |order|
    ensures forall f :: f in ExpiryAcksPrefix(p, order, n) ==> f.kind == Ack
  {
    if n > 0 {
      BitmapsAreAcks(p, order, n - 1);
    }
  }

  // ---- The timer ----

  /** The back-off after this many attempts: linear, up to four acknowledgement times. */
  function BackoffTime(cfg: SessionConfig, attempts: nat): nat {
    cfg.ackTimeout * (if attempts == 0 then 1 else if attempts >= 4 then 4 else attempts)
  }

  /** A key-down report of the message in flight sets its timer, counted from the report; of any other
      it does nothing. */
  lemma KeyDownArms(e: Endpoint, s: u16, t: Instant)
    ensures var p := e.peer.pending;
            var e' := Does(e, KeyDown(s, t));
            if p.Some? && |p.value.frames| > 0 && p.value.frames[0].seqno == s then
              e' == e.(peer := e.peer.(pending := Some(p.value.(nextRetry := Some(t + BackoffTime(e.cfg, p.value.attempts))))))
            else e' == e
  {
  }

  /** The timer of the message in flight is set, and the session is not idle. */
  predicate Armed(e: Endpoint, now: Instant, due: Instant) {
    e.peer.pending.Some? && e.peer.pending.value.nextRetry == Some(due) && now - e.peer.lastHeard <= e.cfg.peerIdleTimeout
  }

  /** Before the timer is due nothing happens to the message in flight. */
  lemma TimerWaits(e: Endpoint, now: Instant, order: seq<u16>, due: Instant)
    requires Armed(e, now, due) && now < due
    ensures var e' := Does(e, Tick(now, true, order));
            e'.peer.pending == e.peer.pending && e'.peer.queue == e.peer.queue && Transmitted(e, e', {})
  {
    BitmapsAreAcks(e.peer, order, |order|);
  }

  /** When it is due, what is missing goes out again and the timer is set anew. */
  lemma TimerRepeats(e: Endpoint, now: Instant, order: seq<u16>, due: Instant)
    requires HeldOk(e) && Armed(e, now, due) && now >= due && e.peer.pending.value.attempts < e.cfg.maxRetries
    ensures var p := e.peer.pending.value;
            var e' := Does(e, Tick(now, true, order));
            && e'.peer.pending == Some(p.(attempts := p.attempts + 1, nextRetry := Some(now + BackoffTime(e.cfg, p.attempts + 1))))
            && e'.peer.queue == e.peer.queue && Transmitted(e, e', Missing(p))
  {
    BitmapsAreAcks(e.peer, order, |order|);
    HolesAre(e.peer.pending.value);
  }

  /** After the last attempt the message is given up, and the next one goes out; with nothing left to
      send the session is over. */
  lemma TimerGivesUp(e: Endpoint, now: Instant, order: seq<u16>, due: Instant)
    requires HeldOk(e) && Armed(e, now, due) && now >= due && e.peer.pending.value.attempts >= e.cfg.maxRetries
    ensures var e' := Does(e, Tick(now, true, order));
            && e.peer.pending.value.frames[0].seqno in e'.abandoned
            && if e.peer.queue == [] then e'.peer == NewPeer(now) && Transmitted(e, e', {})
               else e'.peer.pending == Some(Pending(e.peer.queue[0], seq(|e.peer.queue[0]|, _ => false), 0, None))
                    && e'.peer.queue == e.peer.queue[1..] && e'.peer.dropped == e.peer.dropped + 1
                    && Transmitted(e, e', set f | f in e.peer.queue[0])
  {
    BitmapsAreAcks(e.peer, order, |order|);
  }

  /** Without a key-down report, or when repeats are switched off, the timer leaves the message alone. */
  lemma TimerIdle(e: Endpoint, now: Instant, retry: bool, order: seq<u16>)
    requires now - e.peer.lastHeard <= e.cfg.peerIdleTimeout
    requires !retry || e.peer.pending.None? || e.peer.pending.value.nextRetry.None?
    ensures var e' := Does(e, Tick(now, retry, order));
            e'.peer.pending == e.peer.pending && e'.peer.queue == e.peer.queue && Transmitted(e, e', {})
  {
    BitmapsAreAcks(e.peer, order, |order|);
  }

  /** A session is forgotten when nothing was heard for longer than it may be idle; otherwise exactly
      the incomplete messages that are too old go. */
  lemma TimerForgets(e: Endpoint, now: Instant, retry: bool, order: seq<u16>)
    ensures var e' := Does(e, Tick(now, retry, order));
            && (now - e.peer.lastHeard > e.cfg.peerIdleTimeout && now > e.peer.lastHeard ==> e'.peer == NewPeer(now))
            && (e'.peer != NewPeer(now) ==>
                  forall s :: s in e'.peer.reasm <==>
                                s in e.peer.reasm
                                && Since(now, e.peer.reasm[s].started) < e.cfg.reassemblyTimeout)
            && (forall s :: s in e'.peer.reasm ==> s in e.peer.reasm && e'.peer.reasm[s] == e.peer.reasm[s])
  {
  }

  /** A bitmap that says, for each of these parts, whether it is in hand. */
  ghost predicate Tells(bits: seq<byte>, parts: seq<Option<seq<byte>>>) {
    forall i: nat :: BitOf(bits, i) <==> i < |parts| && parts[i].Some?
  }

  lemma BitmapTells(parts: seq<Option<seq<byte>>>)
    ensures Tells(Bitmap(parts), parts)
  {
    forall i: nat ensures BitOf(Bitmap(parts), i) <==> i < |parts| && parts[i].Some? {
      BitmapReports(parts, i);
    }
  }

  lemma {:induction false} ExpiredAreTold(p: Peer, order: seq<u16>, n: nat, i: nat)
    requires i < n <= |order| && order[i] in p.reasm && p.reasm[order[i]].wantAck
    ensures AckWithBitmap(order[i], Bitmap(p.reasm[order[i]].parts)) in ExpiryAcksPrefix(p, order, n)
  {
    if i < n - 1 {
      ExpiredAreTold(p, order, n - 1, i);
    }
  }

  /** An incomplete message that has become too old, and for which an acknowledgement was asked, is
      reported with a bitmap of what was in hand as it goes. */
  lemma ExpiryIsReported(e: Endpoint, now: Instant, retry: bool, order: seq<u16>, s: u16)
    requires Enumerates(order, Expired(e.cfg, e.peer, now))
    requires s in e.peer.reasm && e.peer.reasm[s].wantAck && Since(now, e.peer.reasm[s].started) >= e.cfg.reassemblyTimeout
    ensures var e' := Does(e, Tick(now, retry, order));
            && (e'.peer == NewPeer(now) || s !in e'.peer.reasm)
            && exists q, bits :: q in e'.air && q.addressed && q.frame.kind == Ack
                                 && ParseAck(q.frame.payload) == Some(OwedAck(s, Some(bits))) && Tells(bits, e.peer.reasm[s].parts)
  {
    EnumeratesAll(order, Expired(e.cfg, e.peer, now));
    assert s in Expired(e.cfg, e.peer, now);
    OrderIsReported(e, Does(e, Tick(now, retry, order)), order, s);
  }

  lemma OrderIsReported(e: Endpoint, e': Endpoint, order: seq<u16>, s: u16)
    requires s in order && s in e.peer.reasm && e.peer.reasm[s].wantAck
    requires Packets(ExpiryAcks(e.peer, order), true) <= e'.air
    ensures exists q, bits :: q in e'.air && q.addressed && q.frame.kind == Ack
                              && ParseAck(q.frame.payload) == Some(OwedAck(s, Some(bits))) && Tells(bits, e.peer.reasm[s].parts)
  {
    var i :| 0 <= i < |order| && order[i] == s;
    ExpiredAreTold(e.peer, order, |order|, i);
    var bits := Bitmap(e.peer.reasm[s].parts);
    BitmapTells(e.peer.reasm[s].parts);
    OwedFrameParses(OwedAck(s, Some(bits)));
    var q := Packet(AckWithBitmap(s, bits), true);
    assert q in e'.air;
  }

  // ---- Acknowledgements with a bitmap ----

  /** Fragment `i` was acknowledged before, or is reported now. */
  predicate Reported(acked: seq<bool>, bits: seq<byte>, i: nat) {
    i < |acked| && (acked[i] || BitOf(bits, i))
  }

  predicate AllReported(acked: seq<bool>, bits: seq<byte>) {
    forall i: nat :: i < |acked| ==> Reported(acked, bits, i)
  }

  predicate SomeNew(acked: seq<bool>, bits: seq<byte>) {
    exists i: nat :: i < |acked| && !acked[i] && Reported(acked, bits, i)
  }

  lemma MergedExactly(acked: seq<bool>, bits: seq<byte>)
    ensures AllTrue(MergeAcked(acked, bits)) <==> AllReported(acked, bits)
    ensures MergeAcked(acked, bits) != acked <==> SomeNew(acked, bits)
    ensures forall i: nat :: i < |acked| ==> (MergeAcked(acked, bits)[i] <==> Reported(acked, bits, i))
  {
    var merged := MergeAcked(acked, bits);
    assert forall i: nat :: i < |acked| ==> (merged[i] <==> Reported(acked, bits, i));
    if merged != acked {
      var i :| 0 <= i < |acked| && merged[i] != acked[i];
      assert !acked[i] && Reported(acked, bits, i);
    }
  }

  /** What is left of the message in flight when some of it is still missing. */
  ghost predicate Heeded(e: Endpoint, e': Endpoint, bits: seq<byte>)
    requires e.peer.pending.Some?
  {
    var p := e.peer.pending.value;
    if !SomeNew(p.acked, bits) then e'.peer.pending == e.peer.pending && e'.air == e.air
    else
      && e'.peer.pending.Some?
      && var q := e'.peer.pending.value;
         && q.frames == p.frames && |q.acked| == |p.acked| && q.attempts == 0 && q.nextRetry.None?
         && (forall i: nat :: i < |p.acked| ==> (q.acked[i] <==> Reported(p.acked, bits, i)))
         && Transmitted(e, e', Missing(q))
  }

  lemma AckedHeeds(e: Endpoint, bits: seq<byte>)
    requires HeldOk(e) && e.peer.pending.Some?
    ensures var p := e.peer.pending.value;
            var e' := Acked(e, OwedAck(p.frames[0].seqno, Some(bits)));
            && (AllReported(p.acked, bits) ==> p.frames[0].seqno in e'.released)
            && (!AllReported(p.acked, bits) ==> e'.released == e.released && Heeded(e, e', bits))
  {
    var p := e.peer.pending.value;
    MergedExactly(p.acked, bits);
    HolesAre(Pending(p.frames, MergeAcked(p.acked, bits), 0, None));
  }

  /** A bitmap heard for the message in flight: it completes the message, or each fragment it reports
      counts as received from then on, and what is still missing goes out again if anything reported
      was new; if nothing was, nothing changes. */
  lemma BitmapIsHeeded(e: Endpoint, packet: Packet, now: Instant, victim: u16, bits: seq<byte>)
    requires HeldOk(e) && e.peer.pending.Some?
    requires packet.frame.kind == Ack && packet.frame.FragmentOk() && packet.frame.piggyback.None?
    requires ParseAck(packet.frame.payload) == Some(OwedAck(e.peer.pending.value.frames[0].seqno, Some(bits)))
    ensures var p := e.peer.pending.value;
            var e' := Does(e, Hear(packet, now, victim));
            && (AllReported(p.acked, bits) ==> p.frames[0].seqno in e'.released)
            && (!AllReported(p.acked, bits) ==> e'.released == e.released && Heeded(e, e', bits))
  {
    var ack := OwedAck(e.peer.pending.value.frames[0].seqno, Some(bits));
    assert AcksIn(packet.frame) == [ack];
    var e0 := e.(peer := e.peer.(lastHeard := now));
    AckedHeeds(e0, bits);
    assert AckedAll(Acked(e0, ack), [ack][1..]) == Acked(e0, ack);
  }

  // ---- A new epoch ----

  /** A HELLO of a new epoch starts the session over: nothing received, owed, in flight or waiting
      before it is remembered, and its epoch is. */
  lemma NewEpochStartsOver(e: Endpoint, packet: Packet, now: Instant, victim: u16)
    requires packet.frame.kind == Hello && packet.frame.FragmentOk() && packet.frame.fragTotal == 1
    requires packet.frame.piggyback.None? && HelloEpoch(packet.frame) != e.peer.epoch
    ensures var e' := Does(e, Hear(packet, now, victim));
            && e'.peer.epoch == HelloEpoch(packet.frame)
            && e'.peer.reasm == map[] && e'.peer.pending.None? && e'.peer.queue == []
            && (forall s :: s in e'.peer.seen ==> s == packet.frame.seqno)
            && (e'.peer.owedAck.Some? <==> packet.addressed && packet.frame.WantsAck())
            && (e'.peer.owedAck.Some? ==> e'.peer.owedAck.value == OwedAck(packet.frame.seqno, None))
            && e'.deliveries == e.deliveries + [packet.frame]
  {
    assert AcksIn(packet.frame) == [];
  }

  /** A HELLO is handed on however often it is heard, and of the epoch known it disturbs nothing sent. */
  lemma HelloIsAlwaysHeard(e: Endpoint, packet: Packet, now: Instant, victim: u16)
    requires packet.frame.kind == Hello && packet.frame.FragmentOk() && packet.frame.fragTotal == 1
    requires packet.frame.piggyback.None?
    ensures var e' := Does(e, Hear(packet, now, victim));
            && e'.deliveries == e.deliveries + [packet.frame]
            && (HelloEpoch(packet.frame) == e.peer.epoch ==>
                  && e'.peer.pending == e.peer.pending && e'.peer.queue == e.peer.queue
                  && e'.peer.reasm == e.peer.reasm && e'.peer.epoch == e.peer.epoch)
  {
    assert AcksIn(packet.frame) == [];
  }

  function HexOf(d: nat): byte
    requires d < 16
  {
    if d < 10 then 0x30 + d else 0x41 + d - 10
  }

  /** `{:04X}`. */
  function Hex4(n: u16): seq<byte> {
    [HexOf(n / 4096), HexOf(n / 256 % 16), HexOf(n / 16 % 16), HexOf(n % 16)]
  }

  lemma {:induction false} SecondField(p: seq<byte>, q: seq<byte>)
    requires FS !in p
    ensures AfterFS(p + [FS] + q) == Some(q)
  {
    var all := p + [FS] + q;
    if p == [] {
      assert all[0] == FS && all[1..] == q;
    } else {
      SecondField(p[1..], q);
      assert all[0] == p[0] && all[1..] == p[1..] + [FS] + q;
    }
  }

  lemma {:induction false} WholeField(q: seq<byte>)
    requires FS !in q
    ensures UntilFS(q) == q
  {
    if q != [] {
      WholeField(q[1..]);
    }
  }

  lemma HexReads(d: nat)
    requires d < 16
    ensures HexDigit(HexOf(d)) == Some(d) && FieldOctet(HexOf(d)) && !IsSpace(HexOf(d)) && HexOf(d) != 0x2B
  {
  }

  lemma {:induction false} ParseDigits(n: nat, p: seq<byte>, d: nat)
    requires d < 16 && n * 16 + d < 65536
    ensures ParseHex([HexOf(d)] + p, n) == ParseHex(p, n * 16 + d)
  {
    HexReads(d);
    assert ([HexOf(d)] + p)[1..] == p;
  }

  lemma ParseFour(a: nat, b: nat, c: nat, d: nat)
    requires a < 16 && b < 16 && c < 16 && d < 16
    ensures ParseHex([HexOf(a), HexOf(b), HexOf(c), HexOf(d)], 0) == Some(((a * 16 + b) * 16 + c) * 16 + d)
  {
    ParseDigits(0, [HexOf(b), HexOf(c), HexOf(d)], a);
    assert [HexOf(a)] + [HexOf(b), HexOf(c), HexOf(d)] == [HexOf(a), HexOf(b), HexOf(c), HexOf(d)];
    ParseDigits(a, [HexOf(c), HexOf(d)], b);
    assert [HexOf(b)] + [HexOf(c), HexOf(d)] == [HexOf(b), HexOf(c), HexOf(d)];
    ParseDigits(a * 16 + b, [HexOf(d)], c);
    assert [HexOf(c)] + [HexOf(d)] == [HexOf(c), HexOf(d)];
    ParseDigits((a * 16 + b) * 16 + c, [], d);
    assert [HexOf(d)] + [] == [HexOf(d)];
  }

  lemma FourDigits(n: u16)
    ensures n == ((n / 4096 * 16 + n / 256 % 16) * 16 + n / 16 % 16) * 16 + n % 16
  {
    assert n / 256 == n / 4096 * 16 + n / 256 % 16;
    assert n / 16 == n / 256 * 16 + n / 16 % 16;
  }

  /** The epoch a station puts in its HELLO is the epoch the other reads there. */
  lemma EpochIsRead(name: seq<byte>, epoch: u16, seqno: u16)
    ensures HelloEpoch(NewFrame(Hello, seqno, JoinedFields([name, Hex4(epoch)], 2))) == epoch
  {
    var hex := Hex4(epoch);
    HexReads(epoch / 4096);
    HexReads(epoch / 256 % 16);
    HexReads(epoch / 16 % 16);
    HexReads(epoch % 16);
    ScrubbedIsClean(name, |name|);
    ScrubbedWhole(hex, 4);
    assert JoinedFields([name, hex], 1) == [] + [] + Clean(name) by { assert JoinedFields([name, hex], 0) == []; }
    assert JoinedFields([name, hex], 2) == Clean(name) + [FS] + hex;
    SecondField(Clean(name), hex);
    WholeField(hex);
    assert TrimEnd(TrimStart(hex)) == hex;
    ParseFour(epoch / 4096, epoch / 256 % 16, epoch / 16 % 16, epoch % 16);
    FourDigits(epoch);
  }

  // ---- Making room ----

  lemma AcceptLeaves(cfg: SessionConfig, p: Peer, f: AircFrame, now: Instant, addressed: bool, victim: u16, s: u16)
    requires f.FragmentOk() && s in p.reasm && s != f.seqno
    requires s == victim ==> |p.reasm| < cfg.maxReasm || f.seqno in p.reasm
    ensures var p' := Accept(cfg, p, f, now, addressed, victim).0;
            s in p'.reasm && p'.reasm[s] == p.reasm[s]
  {
  }

  /** A fragment of a message not in hand pushes one out only if the table is full, and that one is
      the victim; all else stays. */
  lemma OthersStay(e: Endpoint, packet: Packet, now: Instant, victim: u16, s: u16)
    requires packet.frame.FragmentOk() && !NewEpoch(e.peer, packet.frame) && s != packet.frame.seqno
    requires s in e.peer.reasm
    requires s == victim ==> |e.peer.reasm| < e.cfg.maxReasm || packet.frame.seqno in e.peer.reasm
    ensures var e' := Does(e, Hear(packet, now, victim));
            s in e'.peer.reasm && e'.peer.reasm[s] == e.peer.reasm[s]
  {
    var f := packet.frame;
    SessionLiveness.OpenedReceives(e, f, now);
    var e1 := Opened(e, f, now);
    if f.kind != Ack {
      AcceptLeaves(e1.cfg, e1.peer, f, now, packet.addressed, victim, s);
      AcceptedIsAccept(e1, f, now, packet.addressed, victim);
    }
  }

  /** And it is one that was begun no later than any other. */
  lemma OldestGoes(e: Endpoint, o: Endpoint, packet: Packet, now: Instant, victim: u16, s: u16, t: u16)
    requires Enabled(e, o, Hear(packet, now, victim)) && !NewEpoch(e.peer, packet.frame)
    requires s in e.peer.reasm && t in e.peer.reasm && s != packet.frame.seqno
    requires s !in Does(e, Hear(packet, now, victim)).peer.reasm
    ensures s == victim && e.peer.reasm[s].started <= e.peer.reasm[t].started
    ensures |e.peer.reasm| >= e.cfg.maxReasm && packet.frame.seqno !in e.peer.reasm
  {
    if s != victim || |e.peer.reasm| < e.cfg.maxReasm || packet.frame.seqno in e.peer.reasm {
      OthersStay(e, packet, now, victim, s);
      assert false;
    }
    SessionLiveness.OpenedReceives(e, packet.frame, now);
    var stamps := Stamps(Opened(e, packet.frame, now).peer.reasm);
    assert stamps[s] == e.peer.reasm[s].started && stamps[t] == e.peer.reasm[t].started;
  }

  // ---- An acknowledgement that rides along ----

  /** What is owed in whole rides on the first frame of the next reliable message, if nothing is in
      flight and there is room for it, and is owed no more. */
  lemma OwedRidesAlong(e: Endpoint, kind: Kind, payload: seq<byte>, now: Instant, s: u16)
    requires e.peer.pending.None? && e.peer.owedAck == Some(OwedAck(s, None)) && e.cfg.MaxPayload() > 2
    requires |ChunkPayload(payload, e.cfg.MaxPayload(), true)| <= 255
    ensures var e' := Does(e, Send(kind, payload, true, now));
            && e'.peer.owedAck.None?
            && exists p :: p in e'.air && p.addressed && p.frame.seqno == e.nextSeq && p.frame.kind == kind
                           && p.frame.piggyback == Some(s) && HasBit(p.frame.flags, PIGGYACK)
  {
    var chunks := ChunkPayload(payload, e.cfg.MaxPayload(), true);
    ChunkPayloadJoins(payload, e.cfg.MaxPayload(), true);
    var frames := Fragments(kind, e.nextSeq, chunks, SetBit(0, ACK_REQ));
    var first := frames[0].WithPiggyback(s);
    var out := frames[0 := first];
    assert out[0] in out;
    assert Packet(first, true) in Does(e, Send(kind, payload, true, now)).air;
  }

  // ---- How a payload is cut ----

  lemma {:induction false} ChunksAreFull(p: seq<byte>, max: nat)
    requires max >= 1 && p != []
    ensures var n := |Chunks(p, max)|;
            && n >= 1 && (n - 1) * max < |p| <= n * max
            && forall i :: 0 <= i < n - 1 ==> |Chunks(p, max)[i]| == max
  {
    if |p| > max {
      ChunksAreFull(p[max..], max);
      var n := |Chunks(p[max..], max)|;
      assert Chunks(p, max) == [p[..max]] + Chunks(p[max..], max);
      assert n * max == (n - 1) * max + max && (n + 1) * max == n * max + max;
    }
  }

  /** A payload is cut in as few fragments as can hold it: all but the last one are full, the first one
      less two octets if an acknowledgement rides on it. */
  lemma CutInFew(p: seq<byte>, max: nat, piggy: bool)
    requires max >= 1
    ensures var chunks := ChunkPayload(p, max, piggy);
            var n, first := |chunks|, if piggy && max > 2 then max - 2 else if piggy then 1 else max;
            && (|p| <= first ==> chunks == [p])
            && (|p| > first ==> n >= 2 && chunks[0] == p[..first] && (n - 2) * max < |p| - first <= (n - 1) * max)
            && forall i :: 0 < i < n - 1 ==> |chunks[i]| == max
  {
    var first := if piggy then Max(1, max - 2) else max;
    if |p| > first {
      ChunksAreFull(p[first..], max);
      assert ChunkPayload(p, max, piggy) == [p[..first]] + Chunks(p[first..], max);
    }
  }

  // ---- Sending ----

  /** Fragment `i` of a message is on the air, addressed, with these flags. */
  ghost predicate OnAir(e: Endpoint, kind: Kind, s: u16, chunks: seq<seq<byte>>, i: nat, wants: bool)
    requires i < |chunks|
  {
    exists p :: p in e.air && p.addressed && p.frame.kind == kind && p.frame.seqno == s && p.frame.payload == chunks[i]
                && p.frame.fragIndex == i && p.frame.fragTotal == |chunks| && (p.frame.WantsAck() <==> wants)
  }

  lemma {:induction false} FragmentsOnAir(e: Endpoint, kind: Kind, s: u16, chunks: seq<seq<byte>>, flags: byte, i: nat)
    requires |chunks| <= 255 && i < |chunks| && Packets(Fragments(kind, s, chunks, flags), true) <= e.air
    ensures OnAir(e, kind, s, chunks, i, HasBit(flags, ACK_REQ))
  {
    var frames := Fragments(kind, s, chunks, flags);
    assert frames[i] in frames && Packet(frames[i], true) in e.air;
  }

  /** An unreliable message is transmitted at once, asks for no acknowledgement, and is forgotten. */
  lemma UnreliableIsSent(e: Endpoint, kind: Kind, payload: seq<byte>, now: Instant)
    requires |ChunkPayload(payload, e.cfg.MaxPayload(), false)| <= 255
    ensures var chunks, e' := ChunkPayload(payload, e.cfg.MaxPayload(), false), Does(e, Send(kind, payload, false, now));
            && e'.peer == e.peer.(lastHeard := now) && e'.nextSeq == SeqAfter(e.nextSeq) && e'.order == e.order
            && forall i :: 0 <= i < |chunks| ==> OnAir(e', kind, e.nextSeq, chunks, i, false)
  {
    var chunks := ChunkPayload(payload, e.cfg.MaxPayload(), false);
    ChunkPayloadJoins(payload, e.cfg.MaxPayload(), false);
    NoBits(0);
    forall i | 0 <= i < |chunks| ensures OnAir(Does(e, Send(kind, payload, false, now)), kind, e.nextSeq, chunks, i, false) {
      FragmentsOnAir(Does(e, Send(kind, payload, false, now)), kind, e.nextSeq, chunks, 0, i);
    }
  }

  /** A reliable message behind another one waits: nothing goes out, and it is the last in the queue; or,
      with the queue full, it is refused and counted. */
  lemma ReliableWaits(e: Endpoint, kind: Kind, payload: seq<byte>, now: Instant)
    requires e.peer.pending.Some? && |ChunkPayload(payload, e.cfg.MaxPayload(), false)| <= 255
    ensures var chunks, e' := ChunkPayload(payload, e.cfg.MaxPayload(), false), Does(e, Send(kind, payload, true, now));
            && e'.air == e.air && e'.peer.pending == e.peer.pending && e'.peer.owedAck == e.peer.owedAck
            && (|e.peer.queue| >= e.cfg.maxQueue ==>
                  e'.peer.queue == e.peer.queue && e'.peer.dropped == e.peer.dropped + 1 && e'.order == e.order)
            && (|e.peer.queue| < e.cfg.maxQueue ==>
                  && |e'.peer.queue| == |e.peer.queue| + 1 && e.peer.queue <= e'.peer.queue
                  && e'.peer.dropped == e.peer.dropped && e'.order == e.order + [e.nextSeq]
                  && var last := e'.peer.queue[|e.peer.queue|];
                     |last| == |chunks| && forall i :: 0 <= i < |last| ==>
                       last[i].payload == chunks[i] && last[i].kind == kind && last[i].seqno == e.nextSeq && last[i].WantsAck())
  {
    ChunkPayloadJoins(payload, e.cfg.MaxPayload(), false);
  }

  /** A message that would take more than 255 fragments is refused and counted; its number is spent. */
  lemma TooLongIsRefused(e: Endpoint, kind: Kind, payload: seq<byte>, reliable: bool, now: Instant)
    requires |ChunkPayload(payload, e.cfg.MaxPayload(), true)| > 255 && |ChunkPayload(payload, e.cfg.MaxPayload(), false)| > 255
    ensures var e' := Does(e, Send(kind, payload, reliable, now));
            && e'.air == e.air && e'.order == e.order && e'.nextSeq == SeqAfter(e.nextSeq)
            && e'.peer == e.peer.(lastHeard := now, dropped := e.peer.dropped + 1)
  {
  }

  /** The number given out `k`-th: from one to 65535, and round again without zero. */
  function NumberAt(k: nat): u16 { if k == 0 then 1 else SeqAfter(NumberAt(k - 1)) }

  lemma {:induction false} NumbersGoRound(k: nat)
    ensures NumberAt(k) == k % 65535 + 1
  {
    if k > 0 {
      NumbersGoRound(k - 1);
    }
  }

  // ---- Receiving ----

  /** The fragment that was still missing completes the message: it is handed on, with an
      acknowledgement asked for if any of its frames did, is a duplicate from then on, and is owed an
      acknowledgement if the station was asked for one. */
  lemma LastFragmentCompletes(e: Endpoint, packet: Packet, now: Instant, victim: u16)
    requires var f := packet.frame; f.FragmentOk() && f.kind != Ack && f.fragTotal > 1 && f.piggyback.None? && !NewEpoch(e.peer, f)
    requires var f := packet.frame;
             && f.seqno !in e.peer.seen && f.seqno in e.peer.reasm && |f.payload| <= e.cfg.MaxPayload()
             && |e.peer.reasm[f.seqno].parts| == f.fragTotal
             && forall i :: 0 <= i < |e.peer.reasm[f.seqno].parts| && i != f.fragIndex ==> e.peer.reasm[f.seqno].parts[i].Some?
    ensures var f, r, e' := packet.frame, e.peer.reasm[packet.frame.seqno], Does(e, Hear(packet, now, victim));
            && |e'.deliveries| == |e.deliveries| + 1 && e.deliveries <= e'.deliveries
            && var d := e'.deliveries[|e.deliveries|];
               && d.seqno == f.seqno && d.kind == r.kind && d.payload == Joined(r.parts[f.fragIndex := Some(f.payload)])
               && (d.WantsAck() <==> HasBit(r.flags, ACK_REQ) || f.WantsAck())
               && (forall k: nat :: 0 < k < 8 ==> (HasBit(d.flags, k) <==> HasBit(r.flags, k)))
               && f.seqno !in e'.peer.reasm && (e.cfg.dedupWindow > 0 ==> f.seqno in e'.peer.seen)
               && e'.peer.owedAck == if r.wantAck || (packet.addressed && d.WantsAck()) then Some(OwedAck(f.seqno, None))
                                     else e.peer.owedAck
  {
    var f, r := packet.frame, e.peer.reasm[packet.frame.seqno];
    SessionLiveness.OpenedReceives(e, f, now);
    assert AcksIn(f) == [];
    forall k: nat | k < 8 ensures HasBit(SetBit(r.flags, ACK_REQ), k) <==> k == ACK_REQ || HasBit(r.flags, k) {
      PutBitReads(r.flags, ACK_REQ, true, k);
    }
    if e.cfg.dedupWindow > 0 {
      Remembered(e.peer.seen, f.seqno, e.cfg.dedupWindow);
    }
    AcceptedIsAccept(Opened(e, f, now), f, now, packet.addressed, victim);
  }

  /** A fragment that leaves others missing is kept, and nothing is handed on. A repeated one that asks
      for it, and only that, is answered with a bitmap of what is in hand. */
  lemma FragmentIsKept(e: Endpoint, packet: Packet, now: Instant, victim: u16, j: nat)
    requires var f := packet.frame; f.FragmentOk() && f.kind != Ack && f.piggyback.None? && !NewEpoch(e.peer, f)
    requires var f := packet.frame;
             && f.seqno !in e.peer.seen && f.seqno in e.peer.reasm && |f.payload| <= e.cfg.MaxPayload()
             && |e.peer.reasm[f.seqno].parts| == f.fragTotal && f.fragTotal > 1
             && j < |e.peer.reasm[f.seqno].parts| && j != f.fragIndex && e.peer.reasm[f.seqno].parts[j].None?
    ensures var f, r, e' := packet.frame, e.peer.reasm[packet.frame.seqno], Does(e, Hear(packet, now, victim));
            && e'.deliveries == e.deliveries && e'.peer.seen == e.peer.seen && f.seqno in e'.peer.reasm
            && var r' := e'.peer.reasm[f.seqno];
               && r'.parts == r.parts[f.fragIndex := Some(f.payload)] && r'.started == r.started && r'.kind == r.kind
               && (r'.wantAck <==> r.wantAck || (packet.addressed && f.WantsAck()))
               && if packet.addressed && f.WantsAck() && HasBit(f.flags, RETRY) then
                    && e'.peer.owedAck.Some? && e'.peer.owedAck.value.seqno == f.seqno && e'.peer.owedAck.value.bitmap.Some?
                    && Tells(e'.peer.owedAck.value.bitmap.value, r'.parts)
                  else e'.peer.owedAck == e.peer.owedAck
  {
    var f, r := packet.frame, e.peer.reasm[packet.frame.seqno];
    SessionLiveness.OpenedReceives(e, f, now);
    assert AcksIn(f) == [];
    var parts := r.parts[f.fragIndex := Some(f.payload)];
    assert parts[j].None?;
    BitmapTells(parts);
    AcceptedIsAccept(Opened(e, f, now), f, now, packet.addressed, victim);
  }

  lemma Remembered(seen: seq<u16>, s: u16, window: nat)
    requires window > 0
    ensures s in RememberSeq(seen, s, window)
  {
    var r := RememberSeq(seen, s, window);
    assert r[|r| - 1] == s;
  }

  /** A frame is called a duplicate exactly if its number is among those received, and it is neither an
      acknowledgement nor a HELLO; a duplicate is not handed on. */
  lemma DuplicateExactly(cfg: SessionConfig, peer: Peer, f: AircFrame, now: Instant, addressed: bool, victim: u16)
    requires f.FragmentOk()
    ensures var (_, out) := Receive(cfg, peer, f, now, addressed, victim);
            && (out.duplicate <==> f.kind != Ack && f.kind != Hello && f.seqno in peer.seen)
            && (out.duplicate ==> out.deliver.None?)
  {
    ApplyAcksReceive(HelloReset(peer, f), AcksIn(f));
  }

  lemma {:induction false} ApplyAcksReceive(peer: Peer, acks: seq<OwedAck>)
    ensures ApplyAcks(peer, acks).0.seen == peer.seen
    decreases |acks|
  {
    if acks != [] {
      ApplyAcksReceive(ApplyAck(peer, acks[0]).0, acks[1..]);
    }
  }
}
