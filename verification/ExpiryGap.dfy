/** Why a release proves delivery for some messages only: a reassembly entry that expires reports in
    a bitmap the fragments it is discarding. Here is the run in which the sender takes them for
    delivered, for every message that can be cut in two, and for any configuration of the two
    stations: any frame size, any timeouts, any windows. */
module ExpiryGap {
  import opened Common
  import opened AircFrames
  import opened Session
  import opened TwoParty
  import opened TwoPartySafety

  /** Sent with or without an acknowledgement riding on it, the message is cut in at least two,
      and the receiver takes each of the fragments. */
  predicate Cuts(a: SessionConfig, b: SessionConfig, payload: seq<byte>, piggy: bool) {
    var chunks := ChunkPayload(payload, a.MaxPayload(), piggy);
    && (piggy ==> a.MaxPayload() > 2)
    && 2 <= |chunks| <= 255
    && forall i :: 0 <= i < |chunks| ==> |chunks[i]| <= b.MaxPayload()
  }

  datatype Plan = Plan(a: SessionConfig, b: SessionConfig, kind: Kind, payload: seq<byte>, piggy: bool) {
    predicate Ok() { kind != Ack && Cuts(a, b, payload, piggy) }

    function Chunks(): seq<seq<byte>> { ChunkPayload(payload, a.MaxPayload(), piggy) }

    function N(): nat { |Chunks()| }

    function Frames(): seq<AircFrame>
      requires Ok()
    {
      Fragments(kind, 1, Chunks(), SetBit(0, ACK_REQ))
    }

    /** Fragment `k`, marked as a retransmission. */
    function Again(k: nat): AircFrame
      requires Ok() && k < N()
    {
      Frames()[k].WithFlag(RETRY)
    }

    /** The last fragment is acknowledged, and the first `k`. */
    function Got(k: nat): seq<bool> {
      seq(N(), i requires 0 <= i < N() => i < k || i == N() - 1)
    }
  }

  /** The sender has message 1 in flight. */
  predicate Sending(e: Endpoint, pl: Plan, acked: seq<bool>)
    requires pl.Ok()
  {
    && e.peer.pending.Some? && e.peer.pending.value.frames == pl.Frames() && e.peer.pending.value.acked == acked
    && e.peer.reasm == map[]
    && 1 in e.log && e.log[1].kind == pl.kind && e.log[1].payload == pl.payload
  }

  /** The receiver has delivered nothing, and holds at most some of the first `k` fragments. */
  predicate Waits(e: Endpoint, pl: Plan, k: nat) {
    && e.cfg == pl.b && e.deliveries == [] && e.peer.seen == [] && e.peer.reasm.Keys <= {1}
    && (1 in e.peer.reasm ==>
          && |e.peer.reasm[1].parts| == pl.N()
          && forall i: nat :: i < pl.N() && e.peer.reasm[1].parts[i].Some? ==> i < k)
  }

  // ---- The receiver ----

  lemma AgainIs(pl: Plan, k: nat)
    requires pl.Ok() && k < pl.N()
    ensures var f := pl.Again(k);
            && f.kind == pl.kind && f.seqno == 1 && f.fragIndex == k && f.fragTotal == pl.N() && f.FragmentOk()
            && f.payload == pl.Chunks()[k] && AcksIn(f) == [] && f.WantsAck() && HasBit(f.flags, RETRY)
  {
    PutBitReads(SetBit(0, ACK_REQ), RETRY, true, ACK_REQ);
  }

  lemma OpensWithout(e: Endpoint, f: AircFrame, now: Instant)
    requires AcksIn(f) == []
    ensures var e0 := e.(peer := e.peer.(lastHeard := now));
            Opened(e, f, now) == if NewEpoch(e0.peer, f) then DropSession(e0, HelloReset(e0.peer, f)) else e0
  {
  }

  /** A fragment more is stored, and reported. */
  lemma StoresAgain(e: Endpoint, pl: Plan, k: nat, now: Instant)
    requires pl.Ok() && k + 1 < pl.N() && Waits(e, pl, k)
    ensures !NeedsRoom(e.cfg, e.peer, pl.Again(k))
    ensures pl.Again(k).FragmentOk()
    ensures var e' := Accepted(e, pl.Again(k), now, true, 0);
            && Waits(e', pl, k + 1)
            && e'.peer.owedAck.Some? && Reports(e'.peer.owedAck.value, k)
  {
    var f := pl.Again(k);
    AgainIs(pl, k);
    if 1 !in e.peer.reasm {
      assert e.peer.reasm.Keys == {};
      assert |e.peer.reasm| == |e.peer.reasm.Keys| == 0;
    }
    var entry := AddFragment(EntryFor(e.peer.reasm, f, now, true), f, true);
    assert entry.parts[pl.N() - 1].None?;
    forall i: nat ensures BitOf(Bitmap(entry.parts), i) <==> i < |entry.parts| && entry.parts[i].Some? {
      BitmapReports(entry.parts, i);
    }
  }

  /** An acknowledgement that reports fragment `k` of message 1, and none beyond. */
  ghost predicate Reports(ack: OwedAck, k: nat) {
    && ack.seqno == 1 && ack.bitmap.Some? && |ack.bitmap.value| > 0
    && BitOf(ack.bitmap.value, k)
    && forall i: nat :: BitOf(ack.bitmap.value, i) ==> i <= k
  }

  lemma HearsAgain(e: Endpoint, pl: Plan, k: nat, now: Instant)
    requires pl.Ok() && k + 1 < pl.N() && Waits(e, pl, k)
    ensures pl.Again(k).FragmentOk() && EvictsOldest(e, pl.Again(k), now, 0)
    ensures var e' := Heard(e, Packet(pl.Again(k), true), now, 0);
            && Waits(e', pl, k + 1)
            && e'.peer.owedAck.Some? && Reports(e'.peer.owedAck.value, k)
  {
    AgainIs(pl, k);
    OpensWithout(e, pl.Again(k), now);
    StoresAgain(Opened(e, pl.Again(k), now), pl, k, now);
  }

  /** No message of its own is waiting for a timer. */
  predicate Unkeyed(e: Endpoint) {
    e.peer.pending.Some? ==> e.peer.pending.value.nextRetry.None?
  }

  /** The receiver holds the last fragment, since time 0, and nothing else. */
  predicate HasLast(e: Endpoint, pl: Plan)
    requires pl.Ok()
  {
    && e.cfg == pl.b && e.deliveries == [] && e.peer.seen == [] && e.peer.reasm.Keys == {1} && Unkeyed(e)
    && var r := e.peer.reasm[1];
       && r.started == 0 && r.wantAck && |r.parts| == pl.N()
       && forall i: nat :: i < pl.N() ==> (r.parts[i].Some? <==> i == pl.N() - 1)
  }

  lemma HearsLast(e: Endpoint, pl: Plan)
    requires pl.Ok() && Waits(e, pl, 0) && e.peer.reasm == map[] && Unkeyed(e)
    ensures var f := pl.Frames()[pl.N() - 1];
            && f.FragmentOk() && EvictsOldest(e, f, 0, 0)
            && HasLast(Heard(e, Packet(f, true), 0, 0), pl)
  {
    var f := pl.Frames()[pl.N() - 1];
    assert f.WantsAck() && AcksIn(f) == [];
    OpensWithout(e, f, 0);
    StoresLast(Opened(e, f, 0), pl);
  }

  lemma StoresLast(e: Endpoint, pl: Plan)
    requires pl.Ok() && Waits(e, pl, 0) && e.peer.reasm == map[] && Unkeyed(e)
    ensures var f := pl.Frames()[pl.N() - 1];
            f.FragmentOk() && HasLast(Accepted(e, f, 0, true, 0), pl)
  {
    var f := pl.Frames()[pl.N() - 1];
    assert f.WantsAck();
    var entry := AddFragment(FreshEntry(f, 0, true), f, true);
    assert entry.parts[0].None?;
  }

  lemma Expires(e: Endpoint, pl: Plan) returns (bits: seq<byte>)
    requires pl.Ok() && HasLast(e, pl)
    ensures Enumerates([1 as u16], Expired(e.cfg, e.peer, pl.b.reassemblyTimeout))
    ensures var e' := TwoParty.Ticked(e, pl.b.reassemblyTimeout, true, [1]);
            && Waits(e', pl, 0)
            && Packet(OwedFrame(OwedAck(1, Some(bits))), true) in e'.air
    ensures |bits| > 0 && forall i: nat :: BitOf(bits, i) <==> i == pl.N() - 1
  {
    var now, order, parts := pl.b.reassemblyTimeout, [1 as u16], e.peer.reasm[1].parts;
    bits := Bitmap(parts);
    forall i: nat ensures BitOf(bits, i) <==> i == pl.N() - 1 {
      BitmapReports(parts, i);
    }
    assert Expired(e.cfg, e.peer, now) == {1};
    assert ExpiryAcksPrefix(e.peer, order, 0) == [];
    var f := OwedFrame(OwedAck(1, Some(bits)));
    assert ExpiryAcks(e.peer, order) == [f];
    assert [f][0] in [f];
    assert e.peer.reasm - {1} == map[];
  }

  // ---- The sender ----

  lemma {:induction false} HoleIn(frames: seq<AircFrame>, acked: seq<bool>, n: nat, i: nat)
    requires i < n <= |frames| == |acked| && !acked[i]
    ensures frames[i].WithFlag(RETRY) in HolesPrefix(frames, acked, n)
  {
    var f := frames[n - 1].WithFlag(RETRY);
    if i < n - 1 {
      HoleIn(frames, acked, n - 1, i);
    } else {
      assert [f][0] in [f];
    }
  }

  lemma HearsBitmap(e: Endpoint, bits: seq<byte>, now: Instant)
    requires e.peer.reasm == map[] && |bits| > 0
    ensures var ack := OwedAck(1, Some(bits));
            && OwedFrame(ack).FragmentOk() && EvictsOldest(e, OwedFrame(ack), now, 0)
            && Heard(e, Packet(OwedFrame(ack), true), now, 0) == Acked(e.(peer := e.peer.(lastHeard := now)), ack)
  {
    var ack := OwedAck(1, Some(bits));
    OwedFrameParses(ack);
    assert AcksIn(OwedFrame(ack)) == [ack];
    var e0 := e.(peer := e.peer.(lastHeard := now));
    assert AckedAll(Acked(e0, ack), [ack][1..]) == Acked(e0, ack);
  }

  /** A bitmap that is not the last one is merged, and the holes repeated. */
  lemma Merges(e: Endpoint, pl: Plan, acked: seq<bool>, bits: seq<byte>, now: Instant)
    requires pl.Ok() && Sending(e, pl, acked) && |acked| == pl.N() && |bits| > 0
    requires MergeAcked(acked, bits) != acked && !AllTrue(MergeAcked(acked, bits))
    ensures var ack := OwedAck(1, Some(bits));
            var e' := Heard(e, Packet(OwedFrame(ack), true), now, 0);
            && Sending(e', pl, MergeAcked(acked, bits)) && e.air <= e'.air
            && forall i: nat :: i < pl.N() && !MergeAcked(acked, bits)[i] ==> Packet(pl.Again(i), true) in e'.air
  {
    HearsBitmap(e, bits, now);
    var merged := MergeAcked(acked, bits);
    forall i: nat | i < pl.N() && !merged[i] ensures pl.Again(i) in Holes(pl.Frames(), merged) {
      HoleIn(pl.Frames(), merged, pl.N(), i);
    }
  }

  /** The last bitmap releases the message. */
  lemma Releases(e: Endpoint, pl: Plan, acked: seq<bool>, bits: seq<byte>, now: Instant)
    requires pl.Ok() && Sending(e, pl, acked) && |acked| == pl.N() && |bits| > 0 && AllTrue(MergeAcked(acked, bits))
    ensures var ack := OwedAck(1, Some(bits));
            var e' := Heard(e, Packet(OwedFrame(ack), true), now, 0);
            1 in e'.released && e'.log == e.log
  {
    HearsBitmap(e, bits, now);
  }

  lemma Sends(e: Endpoint, pl: Plan)
    requires pl.Ok() && e.cfg == pl.a && e.nextSeq == 1 && e.peer.pending.None? && e.peer.reasm == map[]
    requires PiggybackFor(e.cfg, e.peer, true).Some? == pl.piggy
    ensures var e' := Sent(e, pl.kind, pl.payload, true, 0);
            Sending(e', pl, seq(pl.N(), _ => false)) && Packet(pl.Frames()[pl.N() - 1], true) in e'.air
  {
    var e0 := e.(peer := e.peer.(lastHeard := 0));
    var m := Message(pl.kind, pl.payload, pl.Chunks());
    var piggy := PiggybackFor(e.cfg, e0.peer, true);
    SentShape(e0, m, piggy, true);
    assert Sent(e, pl.kind, pl.payload, true, 0) == Sent(e0, pl.kind, pl.payload, true, 0);
    var out := Launch(pl.Frames(), piggy);
    assert out[pl.N() - 1] == pl.Frames()[pl.N() - 1] && out[pl.N() - 1] in out;
  }

  // ---- The run ----

  type Run = Trace<World, Act>

  ghost predicate Ok(pl: Plan, r: Run) { IsRun(pl.a, pl.b, r.states, r.events) }

  lemma Extend(pl: Plan, r: Run, act: Act, w: World) returns (r': Run)
    requires Ok(pl, r) && Possible(r.Last(), act) && w == Next(r.Last(), act)
    ensures Ok(pl, r') && r'.Last() == w
  {
    r' := r.Then(act, w);
    r.ThenKeeps(act, w);
  }

  /** The sender hears a bitmap that is on the air. */
  lemma Tell(pl: Plan, r: Run, bits: seq<byte>, now: Instant) returns (r': Run)
    requires pl.Ok() && Ok(pl, r) && |bits| > 0 && r.Last().left.peer.reasm == map[]
    requires Packet(OwedFrame(OwedAck(1, Some(bits))), true) in r.Last().right.air
    ensures OwedFrame(OwedAck(1, Some(bits))).FragmentOk()
    ensures Ok(pl, r')
    ensures r'.Last() == World(Heard(r.Last().left, Packet(OwedFrame(OwedAck(1, Some(bits))), true), now, 0), r.Last().right)
  {
    var w, packet := r.Last(), Packet(OwedFrame(OwedAck(1, Some(bits))), true);
    HearsBitmap(w.left, bits, now);
    r' := Extend(pl, r, Act(true, Hear(packet, now, 0)), World(Heard(w.left, packet, now, 0), w.right));
  }

  /** The receiver hears fragment `k` again, and reports it. */
  lemma Repeat(pl: Plan, r: Run, k: nat, now: Instant) returns (r': Run, bits: seq<byte>)
    requires pl.Ok() && k + 1 < pl.N() && Ok(pl, r) && Waits(r.Last().right, pl, k)
    requires Packet(pl.Again(k), true) in r.Last().left.air
    ensures Ok(pl, r') && r'.Last().left == r.Last().left && Waits(r'.Last().right, pl, k + 1)
    ensures Reports(OwedAck(1, Some(bits)), k) && Packet(OwedFrame(OwedAck(1, Some(bits))), true) in r'.Last().right.air
  {
    var w, packet := r.Last(), Packet(pl.Again(k), true);
    HearsAgain(w.right, pl, k, now);
    r' := Extend(pl, r, Act(false, Hear(packet, now, 0)), World(w.left, Heard(w.right, packet, now, 0)));
    r', bits := Report(pl, r', k);
  }

  lemma Report(pl: Plan, r: Run, k: nat) returns (r': Run, bits: seq<byte>)
    requires pl.Ok() && Ok(pl, r) && Waits(r.Last().right, pl, k + 1)
    requires r.Last().right.peer.owedAck.Some? && Reports(r.Last().right.peer.owedAck.value, k)
    ensures Ok(pl, r') && r'.Last().left == r.Last().left && Waits(r'.Last().right, pl, k + 1)
    ensures Reports(OwedAck(1, Some(bits)), k) && Packet(OwedFrame(OwedAck(1, Some(bits))), true) in r'.Last().right.air
  {
    var e := r.Last().right;
    bits := e.peer.owedAck.value.bitmap.value;
    var f := OwedFrame(OwedAck(1, Some(bits)));
    assert [f][0] in [f];
    r' := Extend(pl, r, Act(false, DrainAcks), World(r.Last().left, Drained(e)));
  }

  lemma MergesNext(pl: Plan, k: nat, bits: seq<byte>)
    requires pl.Ok() && k + 1 < pl.N() && Reports(OwedAck(1, Some(bits)), k)
    ensures MergeAcked(pl.Got(k), bits) == pl.Got(k + 1) != pl.Got(k)
    ensures AllTrue(pl.Got(k + 1)) <==> k + 2 == pl.N()
  {
    assert pl.Got(k + 1)[k] && !pl.Got(k)[k];
    if k + 2 < pl.N() {
      assert !pl.Got(k + 1)[k + 1];
    }
  }

  /** One fragment after the other is repeated, reported and acknowledged, the last one never. */
  lemma {:induction false} Rest(pl: Plan, r: Run, k: nat, now: Instant) returns (r': Run)
    requires pl.Ok() && k + 1 < pl.N() && Ok(pl, r)
    requires Sending(r.Last().left, pl, pl.Got(k)) && Waits(r.Last().right, pl, k)
    requires forall i: nat :: i + 1 < pl.N() ==> Packet(pl.Again(i), true) in r.Last().left.air
    ensures Ok(pl, r') && Faked(r'.Last(), pl)
    decreases pl.N() - k
  {
    var bits;
    r', bits := Repeat(pl, r, k, now);
    MergesNext(pl, k, bits);
    var e := r'.Last().left;
    r' := Tell(pl, r', bits, now);
    if k + 2 == pl.N() {
      Releases(e, pl, pl.Got(k), bits, now);
    } else {
      Merges(e, pl, pl.Got(k), bits, now);
      r' := Rest(pl, r', k + 1, now);
    }
  }

  /** Message 1 is released and the receiver has delivered nothing. */
  predicate Faked(w: World, pl: Plan) {
    && 1 in w.left.released && 1 in w.left.log && w.left.log[1].kind == pl.kind && w.left.log[1].payload == pl.payload
    && w.right.deliveries == []
  }

  /** An empty message of the receiver's own. */
  const EMPTY := AircFrame(Msg, SetBit(0, ACK_REQ), 1, 0, 1, [], None)

  lemma SendsEmpty(e: Endpoint, cfg: SessionConfig)
    requires e == Fresh(cfg, 0)
    ensures var e' := Sent(e, Msg, [], true, 0);
            && Packet(EMPTY, true) in e'.air && e'.cfg == cfg && Unkeyed(e')
            && e'.deliveries == [] && e'.peer.seen == [] && e'.peer.reasm == map[]
  {
    SentShape(e, Message(Msg, [], [[]]), None, true);
    assert Fragments(Msg, 1, [[]], SetBit(0, ACK_REQ)) == [EMPTY] && [EMPTY][0] in [EMPTY];
  }

  lemma OwesOne(e: Endpoint, cfg: SessionConfig)
    requires e == Fresh(cfg, 0)
    ensures EvictsOldest(e, EMPTY, 0, 0)
    ensures var e' := Heard(e, Packet(EMPTY, true), 0, 0);
            && e'.cfg == cfg && e'.nextSeq == 1 && e'.allocs == 0 && e'.peer.pending.None? && e'.peer.reasm == map[]
            && e'.peer.owedAck == Some(OwedAck(1, None))
  {
    assert AcksIn(EMPTY) == [];
    OpensWithout(e, EMPTY, 0);
  }

  /** Two stations, the first of which owes the other an acknowledgement if one is to ride along. */
  lemma Prelude(pl: Plan) returns (r: Run)
    requires pl.Ok()
    ensures Ok(pl, r) && Waits(r.Last().right, pl, 0) && r.Last().right.peer.reasm == map[] && Unkeyed(r.Last().right)
    ensures var e := r.Last().left;
            && e.cfg == pl.a && e.nextSeq == 1 && e.allocs == 0 && e.peer.pending.None? && e.peer.reasm == map[]
            && PiggybackFor(e.cfg, e.peer, true).Some? == pl.piggy
  {
    var w := World(Fresh(pl.a, 0), Fresh(pl.b, 0));
    r := Trace([w], []);
    if pl.piggy {
      SendsEmpty(w.right, pl.b);
      OwesOne(w.left, pl.a);
      var right := Sent(w.right, Msg, [], true, 0);
      r := Extend(pl, r, Act(false, Send(Msg, [], true, 0)), World(w.left, right));
      r := Extend(pl, r, Act(true, Hear(Packet(EMPTY, true), 0, 0)), World(Heard(w.left, Packet(EMPTY, true), 0, 0), right));
    }
  }

  lemma Launched(pl: Plan) returns (r: Run)
    requires pl.Ok()
    ensures Ok(pl, r) && Waits(r.Last().right, pl, 0) && r.Last().right.peer.reasm == map[] && Unkeyed(r.Last().right)
    ensures Sending(r.Last().left, pl, seq(pl.N(), _ => false))
    ensures Packet(pl.Frames()[pl.N() - 1], true) in r.Last().left.air
  {
    r := Prelude(pl);
    var w := r.Last();
    Sends(w.left, pl);
    r := Extend(pl, r, Act(true, Send(pl.kind, pl.payload, true, 0)), World(Sent(w.left, pl.kind, pl.payload, true, 0), w.right));
  }

  lemma Begin(pl: Plan) returns (r: Run)
    requires pl.Ok()
    ensures Ok(pl, r) && Sending(r.Last().left, pl, seq(pl.N(), _ => false)) && HasLast(r.Last().right, pl)
  {
    r := Launched(pl);
    var w, packet := r.Last(), Packet(pl.Frames()[pl.N() - 1], true);
    HearsLast(w.right, pl);
    r := Extend(pl, r, Act(false, Hear(packet, 0, 0)), World(w.left, Heard(w.right, packet, 0, 0)));
  }

  /** A run in which the sender releases the message as complete, and the receiver, whose entry
      expired in between, never delivers it. */
  lemma ExpiryFakesCompletion(pl: Plan) returns (r: Run)
    requires pl.Ok()
    ensures IsRun(pl.a, pl.b, r.states, r.events) && Faked(r.Last(), pl)
  {
    r := Begin(pl);
    var w, now := r.Last(), pl.b.reassemblyTimeout;
    var bits := Expires(w.right, pl);
    r := Extend(pl, r, Act(false, Tick(now, true, [1])), World(w.left, TwoParty.Ticked(w.right, now, true, [1])));
    var none := seq(pl.N(), _ => false);
    assert MergeAcked(none, bits) == pl.Got(0);
    assert pl.Got(0)[pl.N() - 1] && !none[pl.N() - 1] && !pl.Got(0)[0];
    Merges(w.left, pl, none, bits, now);
    r := Tell(pl, r, bits, now);
    r := Rest(pl, r, 0, now);
  }
}
