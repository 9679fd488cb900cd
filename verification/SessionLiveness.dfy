/** What the session layer can always still do: acknowledge again what it has, and finish what is
    in flight. */
module SessionLiveness {
  import opened Common
  import opened AircFrames
  import opened Session
  import opened TwoParty
  import opened TwoPartySafety
  import opened SessionProgress

  // ---- Acknowledging what is there already ----

  /** An acknowledgement of all of message `s`. */
  predicate Acknowledges(p: Packet, s: u16) {
    && p.addressed && p.frame.kind == Ack && p.frame.FragmentOk() && p.frame.piggyback.None?
    && ParseAck(p.frame.payload) == Some(OwedAck(s, None))
  }

  /** The acknowledgements in a frame concern what was sent, not what was received. */
  lemma {:induction false} AckedAllReceives(e: Endpoint, acks: seq<OwedAck>)
    ensures var e' := AckedAll(e, acks);
            && e'.cfg == e.cfg && e'.delivered == e.delivered
            && e'.peer.seen == e.peer.seen && e'.peer.reasm == e.peer.reasm && e'.peer.owedAck == e.peer.owedAck
    decreases |acks|
  {
    if acks != [] {
      AckedAllReceives(Acked(e, acks[0]), acks[1..]);
    }
  }

  lemma OpenedReceives(e: Endpoint, f: AircFrame, now: Instant)
    ensures Opened(e, f, now).cfg == e.cfg
    ensures !NewEpoch(e.peer, f) ==>
              var e' := Opened(e, f, now);
              e'.peer.seen == e.peer.seen && e'.peer.reasm == e.peer.reasm && e'.peer.owedAck == e.peer.owedAck
  {
    AckedAllReceives(ResetFor(e.(peer := e.peer.(lastHeard := now)), f), AcksIn(f));
  }

  lemma DrainAcknowledges(e: Endpoint, s: u16)
    requires e.peer.owedAck == Some(OwedAck(s, None))
    ensures exists q :: q in Drained(e).air && Acknowledges(q, s)
  {
    var f := OwedFrame(OwedAck(s, None));
    OwedFrameParses(OwedAck(s, None));
    assert [f][0] in [f];
    assert Packet(f, true) in Drained(e).air && Acknowledges(Packet(f, true), s);
  }

  /** A message received before is acknowledged again whenever a copy of it asks for that. */
  lemma RepeatIsAcknowledged(e: Endpoint, packet: Packet, now: Instant, victim: u16)
    requires packet.addressed && packet.frame.FragmentOk() && packet.frame.WantsAck() && packet.frame.kind != Ack
    requires packet.frame.seqno in e.peer.seen && !NewEpoch(e.peer, packet.frame)
    ensures var e' := Does(Does(e, Hear(packet, now, victim)), DrainAcks);
            exists q :: q in e'.air && Acknowledges(q, packet.frame.seqno)
  {
    OpenedReceives(e, packet.frame, now);
    DrainAcknowledges(Heard(e, packet, now, victim), packet.frame.seqno);
  }

  /** Hearing it releases the message at a sender that has it in flight. */
  lemma AcknowledgedIsReleased(e: Endpoint, packet: Packet, s: u16, now: Instant, victim: u16)
    requires Acknowledges(packet, s)
    requires e.peer.pending.Some? && |e.peer.pending.value.frames| > 0 && e.peer.pending.value.frames[0].seqno == s
    ensures s in Does(e, Hear(packet, now, victim)).released
  {
    var ack := OwedAck(s, None);
    assert AcksIn(packet.frame) == [ack];
    var e0 := e.(peer := e.peer.(lastHeard := now));
    assert AckedAll(Acked(e0, ack), [ack][1..]) == Acked(e0, ack);
  }

  // ---- Finishing what is in flight ----

  lemma {:induction false} OldestExists<K(!new)>(stamps: map<K, Instant>) returns (k: K)
    requires |stamps| > 0
    ensures IsOldest(stamps, k)
    decreases |stamps|
  {
    assert stamps.Keys != {};
    k :| k in stamps.Keys;
    var rest := stamps - {k};
    assert rest.Keys == stamps.Keys - {k} && |rest| == |rest.Keys| && |stamps| == |stamps.Keys|;
    if |rest| == 0 {
      assert rest.Keys == {};
      assert forall i :: i in stamps ==> i == k;
    }
    if |rest| > 0 {
      var j := OldestExists(rest);
      assert forall i :: i in stamps && i != k ==> i in rest && rest[i] == stamps[i];
      if stamps[j] < stamps[k] {
        k := j;
      }
    }
  }

  lemma VictimExists(e: Endpoint, f: AircFrame, now: Instant) returns (victim: u16)
    ensures EvictsOldest(e, f, now, victim)
  {
    victim := 0;
    var e1 := Opened(e, f, now);
    if NeedsRoom(e1.cfg, e1.peer, f) {
      var stamps := Stamps(e1.peer.reasm);
      assert stamps.Keys == e1.peer.reasm.Keys;
      assert |stamps| == |stamps.Keys| && |e1.peer.reasm| == |e1.peer.reasm.Keys|;
      victim := OldestExists(stamps);
    }
  }

  /** The receiver owes the acknowledgement of all of `s`. */
  predicate Settled(e: Endpoint, s: u16) {
    e.peer.owedAck == Some(OwedAck(s, None))
  }

  /** The first `k` fragments of `s` are in hand. */
  predicate Holds(e: Endpoint, s: u16, n: nat, k: nat) {
    k > 0 ==>
      && s in e.peer.reasm && |e.peer.reasm[s].parts| == n
      && forall i: nat :: i < k && i < n ==> e.peer.reasm[s].parts[i].Some?
  }

  /** The receiver takes the fragments of this message: they fit, and no HELLO is cut in several. */
  predicate Takes(cfg: SessionConfig, m: Message) {
    |m.chunks| == 1 || (m.kind != Hello && forall i :: 0 <= i < |m.chunks| ==> |m.chunks[i]| <= cfg.MaxPayload())
  }

  lemma AcceptsNext(e: Endpoint, m: Message, s: u16, i: nat, p: Packet, now: Instant, victim: u16)
    requires Carries(m, s, i, p) && p.frame.FragmentOk() && Takes(e.cfg, m) && Holds(e, s, |m.chunks|, i)
    ensures var e' := Accepted(e, p.frame, now, true, victim);
            Settled(e', s) || (|m.chunks| > 1 && Holds(e', s, |m.chunks|, i + 1))
  {
    var f := p.frame;
    if f.seqno !in e.peer.seen && f.fragTotal != 1 {
      AcceptsPart(e.cfg, e.peer, m, s, i, p, now, victim);
      AcceptedIsAccept(e, f, now, true, victim);
    }
  }

  lemma AcceptsPart(cfg: SessionConfig, peer: Peer, m: Message, s: u16, i: nat, p: Packet, now: Instant, victim: u16)
    requires Carries(m, s, i, p) && p.frame.FragmentOk() && |p.frame.payload| <= cfg.MaxPayload()
    requires i > 0 ==> s in peer.reasm && |peer.reasm[s].parts| == |m.chunks|
    requires i > 0 ==> forall j: nat :: j < i && j < |m.chunks| ==> peer.reasm[s].parts[j].Some?
    ensures var p' := AcceptFragment(cfg, peer, p.frame, now, true, victim).0;
            || p'.owedAck == Some(OwedAck(s, None))
            || (s in p'.reasm && |p'.reasm[s].parts| == |m.chunks| && forall j: nat :: j <= i ==> p'.reasm[s].parts[j].Some?)
  {
    var room := MakeRoom(cfg, peer, p.frame, victim);
    assert i > 0 ==> room == peer.reasm;
    var entry := AddFragment(EntryFor(room, p.frame, now, true), p.frame, true);
    assert forall j: nat :: j < i ==> entry.parts[j].Some?;
  }

  /** Each fragment heard in turn is kept until the message is complete. */
  lemma HearsNext(e: Endpoint, m: Message, s: u16, i: nat, p: Packet, now: Instant, victim: u16)
    requires Carries(m, s, i, p) && p.frame.FragmentOk() && Takes(e.cfg, m) && m.kind != Ack && Holds(e, s, |m.chunks|, i)
    ensures var e' := Heard(e, p, now, victim);
            Settled(e', s) || (|m.chunks| > 1 && Holds(e', s, |m.chunks|, i + 1))
  {
    OpenedReceives(e, p.frame, now);
    assert NewEpoch(e.peer, p.frame) ==> |m.chunks| == 1 && i == 0;
    AcceptsNext(Opened(e, p.frame, now), m, s, i, p, now, victim);
  }

  type Run = Trace<World, Act>

  ghost predicate Ok(a: SessionConfig, b: SessionConfig, r: Run) { IsRun(a, b, r.states, r.events) }

  lemma Extend(a: SessionConfig, b: SessionConfig, r: Run, act: Act) returns (r': Run)
    requires Ok(a, b, r) && Possible(r.Last(), act)
    requires act.event.Hear? ==> act.event.packet.frame.FragmentOk()
    ensures Ok(a, b, r') && r'.Last() == Next(r.Last(), act) && r.states <= r'.states && r.events <= r'.events
  {
    var w := Next(r.Last(), act);
    r' := r.Then(act, w);
    r.ThenKeeps(act, w);
  }

  lemma HeldIsIncomplete(e: Endpoint, s: u16, n: nat)
    requires PeerOk(e.peer) && n > 0
    ensures !Holds(e, s, n, n)
  {
  }

  /** The receiver hears the fragments from `i` on, until it owes the whole. */
  lemma {:induction false} Hears(a: SessionConfig, b: SessionConfig, r: Run, s: u16, i: nat, now: Instant) returns (r': Run)
    requires Ok(a, b, r) && AllAirborne(r.Last().left, s)
    requires var m := r.Last().left.log[s];
             m.kind != Ack && Takes(b, m) && r.Last().right.cfg == b && i < |m.chunks| && Holds(r.Last().right, s, |m.chunks|, i)
    ensures Ok(a, b, r') && r.states <= r'.states && r.events <= r'.events
    ensures r'.Last().left == r.Last().left && Settled(r'.Last().right, s)
    decreases |r.Last().left.log[s].chunks| - i
  {
    var w := r.Last();
    var m := w.left.log[s];
    assert Airborne(w.left.air, m, s, i);
    var p :| p in w.left.air && Carries(m, s, i, p);
    assert p.frame.FragmentOk();
    var victim := VictimExists(w.right, p.frame, now);
    HearsNext(w.right, m, s, i, p, now, victim);
    r' := Extend(a, b, r, Act(false, Hear(p, now, victim)));
    if !Settled(r'.Last().right, s) {
      RunKeeps(a, b, r'.states, r'.events, |r'.events|);
      HeldIsIncomplete(r'.Last().right, s, |m.chunks|);
      OpenedReceives(w.right, p.frame, now);
      KeepsConfig(w.right, p, now, victim);
      r' := Hears(a, b, r', s, i + 1, now);
    }
  }

  lemma KeepsConfig(e: Endpoint, p: Packet, now: Instant, victim: u16)
    requires p.frame.FragmentOk()
    ensures Heard(e, p, now, victim).cfg == e.cfg
  {
    OpenedReceives(e, p.frame, now);
  }

  lemma {:induction false} Configs(a: SessionConfig, b: SessionConfig, worlds: seq<World>, acts: seq<Act>, n: nat)
    requires IsRun(a, b, worlds, acts) && n < |worlds|
    ensures worlds[n].left.cfg == a && worlds[n].right.cfg == b
  {
    if n > 0 {
      Configs(a, b, worlds, acts, n - 1);
      var w, act := worlds[n - 1], acts[n - 1];
      assert Possible(w, act);
      if act.event.Hear? {
        KeepsConfig(if act.left then w.left else w.right, act.event.packet, act.event.now, act.event.victim);
      }
    }
  }

  /** No message in flight is ever stuck: whatever happened before, a run can go on so that the
      receiver delivers it and the sender releases it, if the receiver takes its fragments. */
  lemma NeverStuck(a: SessionConfig, b: SessionConfig, r: Run, now: Instant) returns (r': Run, s: u16)
    requires Ok(a, b, r) && r.Last().left.peer.pending.Some?
    requires forall i :: i in r.Last().left.log && AckMatches(r.Last().left.peer, i) ==> Takes(b, r.Last().left.log[i])
    ensures Ok(a, b, r') && r.states <= r'.states && r.events <= r'.events
    ensures |r.Last().left.peer.pending.value.frames| > 0 && s == r.Last().left.peer.pending.value.frames[0].seqno
    ensures s in r'.Last().left.released && s in r'.Last().right.delivered
  {
    var n, w := |r.events|, r.Last();
    RunKeeps(a, b, r.states, r.events, n);
    RunStarts(a, b, r.states, r.events, n);
    Configs(a, b, r.states, r.events, n);
    s := w.left.peer.pending.value.frames[0].seqno;
    assert MessageOk(w.left.log[s]) && AckMatches(w.left.peer, s);
    r' := Hears(a, b, r, s, 0, now);
    r' := Finishes(a, b, r', s, now);
  }

  /** What the receiver owes is sent, heard, and ends the matter. */
  lemma Finishes(a: SessionConfig, b: SessionConfig, r: Run, s: u16, now: Instant) returns (r': Run)
    requires Ok(a, b, r) && Settled(r.Last().right, s)
    requires var p := r.Last().left.peer.pending; p.Some? && |p.value.frames| > 0 && p.value.frames[0].seqno == s
    ensures Ok(a, b, r') && r.states <= r'.states && r.events <= r'.events
    ensures s in r'.Last().left.released && s in r'.Last().right.delivered
  {
    RunKeeps(a, b, r.states, r.events, |r.events|);
    assert ClaimOk(r.Last().right, OwedAck(s, None));
    DrainAcknowledges(r.Last().right, s);
    r' := Extend(a, b, r, Act(false, DrainAcks));
    var w := r'.Last();
    var q :| q in w.right.air && Acknowledges(q, s);
    var victim := VictimExists(w.left, q.frame, now);
    AcknowledgedIsReleased(w.left, q, s, now, victim);
    r' := Extend(a, b, r', Act(true, Hear(q, now, victim)));
  }
}
