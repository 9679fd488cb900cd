/** The session table, updated in place. Each method is proved against the functions of `Session`. */
module SessionTable {
  import opened Common
  import opened AircFrames
  import opened Callsigns
  import opened Session

  // ---- Loops over one peer entry ----

  method SetBitmap(parts: seq<Option<seq<byte>>>) returns (b: seq<byte>)
    ensures b == Bitmap(parts)
  {
    b := seq(Max(1, (|parts| + 7) / 8), _ => 0);
    for i := 0 to |parts|
      invariant b == BitmapPrefix(parts, i)
    {
      if parts[i].Some? {
        b := b[i / 8 := SetBit(b[i / 8], i % 8)];
      }
    }
  }

  method SplitPayload(p: seq<byte>, max: nat, piggy: bool) returns (out: seq<seq<byte>>)
    requires max >= 1
    ensures out == ChunkPayload(p, max, piggy)
  {
    if |p| == 0 {
      return [[]];
    }
    var first := if piggy then Max(1, max - 2) else max;
    if |p| <= first {
      return [p];
    }
    out := [p[..first]];
    var i := first;
    while i < |p|
      invariant first <= i <= |p|
      invariant ChunkPayload(p, max, piggy) == out + Chunks(p[i..], max)
    {
      var j := Min(i + max, |p|);
      out := out + [p[i..j]];
      if j < |p| {
        assert p[i..][..max] == p[i..j] && p[i..][max..] == p[j..];
      } else {
        assert p[i..] == p[i..j] && p[j..] == [];
      }
      i := j;
    }
  }

  method JoinParts(parts: seq<Option<seq<byte>>>) returns (payload: seq<byte>)
    ensures payload == Joined(parts)
  {
    payload := [];
    for i := 0 to |parts|
      invariant Joined(parts) == payload + Joined(parts[i..])
    {
      assert parts[i..][1..] == parts[i + 1..];
      if parts[i].Some? {
        payload := payload + parts[i].value;
      }
    }
  }

  method Remember(seen: seq<u16>, seqno: u16, window: nat) returns (s: seq<u16>)
    ensures s == RememberSeq(seen, seqno, window)
  {
    s := seen + [seqno];
    var all := s;
    while |s| > window
      invariant Min(|all|, window) <= |s| <= |all| && s == all[|all| - |s|..]
      decreases |s|
    {
      s := s[1..];
    }
  }

  method Acknowledge(peer: Peer, ack: OwedAck) returns (p: Peer, out: seq<AircFrame>)
    ensures (p, out) == ApplyAck(peer, ack)
  {
    p, out := peer, [];
    if !AckMatches(peer, ack.seqno) {
      return;
    }
    var pending := peer.pending.value;
    if ack.bitmap.Some? {
      var acked, progress := pending.acked, false;
      for i := 0 to |acked|
        invariant |acked| == |pending.acked|
        invariant forall j :: 0 <= j < i ==> acked[j] == (pending.acked[j] || BitOf(ack.bitmap.value, j))
        invariant forall j :: i <= j < |acked| ==> acked[j] == pending.acked[j]
        invariant progress <==> acked != pending.acked
      {
        if BitOf(ack.bitmap.value, i) && !acked[i] {
          acked, progress := acked[i := true], true;
          assert acked[i] != pending.acked[i];
        }
      }
      assert acked == MergeAcked(pending.acked, ack.bitmap.value);
      if !AllTrue(acked) {
        if !progress {
          return;
        }
        p := peer.(pending := Some(Pending(pending.frames, acked, 0, None)));
        out := Retransmissions(pending.frames, acked);
        return;
      }
    }
    p, out := Advance(p);
  }

  method Retransmissions(frames: seq<AircFrame>, acked: seq<bool>) returns (out: seq<AircFrame>)
    ensures out == Holes(frames, acked)
  {
    out := [];
    for i := 0 to |frames|
      invariant out == HolesPrefix(frames, acked, i)
    {
      if !(i < |acked| && acked[i]) {
        out := out + [frames[i].WithFlag(RETRY)];
      }
    }
  }

  method Advance(peer: Peer) returns (p: Peer, out: seq<AircFrame>)
    ensures (p, out) == StartNext(peer)
  {
    p, out := peer.(pending := None), [];
    if p.queue != [] {
      out := p.queue[0];
      p := p.(queue := p.queue[1..], pending := Some(StartPending(out)));
    }
  }

  // ---- One tick over the whole table ----

  /** How far a tick has come in its walk over the table. */
  datatype Walk = Walk(
    peers: map<RawCallsign, Peer>,
    transmit: seq<(RawCallsign, AircFrame)>,
    lost: seq<RawCallsign>,
    giving: seq<RawCallsign>)

  /** Marks the position a fact is wanted at (a trigger). */
  predicate At(i: int) { true }

  /** `passes[i]` is what the first loop does at `order[i]`, whose expired entries it visits in the order `expiry[i]`. */
  ghost predicate PassesOf(cfg: SessionConfig, peers: map<RawCallsign, Peer>, order: seq<RawCallsign>, expiry: seq<seq<u16>>,
                           passes: seq<TickPass>, now: Instant, retry: bool)
  {
    && |order| == |passes| == |expiry| && Enumerates(order, peers.Keys)
    && forall i {:trigger At(i)} :: At(i) && 0 <= i < |order| ==>
         && Enumerates(expiry[i], Expired(cfg, peers[order[i]], now))
         && passes[i] == TickFirst(cfg, peers[order[i]], now, retry, expiry[i])
  }

  function FirstStep(w: Walk, c: RawCallsign, pass: TickPass): Walk {
    Walk(w.peers[c := pass.peer], w.transmit + Tagged(c, pass.transmit),
         w.lost + (if pass.lost then [c] else []), w.giving + (if pass.givingUp then [c] else []))
  }

  /** The first loop over the first `n` peers. */
  function FirstWalk(peers: map<RawCallsign, Peer>, order: seq<RawCallsign>, passes: seq<TickPass>, n: nat): Walk
    requires n <= |order| == |passes|
  {
    if n == 0 then Walk(peers, [], [], []) else FirstStep(FirstWalk(peers, order, passes, n - 1), order[n - 1], passes[n - 1])
  }

  function SecondStep(w: Walk, c: RawCallsign): Walk {
    if c !in w.peers then w
    else
      var (peer, out, stranded) := GiveUp(w.peers[c]);
      w.(peers := w.peers[c := peer], transmit := w.transmit + Tagged(c, out), lost := w.lost + (if stranded then [c] else []))
  }

  /** The second loop over the first `n` peers being given up on. */
  function SecondWalk(w: Walk, n: nat): Walk
    requires n <= |w.giving|
  {
    if n == 0 then w else SecondStep(SecondWalk(w, n - 1), w.giving[n - 1])
  }

  function WholeWalk(peers: map<RawCallsign, Peer>, order: seq<RawCallsign>, passes: seq<TickPass>): Walk
    requires |order| == |passes|
  {
    var w := FirstWalk(peers, order, passes, |order|);
    SecondWalk(w, |w.giving|)
  }

  function Without<V>(m: map<RawCallsign, V>, lost: seq<RawCallsign>): map<RawCallsign, V> {
    map c | c in m && c !in lost :: m[c]
  }

  /** One tick over the table: `order` and `expiry` are the iteration orders it happened to use. */
  ghost predicate Ticked(cfg: SessionConfig, before: map<RawCallsign, Peer>, order: seq<RawCallsign>, expiry: seq<seq<u16>>,
                         passes: seq<TickPass>, now: Instant, retry: bool,
                         transmit: seq<(RawCallsign, AircFrame)>, lost: seq<RawCallsign>, after: map<RawCallsign, Peer>)
  {
    && PassesOf(cfg, before, order, expiry, passes, now, retry)
    && var w := WholeWalk(before, order, passes);
       transmit == w.transmit && lost == w.lost && after == Without(w.peers, w.lost)
  }

  /** The frames meant for one peer, in order. */
  function Addressed(out: seq<(RawCallsign, AircFrame)>, c: RawCallsign): seq<AircFrame> {
    AddressedPrefix(out, c, |out|)
  }

  function AddressedPrefix(out: seq<(RawCallsign, AircFrame)>, c: RawCallsign, n: nat): seq<AircFrame>
    requires n <= |out|
  {
    if n == 0 then []
    else AddressedPrefix(out, c, n - 1) + (if out[n - 1].0 == c then [out[n - 1].1] else [])
  }

  lemma {:induction false} AddressedFirst(out: seq<(RawCallsign, AircFrame)>, more: seq<(RawCallsign, AircFrame)>, c: RawCallsign, n: nat)
    requires n <= |out|
    ensures AddressedPrefix(out + more, c, n) == AddressedPrefix(out, c, n)
  {
    if n > 0 {
      AddressedFirst(out, more, c, n - 1);
    }
  }

  lemma {:induction false} AddressedTaggedUpTo(out: seq<(RawCallsign, AircFrame)>, d: RawCallsign, frames: seq<AircFrame>,
                                               c: RawCallsign, n: nat)
    requires n <= |frames|
    ensures AddressedPrefix(out + Tagged(d, frames), c, |out| + n) == Addressed(out, c) + (if c == d then frames[..n] else [])
  {
    var all := out + Tagged(d, frames);
    if n == 0 {
      AddressedFirst(out, Tagged(d, frames), c, |out|);
      assert frames[..0] == [];
    } else {
      AddressedTaggedUpTo(out, d, frames, c, n - 1);
      assert all[|out| + n - 1] == (d, frames[n - 1]);
      assert frames[..n] == frames[..n - 1] + [frames[n - 1]];
    }
  }

  lemma AddressedTagged(out: seq<(RawCallsign, AircFrame)>, d: RawCallsign, frames: seq<AircFrame>, c: RawCallsign)
    ensures Addressed(out + Tagged(d, frames), c) == Addressed(out, c) + (if c == d then frames else [])
  {
    AddressedTaggedUpTo(out, d, frames, c, |frames|);
    assert frames[..|frames|] == frames;
  }

  predicate Untouched(w: Walk, c: RawCallsign, peer: Peer) {
    c in w.peers && w.peers[c] == peer && c !in w.lost && c !in w.giving
  }

  predicate Passed(w: Walk, c: RawCallsign, pass: TickPass) {
    && c in w.peers && w.peers[c] == pass.peer
    && (c in w.lost <==> pass.lost) && (c in w.giving <==> pass.givingUp)
  }

  predicate SameAt(w: Walk, r: Walk, c: RawCallsign) {
    && (c in w.peers <==> c in r.peers) && (c in w.peers ==> r.peers[c] == w.peers[c])
    && (c in r.lost <==> c in w.lost) && (c in r.giving <==> c in w.giving)
  }

  /** One step of the first loop settles the peer it visits and leaves every other alone. */
  lemma FirstStepAt(w: Walk, d: RawCallsign, pass: TickPass, c: RawCallsign)
    ensures c == d && c !in w.lost && c !in w.giving ==> Passed(FirstStep(w, d, pass), c, pass)
    ensures c != d ==> SameAt(w, FirstStep(w, d, pass), c)
  {
  }

  lemma {:induction false} FirstWalkAt(peers: map<RawCallsign, Peer>, order: seq<RawCallsign>, passes: seq<TickPass>, n: nat, k: nat)
    requires n <= |order| == |passes| && k < |order| && Distinct(order) && order[k] in peers
    ensures k >= n ==> Untouched(FirstWalk(peers, order, passes, n), order[k], peers[order[k]])
    ensures k < n ==> Passed(FirstWalk(peers, order, passes, n), order[k], passes[k])
  {
    if n > 0 {
      FirstWalkAt(peers, order, passes, n - 1, k);
      FirstStepAt(FirstWalk(peers, order, passes, n - 1), order[n - 1], passes[n - 1], order[k]);
    }
  }

  lemma {:induction false} FirstWalkSends(peers: map<RawCallsign, Peer>, order: seq<RawCallsign>, passes: seq<TickPass>, n: nat, k: nat)
    requires n <= |order| == |passes| && k < |order| && Distinct(order)
    ensures Addressed(FirstWalk(peers, order, passes, n).transmit, order[k]) == if k < n then passes[k].transmit else []
  {
    if n > 0 {
      FirstWalkSends(peers, order, passes, n - 1, k);
      var sent, more := FirstWalk(peers, order, passes, n - 1).transmit, passes[n - 1].transmit;
      AddressedTagged(sent, order[n - 1], more, order[k]);
      assert FirstWalk(peers, order, passes, n).transmit == sent + Tagged(order[n - 1], more);
      assert order[k] == order[n - 1] <==> k == n - 1;
      assert [] + more == more && passes[k].transmit + [] == passes[k].transmit;
    }
  }

  lemma {:induction false} GivingDistinct(peers: map<RawCallsign, Peer>, order: seq<RawCallsign>, passes: seq<TickPass>, n: nat)
    requires n <= |order| == |passes| && Distinct(order) && forall i :: 0 <= i < n ==> order[i] in peers
    ensures Distinct(FirstWalk(peers, order, passes, n).giving)
  {
    if n > 0 {
      GivingDistinct(peers, order, passes, n - 1);
      FirstWalkAt(peers, order, passes, n - 1, n - 1);
      StepDistinct(FirstWalk(peers, order, passes, n - 1), order[n - 1], passes[n - 1]);
    }
  }

  lemma StepDistinct(w: Walk, c: RawCallsign, pass: TickPass)
    requires Distinct(w.giving) && c !in w.giving
    ensures Distinct(FirstStep(w, c, pass).giving)
  {
  }

  lemma {:induction false} WalkKeys(peers: map<RawCallsign, Peer>, order: seq<RawCallsign>, passes: seq<TickPass>, n: nat)
    requires n <= |order| == |passes| && forall i :: 0 <= i < n ==> order[i] in peers
    ensures FirstWalk(peers, order, passes, n).peers.Keys == peers.Keys
  {
    if n > 0 {
      WalkKeys(peers, order, passes, n - 1);
    }
  }

  lemma {:induction false} SecondWalkKeys(w: Walk, n: nat)
    requires n <= |w.giving|
    ensures SecondWalk(w, n).peers.Keys == w.peers.Keys
  {
    if n > 0 {
      SecondWalkKeys(w, n - 1);
    }
  }

  predicate GaveUp(w: Walk, r: Walk, c: RawCallsign) {
    && c in w.peers && c in r.peers
    && r.peers[c] == GiveUp(w.peers[c]).0
    && (c in r.lost <==> c in w.lost || GiveUp(w.peers[c]).2)
  }

  lemma SecondStepAt(w: Walk, d: RawCallsign, c: RawCallsign)
    ensures c != d ==> SameAt(w, SecondStep(w, d), c)
    ensures c == d && c in w.peers ==> GaveUp(w, SecondStep(w, d), c)
  {
  }

  lemma {:induction false} SecondWalkKeeps(w: Walk, n: nat, c: RawCallsign)
    requires n <= |w.giving| && forall i :: 0 <= i < n ==> w.giving[i] != c
    ensures SameAt(w, SecondWalk(w, n), c) && Addressed(SecondWalk(w, n).transmit, c) == Addressed(w.transmit, c)
  {
    if n > 0 {
      SecondWalkKeeps(w, n - 1, c);
      var r, d := SecondWalk(w, n - 1), w.giving[n - 1];
      SecondStepAt(r, d, c);
      if d in r.peers {
        AddressedTagged(r.transmit, d, GiveUp(r.peers[d]).1, c);
      }
    }
  }

  lemma {:induction false} SecondWalkGivesUp(w: Walk, n: nat, k: nat)
    requires k < n <= |w.giving| && w.giving[k] in w.peers && Distinct(w.giving)
    ensures GaveUp(w, SecondWalk(w, n), w.giving[k])
    ensures Addressed(SecondWalk(w, n).transmit, w.giving[k]) == Addressed(w.transmit, w.giving[k]) + GiveUp(w.peers[w.giving[k]]).1
  {
    var r, d, c := SecondWalk(w, n - 1), w.giving[n - 1], w.giving[k];
    if k == n - 1 {
      SecondWalkKeeps(w, n - 1, c);
    } else {
      SecondWalkGivesUp(w, n - 1, k);
    }
    SecondStepAt(r, d, c);
    if d in r.peers {
      AddressedTagged(r.transmit, d, GiveUp(r.peers[d]).1, c);
    }
  }

  lemma Finishes(w: Walk, c: RawCallsign, pass: TickPass)
    requires Passed(w, c, pass) && Addressed(w.transmit, c) == pass.transmit && Distinct(w.giving) && !(pass.lost && pass.givingUp)
    ensures var r := SecondWalk(w, |w.giving|);
            var tick := Finish(pass);
            c in r.peers && r.peers[c] == tick.peer && Addressed(r.transmit, c) == tick.transmit && (c in r.lost <==> tick.lost)
  {
    if c in w.giving {
      var k :| 0 <= k < |w.giving| && w.giving[k] == c;
      SecondWalkGivesUp(w, |w.giving|, k);
    } else {
      SecondWalkKeeps(w, |w.giving|, c);
    }
  }

  /** However the table is walked, each peer gets its own tick: its frames, in order, and no
      others; it is reported lost and removed exactly when its own tick loses it. */
  lemma TickedAtEachPeer(cfg: SessionConfig, before: map<RawCallsign, Peer>, order: seq<RawCallsign>, expiry: seq<seq<u16>>,
                         passes: seq<TickPass>, now: Instant, retry: bool,
                         transmit: seq<(RawCallsign, AircFrame)>, lost: seq<RawCallsign>, after: map<RawCallsign, Peer>, k: nat)
    requires Ticked(cfg, before, order, expiry, passes, now, retry, transmit, lost, after) && k < |order|
    ensures var c := order[k];
            var tick := Tick(cfg, before[c], now, retry, expiry[k]);
            && Addressed(transmit, c) == tick.transmit
            && (c in lost <==> tick.lost)
            && (c in after <==> !tick.lost)
            && (c in after ==> after[c] == tick.peer)
  {
    assert At(k);
    FirstWalkAt(before, order, passes, |order|, k);
    FirstWalkSends(before, order, passes, |order|, k);
    GivingDistinct(before, order, passes, |order|);
    Finishes(FirstWalk(before, order, passes, |order|), order[k], passes[k]);
  }

  function Tagged(c: RawCallsign, frames: seq<AircFrame>): seq<(RawCallsign, AircFrame)> {
    seq(|frames|, i requires 0 <= i < |frames| => (c, frames[i]))
  }

  /** The acknowledgements drained from the first `n` peers of an iteration. */
  function DrainAll(peers: map<RawCallsign, Peer>, order: seq<RawCallsign>, n: nat): seq<(RawCallsign, AircFrame)>
    requires n <= |order| && forall i :: 0 <= i < |order| ==> order[i] in peers
  {
    if n == 0 then []
    else DrainAll(peers, order, n - 1) + Tagged(order[n - 1], Drain(peers[order[n - 1]]).1)
  }

  function Heard(peers: map<RawCallsign, Peer>): map<RawCallsign, Instant> {
    map c | c in peers :: peers[c].lastHeard
  }

  function Touched(peers: map<RawCallsign, Peer>, c: RawCallsign, now: Instant): map<RawCallsign, Peer> {
    peers[c := if c in peers then peers[c].(lastHeard := now) else NewPeer(now)]
  }

  class Sessions {
    const config: SessionConfig
    var peers: map<RawCallsign, Peer>
    var nextSeq: u16
    var evicted: seq<RawCallsign>

    ghost predicate Valid()
      reads this
    {
      && nextSeq >= 1
      && |peers| <= config.maxPeers
      && forall c :: c in peers ==> PeerOk(peers[c])
    }

    constructor (config: SessionConfig)
      ensures Valid() && this.config == config && peers == map[] && nextSeq == 1 && evicted == []
    {
      this.config := config;
      peers, nextSeq, evicted := map[], 1, [];
    }

    method NextSeq() returns (s: u16)
      requires Valid()
      modifies this`nextSeq
      ensures Valid() && s == old(nextSeq) && nextSeq == SeqAfter(s)
    {
      s := nextSeq;
      nextSeq := (nextSeq + 1) % 65536;
      if nextSeq == 0 {
        nextSeq := 1;
      }
    }

    method Touch(call: RawCallsign, now: Instant) returns (ok: bool)
      requires Valid()
      modifies this`peers
      ensures Valid()
      ensures ok <==> call in old(peers) || |old(peers)| < config.maxPeers
      ensures peers == if ok then Touched(old(peers), call, now) else old(peers)
    {
      if call !in peers && |peers| >= config.maxPeers {
        return false;
      }
      if call !in peers {
        peers := peers[call := NewPeer(now)];
      }
      peers := peers[call := peers[call].(lastHeard := now)];
      ok := true;
    }

    /** Room is made, if need be, by dropping the peer that was heard longest ago. */
    method ForceTouch(call: RawCallsign, now: Instant) returns (ok: bool)
      requires Valid()
      modifies this`peers, this`evicted
      ensures Valid() && (ok <==> config.maxPeers > 0)
      ensures if ok then ForceTouched(config, old(peers), old(evicted), call, now, peers, evicted)
              else peers == old(peers) && evicted == old(evicted)
    {
      if config.maxPeers == 0 {
        return false;
      }
      if call !in peers && |peers| >= config.maxPeers {
        assert Heard(peers).Keys == peers.Keys;
        assert |Heard(peers).Keys| == |peers.Keys|;
        var gone := Oldest(Heard(peers));
        assert (peers - {gone}).Keys == peers.Keys - {gone};
        assert |(peers - {gone}).Keys| == |peers.Keys| - 1;
        peers := peers - {gone};
        evicted := evicted + [gone];
      }
      ok := Touch(call, now);
    }

    method Forget(call: RawCallsign)
      requires Valid()
      modifies this`peers
      ensures Valid() && peers == old(peers) - {call}
    {
      assert (peers - {call}).Keys == peers.Keys - {call};
      assert |(peers - {call}).Keys| <= |peers.Keys|;
      peers := peers - {call};
    }

    method OnReceive(src: RawCallsign, frame: AircFrame, now: Instant, addressed: bool) returns (out: RxOutcome)
      requires Valid() && frame.FragmentOk()
      modifies this`peers
      ensures Valid()
      ensures !(src in old(peers) || |old(peers)| < config.maxPeers) ==>
                peers == old(peers) && out == RxOutcome(None, [], false)
      ensures src in old(peers) || |old(peers)| < config.maxPeers ==>
                var peer := Touched(old(peers), src, now)[src];
                exists victim :: VictimOk(config, peer, frame, victim)
                                 && out == Receive(config, peer, frame, now, addressed, victim).1
                                 && peers == old(peers)[src := Receive(config, peer, frame, now, addressed, victim).0]
    {
      out := RxOutcome(None, [], false);
      var ok := Touch(src, now);
      if !ok {
        return;
      }
      ghost var touched := peers[src];
      var peer, victim;
      peer, out, victim := ReceiveAt(config, peers[src], frame, now, addressed);
      ReceiveOk(config, touched, frame, now, addressed, victim);
      assert VictimOk(config, touched, frame, victim);
      assert (peer, out) == Receive(config, touched, frame, now, addressed, victim);
      peers := peers[src := peer];
    }

    method DrainAcks() returns (out: seq<(RawCallsign, AircFrame)>)
      requires Valid()
      modifies this`peers
      ensures Valid()
      ensures peers == Drained(old(peers))
      ensures exists order :: Enumerates(order, old(peers).Keys) && out == DrainAll(old(peers), order, |order|)
    {
      var order := Enumerate(peers.Keys);
      ghost var was := peers;
      peers, out := DrainEach(peers, order);
      assert peers.Keys == was.Keys;
      SameSize(peers, was);
    }

    method Enqueue(dst: RawCallsign, kind: Kind, payload: seq<byte>, reliable: bool, now: Instant) returns (out: SendOutcome)
      requires Valid()
      modifies this
      ensures Valid() && nextSeq == SeqAfter(old(nextSeq))
      ensures config.maxPeers == 0 ==> out == SendOutcome([], false) && peers == old(peers) && evicted == old(evicted)
      ensures config.maxPeers > 0 ==>
                exists touched :: ForceTouched(config, old(peers), old(evicted), dst, now, touched, evicted)
                                  && (peers, out) == EnqueueAt(config, touched, dst, old(nextSeq), kind, payload, reliable)
    {
      var seqno := NextSeq();
      var ok := ForceTouch(dst, now);
      if !ok {
        return SendOutcome([], false);
      }
      out := EnqueueTouched(dst, seqno, kind, payload, reliable);
    }

    method EnqueueTouched(dst: RawCallsign, seqno: u16, kind: Kind, payload: seq<byte>, reliable: bool) returns (out: SendOutcome)
      requires Valid() && dst in peers
      modifies this`peers
      ensures Valid() && (peers, out) == EnqueueAt(config, old(peers), dst, seqno, kind, payload, reliable)
    {
      EnqueueOk(config, peers[dst], seqno, kind, payload, reliable);
      var peer;
      peer, out := Submit(config, peers[dst], seqno, kind, payload, reliable);
      peers := peers[dst := peer];
    }

    method OnKeyed(dest: RawCallsign, seqno: u16, now: Instant)
      requires Valid()
      modifies this`peers
      ensures Valid()
      ensures peers == if dest in old(peers) then old(peers)[dest := Keyed(config, old(peers)[dest], seqno, now)] else old(peers)
    {
      if dest !in peers || !AckMatches(peers[dest], seqno) {
        return;
      }
      var pending := peers[dest].pending.value;
      var attempt := Max(pending.attempts, 1);
      peers := peers[dest := peers[dest].(pending := Some(pending.(nextRetry := Some(now + Backoff(config, attempt)))))];
    }

    method TickRetries(now: Instant, retry: bool) returns (transmit: seq<(RawCallsign, AircFrame)>, lost: seq<RawCallsign>)
      requires Valid()
      modifies this`peers
      ensures Valid()
      ensures exists order, expiry, passes :: Ticked(config, old(peers), order, expiry, passes, now, retry, transmit, lost, peers)
    {
      var order, expiry;
      ghost var passes;
      ghost var was := peers;
      transmit, lost, peers, order, expiry, passes := TickTable(config, peers, now, retry);
      TickedOk(config, was, order, expiry, passes, now, retry, transmit, lost, peers);
    }
  }

  method TickTable(cfg: SessionConfig, before: map<RawCallsign, Peer>, now: Instant, retry: bool)
    returns (transmit: seq<(RawCallsign, AircFrame)>, lost: seq<RawCallsign>, after: map<RawCallsign, Peer>,
             order: seq<RawCallsign>, expiry: seq<seq<u16>>, ghost passes: seq<TickPass>)
    ensures Ticked(cfg, before, order, expiry, passes, now, retry, transmit, lost, after)
  {
    order := Enumerate(before.Keys);
    expiry := ExpiryOrders(cfg, before, order, now);
    passes := AllPasses(cfg, before, order, expiry, now, retry);
    var w := FirstLoop(cfg, before, order, expiry, passes, now, retry);
    w := SecondLoop(w);
    transmit, lost, after := w.transmit, w.lost, Without(w.peers, w.lost);
  }

  lemma AllPasses(cfg: SessionConfig, peers: map<RawCallsign, Peer>, order: seq<RawCallsign>, expiry: seq<seq<u16>>,
                  now: Instant, retry: bool) returns (passes: seq<TickPass>)
    requires Enumerates(order, peers.Keys) && |expiry| == |order|
    requires forall i {:trigger At(i)} :: At(i) && 0 <= i < |order| ==> Enumerates(expiry[i], Expired(cfg, peers[order[i]], now))
    ensures PassesOf(cfg, peers, order, expiry, passes, now, retry)
  {
    passes := seq(|order|, i requires 0 <= i < |order| => TickFirst(cfg, peers[order[i]], now, retry, expiry[i]));
  }

  /** Expiry, idleness and retransmission at every peer; the peers to give up on are collected. */
  method FirstLoop(cfg: SessionConfig, peers: map<RawCallsign, Peer>, order: seq<RawCallsign>, expiry: seq<seq<u16>>,
                   ghost passes: seq<TickPass>, now: Instant, retry: bool) returns (w: Walk)
    requires PassesOf(cfg, peers, order, expiry, passes, now, retry)
    ensures w == FirstWalk(peers, order, passes, |order|)
  {
    w := Walk(peers, [], [], []);
    for i := 0 to |order|
      invariant w == FirstWalk(peers, order, passes, i)
    {
      assert At(i);
      FirstWalkAt(peers, order, passes, i, i);
      var pass := TickOne(cfg, w.peers[order[i]], now, retry, expiry[i]);
      w := FirstStep(w, order[i], pass);
    }
  }

  /** Give up the message in flight at each collected peer and start the next one queued there. */
  method SecondLoop(first: Walk) returns (w: Walk)
    ensures w == SecondWalk(first, |first.giving|)
  {
    w := first;
    for i := 0 to |first.giving|
      invariant w == SecondWalk(first, i)
    {
      var c := first.giving[i];
      if c in w.peers {
        var peer, frames, stranded := Abandon(w.peers[c]);
        w := w.(peers := w.peers[c := peer], transmit := w.transmit + Tagged(c, frames));
        w := w.(lost := w.lost + (if stranded then [c] else []));
      }
    }
  }

  method Abandon(peer: Peer) returns (p: Peer, out: seq<AircFrame>, stranded: bool)
    ensures (p, out, stranded) == GiveUp(peer)
  {
    stranded := peer.queue == [];
    p, out := Advance(peer.(dropped := peer.dropped + 1));
  }

  function Drained(peers: map<RawCallsign, Peer>): map<RawCallsign, Peer> {
    map c | c in peers :: Drain(peers[c]).0
  }

  method TakeOwed(peer: Peer) returns (p: Peer, out: seq<AircFrame>)
    ensures (p, out) == Drain(peer)
  {
    p, out := peer, [];
    if peer.owedAck.Some? {
      p := peer.(owedAck := None);
      out := [OwedFrame(peer.owedAck.value)];
    }
  }

  method DrainEach(peers: map<RawCallsign, Peer>, order: seq<RawCallsign>)
    returns (after: map<RawCallsign, Peer>, out: seq<(RawCallsign, AircFrame)>)
    requires Enumerates(order, peers.Keys)
    ensures after == Drained(peers) && out == DrainAll(peers, order, |order|)
  {
    after, out := peers, [];
    for i := 0 to |order|
      invariant after.Keys == peers.Keys
      invariant forall j :: 0 <= j < i ==> after[order[j]] == Drain(peers[order[j]]).0
      invariant forall j :: i <= j < |order| ==> after[order[j]] == peers[order[j]]
      invariant out == DrainAll(peers, order, i)
    {
      var peer, acks := TakeOwed(after[order[i]]);
      after := after[order[i] := peer];
      out := out + Tagged(order[i], acks);
    }
    DrainSettles(peers, order, after);
  }

  lemma DrainSettles(peers: map<RawCallsign, Peer>, order: seq<RawCallsign>, after: map<RawCallsign, Peer>)
    requires after.Keys == peers.Keys && Enumerates(order, peers.Keys)
    requires forall j :: 0 <= j < |order| ==> after[order[j]] == Drain(peers[order[j]]).0
    ensures after == Drained(peers)
  {
    EnumeratesAll(order, peers.Keys);
    forall c | c in peers ensures after[c] == Drain(peers[c]).0 {
      var j :| 0 <= j < |order| && order[j] == c;
    }
  }

  /** The work of `on_receive` on the peer entry once it is known to be in the table. */
  method ReceiveAt(cfg: SessionConfig, before: Peer, frame: AircFrame, now: Instant, addressed: bool)
    returns (peer: Peer, out: RxOutcome, victim: u16)
    requires frame.FragmentOk()
    ensures VictimOk(cfg, before, frame, victim)
    ensures (peer, out) == Receive(cfg, before, frame, now, addressed, victim)
  {
    peer, victim := before, 0;
    if frame.kind == Hello {
      var epoch := HelloEpoch(frame);
      if epoch != peer.epoch {
        peer := peer.(seen := [], reasm := map[], pending := None, owedAck := None, queue := [], epoch := epoch);
      }
    }
    assert peer == HelloReset(before, frame);
    var sent;
    peer, sent := AcknowledgeAll(peer, AcksIn(frame));
    out := RxOutcome(None, sent, false);
    if frame.kind != Ack {
      AcksKeepReceiveSide(HelloReset(before, frame), AcksIn(frame));
      if NeedsRoom(cfg, peer, frame) {
        assert Stamps(peer.reasm).Keys == peer.reasm.Keys;
        assert |Stamps(peer.reasm).Keys| == |peer.reasm.Keys|;
        victim := Oldest(Stamps(peer.reasm));
        assert peer.reasm == HelloReset(before, frame).reasm;
      }
      var deliver, duplicate;
      peer, deliver, duplicate := AcceptFrame(cfg, peer, frame, now, addressed, victim);
      out := RxOutcome(deliver, sent, duplicate);
    }
  }

  method AcknowledgeAll(before: Peer, acks: seq<OwedAck>) returns (peer: Peer, sent: seq<AircFrame>)
    ensures (peer, sent) == ApplyAcks(before, acks)
  {
    peer, sent := before, [];
    assert acks[0..] == acks;
    for i := 0 to |acks|
      invariant ApplyAcks(before, acks).0 == ApplyAcks(peer, acks[i..]).0
      invariant ApplyAcks(before, acks).1 == sent + ApplyAcks(peer, acks[i..]).1
    {
      assert acks[i..][0] == acks[i] && acks[i..][1..] == acks[i + 1..];
      var frames;
      peer, frames := Acknowledge(peer, acks[i]);
      sent := sent + frames;
    }
    assert acks[|acks|..] == [] && ApplyAcks(peer, []) == (peer, []);
    assert sent + [] == sent;
  }

  /** `force_touch`: when the table is full, the peer heard longest ago makes room and is reported. */
  ghost predicate ForceTouched(cfg: SessionConfig, peers: map<RawCallsign, Peer>, evicted: seq<RawCallsign>, call: RawCallsign, now: Instant,
                               peers': map<RawCallsign, Peer>, evicted': seq<RawCallsign>) {
    if call in peers || |peers| < cfg.maxPeers then peers' == Touched(peers, call, now) && evicted' == evicted
    else exists gone :: IsOldest(Heard(peers), gone) && peers' == Touched(peers - {gone}, call, now) && evicted' == evicted + [gone]
  }

  function EnqueueAt(cfg: SessionConfig, peers: map<RawCallsign, Peer>, dst: RawCallsign, seqno: u16, kind: Kind, payload: seq<byte>,
                     reliable: bool): (map<RawCallsign, Peer>, SendOutcome)
    requires dst in peers
  {
    var (p, out) := Session.Enqueue(cfg, peers[dst], seqno, kind, payload, reliable);
    (peers[dst := p], out)
  }

  /** The reassembly entry dropped to make room is one that started longest ago. */
  ghost predicate VictimOk(cfg: SessionConfig, peer: Peer, frame: AircFrame, victim: u16) {
    var p := HelloReset(peer, frame);
    frame.kind != Ack && NeedsRoom(cfg, p, frame) ==> IsOldest(Stamps(p.reasm), victim)
  }

  lemma {:induction false} AcksKeepReceiveSide(peer: Peer, acks: seq<OwedAck>)
    ensures var p := ApplyAcks(peer, acks).0;
            p.reasm == peer.reasm && p.seen == peer.seen && p.owedAck == peer.owedAck && p.epoch == peer.epoch
    decreases |acks|
  {
    if acks != [] {
      AcksKeepReceiveSide(ApplyAck(peer, acks[0]).0, acks[1..]);
    }
  }

  lemma SameSize<K, V>(a: map<K, V>, b: map<K, V>)
    requires a.Keys == b.Keys
    ensures |a| == |a.Keys| == |b|
  {
    assert |a| == |a.Keys| && |b| == |b.Keys|;
  }

  lemma TickedOk(cfg: SessionConfig, before: map<RawCallsign, Peer>, order: seq<RawCallsign>, expiry: seq<seq<u16>>,
                 passes: seq<TickPass>, now: Instant, retry: bool,
                 transmit: seq<(RawCallsign, AircFrame)>, lost: seq<RawCallsign>, after: map<RawCallsign, Peer>)
    requires Ticked(cfg, before, order, expiry, passes, now, retry, transmit, lost, after)
    requires forall c :: c in before ==> PeerOk(before[c])
    ensures |after| <= |before| && forall c :: c in after ==> PeerOk(after[c])
  {
    WalkKeys(before, order, passes, |order|);
    SecondWalkKeys(FirstWalk(before, order, passes, |order|), |FirstWalk(before, order, passes, |order|).giving|);
    SmallerSet(after.Keys, before.Keys);
    SameSize(after, after);
    SameSize(before, before);
    forall c | c in after ensures PeerOk(after[c]) {
      EnumeratesAll(order, before.Keys);
      var k :| 0 <= k < |order| && order[k] == c;
      TickedAtEachPeer(cfg, before, order, expiry, passes, now, retry, transmit, lost, after, k);
      TickOk(cfg, before[c], now, retry, expiry[k]);
    }
  }

  method ExpiryOrders(cfg: SessionConfig, peers: map<RawCallsign, Peer>, order: seq<RawCallsign>, now: Instant) returns (r: seq<seq<u16>>)
    requires Enumerates(order, peers.Keys)
    ensures |r| == |order|
    ensures forall i {:trigger At(i)} :: At(i) && 0 <= i < |order| ==> Enumerates(r[i], Expired(cfg, peers[order[i]], now))
  {
    r := [];
    for i := 0 to |order|
      invariant |r| == i
      invariant forall j {:trigger At(j)} :: At(j) && 0 <= j < i ==> Enumerates(r[j], Expired(cfg, peers[order[j]], now))
    {
      var e := Enumerate(Expired(cfg, peers[order[i]], now));
      r := r + [e];
    }
  }

  /** Drop the reassembly entries listed in `order`, reporting those the sender wanted acknowledged. */
  method DropExpired(peer: Peer, order: seq<u16>, ghost expired: set<u16>) returns (p: Peer, out: seq<AircFrame>)
    requires Enumerates(order, expired) && expired <= peer.reasm.Keys
    ensures p == peer.(reasm := peer.reasm - expired) && out == ExpiryAcks(peer, order)
  {
    var reasm: map<u16, Reassembly> := peer.reasm;
    out := [];
    for i := 0 to |order|
      invariant forall s :: s in reasm <==> s in peer.reasm && s !in order[..i]
      invariant forall s :: s in reasm ==> reasm[s] == peer.reasm[s]
      invariant out == ExpiryAcksPrefix(peer, order, i)
    {
      assert order[..i + 1] == order[..i] + [order[i]];
      assert order[i] !in order[..i];
      var r := reasm[order[i]];
      reasm := map s | s in reasm && s != order[i] :: reasm[s];
      if r.wantAck {
        var bitmap := SetBitmap(r.parts);
        out := out + [AckWithBitmap(order[i], bitmap)];
      }
    }
    EnumeratesAll(order, expired);
    assert order[..|order|] == order;
    assert reasm == peer.reasm - expired;
    p := peer.(reasm := reasm);
  }

  method TickOne(cfg: SessionConfig, peer: Peer, now: Instant, retry: bool, order: seq<u16>) returns (pass: TickPass)
    requires Enumerates(order, Expired(cfg, peer, now))
    ensures pass == TickFirst(cfg, peer, now, retry, order)
  {
    var p, out := DropExpired(peer, order, Expired(cfg, peer, now));
    if Since(now, p.lastHeard) > cfg.peerIdleTimeout {
      return TickPass(p, out, true, false);
    }
    if !retry || p.pending.None? || p.pending.value.nextRetry.None? || now < p.pending.value.nextRetry.value {
      return TickPass(p, out, false, false);
    }
    var pending := p.pending.value;
    if pending.attempts >= cfg.maxRetries {
      return TickPass(p, out, false, true);
    }
    pending := pending.(attempts := pending.attempts + 1);
    pending := pending.(nextRetry := Some(now + Backoff(cfg, pending.attempts)));
    p := p.(pending := Some(pending));
    var again := Retransmissions(pending.frames, pending.acked);
    pass := TickPass(p, out + again, false, false);
  }

  method AcceptFrame(cfg: SessionConfig, peer: Peer, frame: AircFrame, now: Instant, addressed: bool, victim: u16)
    returns (p: Peer, deliver: Option<AircFrame>, duplicate: bool)
    requires frame.FragmentOk()
    ensures (p, deliver, duplicate) == Accept(cfg, peer, frame, now, addressed, victim)
  {
    p, deliver, duplicate := peer, None, false;
    var wantAck := addressed && frame.WantsAck();
    if frame.seqno in p.seen {
      duplicate := true;
      if wantAck {
        p := p.(owedAck := Some(OwedAck(frame.seqno, None)));
      }
      if frame.kind == Hello {
        duplicate, deliver := false, Some(frame);
      }
      return;
    }
    if frame.fragTotal == 1 {
      if wantAck {
        p := p.(owedAck := Some(OwedAck(frame.seqno, None)));
      }
      var seen := Remember(p.seen, frame.seqno, cfg.dedupWindow);
      p := p.(seen := seen);
      deliver := Some(frame);
      return;
    }
    p, deliver := StoreFragment(cfg, p, frame, now, addressed, victim);
  }

  method StoreFragment(cfg: SessionConfig, peer: Peer, frame: AircFrame, now: Instant, addressed: bool, victim: u16)
    returns (p: Peer, deliver: Option<AircFrame>)
    requires frame.FragmentOk()
    ensures (p, deliver) == AcceptFragment(cfg, peer, frame, now, addressed, victim)
  {
    p, deliver := peer, None;
    var wantAck := addressed && frame.WantsAck();
    if |frame.payload| > cfg.MaxPayload() {
      return;
    }
    var reasm: map<u16, Reassembly> := p.reasm;
    if NeedsRoom(cfg, p, frame) {
      reasm := reasm - {victim};
    }
    var entry := FreshEntry(frame, now, wantAck);
    if frame.seqno in reasm && |reasm[frame.seqno].parts| == frame.fragTotal {
      entry := reasm[frame.seqno];
    }
    entry := entry.(wantAck := entry.wantAck || wantAck);
    if frame.WantsAck() {
      entry := entry.(flags := SetBit(entry.flags, ACK_REQ));
    }
    entry := entry.(parts := entry.parts[frame.fragIndex := Some(frame.payload)]);
    if !AllParts(entry.parts) {
      p := p.(reasm := reasm[frame.seqno := entry]);
      if wantAck && HasBit(frame.flags, RETRY) {
        var bitmap := SetBitmap(entry.parts);
        p := p.(owedAck := Some(OwedAck(frame.seqno, Some(bitmap))));
      }
      return;
    }
    var payload := JoinParts(entry.parts);
    var seen := Remember(p.seen, frame.seqno, cfg.dedupWindow);
    p := p.(reasm := reasm - {frame.seqno}, seen := seen);
    if entry.wantAck || (addressed && (frame.WantsAck() || HasBit(entry.flags, ACK_REQ))) {
      p := p.(owedAck := Some(OwedAck(frame.seqno, None)));
    }
    deliver := Some(NewFrame(entry.kind, frame.seqno, payload).(flags := entry.flags));
  }

  method Submit(cfg: SessionConfig, peer: Peer, seqno: u16, kind: Kind, payload: seq<byte>, reliable: bool)
    returns (p: Peer, out: SendOutcome)
    ensures (p, out) == Session.Enqueue(cfg, peer, seqno, kind, payload, reliable)
  {
    p := peer;
    var sendNow := !reliable || p.pending.None?;
    var piggy := None;
    if sendNow && reliable && cfg.MaxPayload() > 2 && p.owedAck.Some? && p.owedAck.value.bitmap.None? {
      piggy := Some(p.owedAck.value.seqno);
      p := p.(owedAck := None);
    }
    var chunks := SplitPayload(payload, cfg.MaxPayload(), piggy.Some?);
    ChunkPayloadJoins(payload, cfg.MaxPayload(), piggy.Some?);
    if |chunks| > 255 {
      if piggy.Some? {
        p := p.(owedAck := Some(OwedAck(piggy.value, None)));
      }
      p := p.(dropped := p.dropped + 1);
      return p, SendOutcome([], false);
    }
    var frames := Fragments(kind, seqno, chunks, if reliable then SetBit(0, ACK_REQ) else 0);
    if !reliable {
      return p, SendOutcome(frames, true);
    }
    if p.pending.Some? {
      if |p.queue| >= cfg.maxQueue {
        p := p.(dropped := p.dropped + 1);
        return p, SendOutcome([], false);
      }
      p := p.(queue := p.queue + [frames]);
      return p, SendOutcome([], true);
    }
    p := p.(pending := Some(StartPending(frames)));
    if piggy.Some? {
      frames := frames[0 := frames[0].WithPiggyback(piggy.value)];
    }
    out := SendOutcome(frames, true);
  }

  // ---- What the table operations mean for each peer ----

  /** What the first `n` peers of an iteration are sent. */
  function SentAll(order: seq<RawCallsign>, sent: seq<seq<AircFrame>>, n: nat): seq<(RawCallsign, AircFrame)>
    requires n <= |order| == |sent|
  {
    if n == 0 then [] else SentAll(order, sent, n - 1) + Tagged(order[n - 1], sent[n - 1])
  }

  lemma {:induction false} SentTo(order: seq<RawCallsign>, sent: seq<seq<AircFrame>>, n: nat, k: nat)
    requires n <= |order| == |sent| && k < |order| && Distinct(order)
    ensures Addressed(SentAll(order, sent, n), order[k]) == if k < n then sent[k] else []
  {
    if n > 0 {
      SentTo(order, sent, n - 1, k);
      AddressedTagged(SentAll(order, sent, n - 1), order[n - 1], sent[n - 1], order[k]);
    }
  }

  lemma {:induction false} DrainIsSent(peers: map<RawCallsign, Peer>, order: seq<RawCallsign>, sent: seq<seq<AircFrame>>, n: nat)
    requires n <= |order| == |sent| && forall i :: 0 <= i < |order| ==> order[i] in peers && sent[i] == Drain(peers[order[i]]).1
    ensures DrainAll(peers, order, n) == SentAll(order, sent, n)
  {
    if n > 0 {
      DrainIsSent(peers, order, sent, n - 1);
    }
  }

  lemma {:induction false} DrainedForNone(peers: map<RawCallsign, Peer>, order: seq<RawCallsign>, n: nat, c: RawCallsign)
    requires n <= |order| && c !in order && forall i :: 0 <= i < |order| ==> order[i] in peers
    ensures Addressed(DrainAll(peers, order, n), c) == []
  {
    if n > 0 {
      DrainedForNone(peers, order, n - 1, c);
      AddressedTagged(DrainAll(peers, order, n - 1), order[n - 1], Drain(peers[order[n - 1]]).1, c);
    }
  }

  /** In whatever order the table is walked: each peer is sent exactly the acknowledgement it is owed, if
      it is owed one, is owed none afterwards, and is otherwise as it was; and nobody else is sent any. */
  lemma DrainedAtEachPeer(peers: map<RawCallsign, Peer>, order: seq<RawCallsign>, c: RawCallsign)
    requires Enumerates(order, peers.Keys)
    ensures Addressed(DrainAll(peers, order, |order|), c)
         == if c in peers && peers[c].owedAck.Some? then [OwedFrame(peers[c].owedAck.value)] else []
    ensures c in Drained(peers) <==> c in peers
    ensures c in peers ==> Drained(peers)[c] == peers[c].(owedAck := None)
  {
    EnumeratesAll(order, peers.Keys);
    if c in peers {
      var k :| 0 <= k < |order| && order[k] == c;
      var sent := seq(|order|, i requires 0 <= i < |order| => Drain(peers[order[i]]).1);
      DrainIsSent(peers, order, sent, |order|);
      SentTo(order, sent, |order|, k);
    } else {
      DrainedForNone(peers, order, |order|, c);
    }
  }

  /** The peer spoken to is in the table, as it was or new, and just heard of. Every other peer stays as it
      was, but for one that goes if the table is full and the peer spoken to unknown: it was heard of no
      later than any other, and is reported. */
  lemma ForceTouchedExactly(cfg: SessionConfig, peers: map<RawCallsign, Peer>, evicted: seq<RawCallsign>, call: RawCallsign, now: Instant,
                            peers': map<RawCallsign, Peer>, evicted': seq<RawCallsign>, c: RawCallsign)
    requires ForceTouched(cfg, peers, evicted, call, now, peers', evicted') && c in peers && c != call
    ensures call in peers'
    ensures peers'[call] == if call in peers then peers[call].(lastHeard := now) else Peer(now, 0, None, None, [], [], map[], 0)
    ensures c in peers' ==> peers'[c] == peers[c]
    ensures c !in peers' ==>
              && call !in peers && |peers| >= cfg.maxPeers && evicted' == evicted + [c]
              && forall d :: d in peers ==> peers[c].lastHeard <= peers[d].lastHeard
    ensures evicted' == evicted || (evicted' != [] && evicted' == evicted + [evicted'[|evicted'| - 1]] && evicted'[|evicted'| - 1] !in peers')
  {
    if !(call in peers || |peers| < cfg.maxPeers) {
      var gone :| IsOldest(Heard(peers), gone) && peers' == Touched(peers - {gone}, call, now) && evicted' == evicted + [gone];
      assert forall d :: d in peers ==> Heard(peers)[gone] <= Heard(peers)[d];
    }
  }
}
