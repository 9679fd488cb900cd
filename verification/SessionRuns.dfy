/** What holds of one peer entry over every run, whatever frames arrive. */
module SessionRuns {
  import opened Common
  import opened AircFrames
  import opened Session

  // ---- Duplicate suppression ----

  /** A peer entry, everything delivered from it, which deliveries were remembered (their
      positions) and under which numbers. */
  datatype Log = Log(peer: Peer, deliveries: seq<AircFrame>, marks: seq<nat>, nums: seq<u16>)

  datatype Event =
    | Frame(frame: AircFrame, now: Instant, addressed: bool, victim: u16)
    | Send(seqno: u16, kind: Kind, payload: seq<byte>, reliable: bool)
    | DrainAck
    | Clock(now: Instant, retry: bool, order: seq<u16>)
    | KeyDown(seqno: u16, now: Instant)

  /** The entry lives on, and no HELLO announces a new epoch. */
  predicate Lives(cfg: SessionConfig, p: Peer, ev: Event) {
    match ev
    case Frame(f, _, _, _) => f.FragmentOk() && !NewEpoch(p, f)
    case Clock(now, retry, order) => !Tick(cfg, p, now, retry, order).lost
    case _ => true
  }

  function Logged(w: Log, p: Peer, deliver: Option<AircFrame>, seqno: u16): Log {
    if deliver.None? then w.(peer := p)
    else if seqno in w.peer.seen then w.(peer := p, deliveries := w.deliveries + [deliver.value])
    else Log(p, w.deliveries + [deliver.value], w.marks + [|w.deliveries|], w.nums + [seqno])
  }

  function Next(cfg: SessionConfig, w: Log, ev: Event): Log
    requires Lives(cfg, w.peer, ev)
  {
    match ev
    case Frame(f, now, addressed, victim) =>
      var (p, out) := Receive(cfg, w.peer.(lastHeard := now), f, now, addressed, victim);
      Logged(w, p, out.deliver, f.seqno)
    case Send(seqno, kind, payload, reliable) => w.(peer := Enqueue(cfg, w.peer, seqno, kind, payload, reliable).0)
    case DrainAck => w.(peer := Drain(w.peer).0)
    case Clock(now, retry, order) => w.(peer := Tick(cfg, w.peer, now, retry, order).peer)
    case KeyDown(seqno, now) => w.(peer := Keyed(cfg, w.peer, seqno, now))
  }

  predicate Marked(deliveries: seq<AircFrame>, marks: seq<nat>, nums: seq<u16>) {
    && |marks| == |nums|
    && (forall a :: 0 <= a < |marks| ==> marks[a] < |deliveries| && deliveries[marks[a]].seqno == nums[a])
    && (forall a, b :: 0 <= a < b < |marks| ==> marks[a] < marks[b])
    && (forall i :: 0 <= i < |deliveries| && deliveries[i].kind != Hello ==> i in marks)
  }

  /** The window holds the latest remembered numbers, and no number is remembered twice
      within one window. */
  predicate Windowed(nums: seq<u16>, seen: seq<u16>, window: nat) {
    && |seen| == Min(window, |nums|)
    && seen == nums[|nums| - |seen|..]
    && (forall a, b :: 0 <= a < b < |nums| && nums[a] == nums[b] ==> b - a > window)
  }

  predicate LogOk(cfg: SessionConfig, w: Log) {
    Marked(w.deliveries, w.marks, w.nums) && Windowed(w.nums, w.peer.seen, cfg.dedupWindow)
  }

  lemma {:induction false} AcksKeepSeen(p: Peer, acks: seq<OwedAck>)
    ensures ApplyAcks(p, acks).0.seen == p.seen
    decreases |acks|
  {
    if acks != [] {
      AcksKeepSeen(ApplyAck(p, acks[0]).0, acks[1..]);
    }
  }

  lemma RememberKeepsWindow(nums: seq<u16>, seen: seq<u16>, window: nat, n: u16)
    requires Windowed(nums, seen, window) && n !in seen
    ensures Windowed(nums + [n], RememberSeq(seen, n, window), window)
  {
    var base := |nums| - |seen|;
    assert forall a :: base <= a < |nums| ==> nums[a] == seen[a - base];
  }

  lemma DeliveryKeepsMarks(deliveries: seq<AircFrame>, marks: seq<nat>, nums: seq<u16>, d: AircFrame)
    requires Marked(deliveries, marks, nums)
    ensures Marked(deliveries + [d], marks + [|deliveries|], nums + [d.seqno])
    ensures d.kind == Hello ==> Marked(deliveries + [d], marks, nums)
  {
    var marks' := marks + [|deliveries|];
    assert marks'[|marks|] == |deliveries|;
    assert forall a :: 0 <= a < |marks| ==> marks'[a] == marks[a];
  }

  /** Receiving changes the window only together with a delivery. */
  lemma ReceiveSeen(cfg: SessionConfig, p: Peer, f: AircFrame, now: Instant, addressed: bool, victim: u16)
    requires f.FragmentOk() && !NewEpoch(p, f)
    ensures var (q, out) := Receive(cfg, p, f, now, addressed, victim);
            && (out.deliver.Some? ==> out.deliver.value.seqno == f.seqno)
            && (out.deliver.Some? && f.seqno in p.seen ==> out.deliver.value.kind == Hello)
            && q.seen == if out.deliver.Some? && f.seqno !in p.seen then RememberSeq(p.seen, f.seqno, cfg.dedupWindow) else p.seen
  {
    AcksKeepSeen(p, AcksIn(f));
  }

  /** Sending, draining, the clock and key-down reports leave the window alone. */
  lemma SendKeepsSeen(cfg: SessionConfig, p: Peer, seqno: u16, kind: Kind, payload: seq<byte>, reliable: bool)
    ensures Enqueue(cfg, p, seqno, kind, payload, reliable).0.seen == p.seen
  {
  }

  lemma ClockKeepsSeen(cfg: SessionConfig, p: Peer, now: Instant, retry: bool, order: seq<u16>)
    ensures Tick(cfg, p, now, retry, order).peer.seen == p.seen
  {
  }

  lemma FrameKeepsLog(cfg: SessionConfig, w: Log, p: Peer, deliver: Option<AircFrame>, seqno: u16)
    requires LogOk(cfg, w)
    requires deliver.Some? ==> deliver.value.seqno == seqno
    requires deliver.Some? && seqno in w.peer.seen ==> deliver.value.kind == Hello
    requires p.seen == if deliver.Some? && seqno !in w.peer.seen then RememberSeq(w.peer.seen, seqno, cfg.dedupWindow)
                       else w.peer.seen
    ensures LogOk(cfg, Logged(w, p, deliver, seqno))
  {
    if deliver.Some? {
      DeliveryKeepsMarks(w.deliveries, w.marks, w.nums, deliver.value);
      if seqno !in w.peer.seen {
        RememberKeepsWindow(w.nums, w.peer.seen, cfg.dedupWindow, seqno);
      }
    }
  }

  lemma NextKeepsLog(cfg: SessionConfig, w: Log, ev: Event)
    requires LogOk(cfg, w) && Lives(cfg, w.peer, ev)
    ensures LogOk(cfg, Next(cfg, w, ev))
  {
    match ev
    case Frame(f, now, addressed, victim) =>
      var p := w.peer.(lastHeard := now);
      ReceiveSeen(cfg, p, f, now, addressed, victim);
      var (q, out) := Receive(cfg, p, f, now, addressed, victim);
      FrameKeepsLog(cfg, w, q, out.deliver, f.seqno);
    case Send(seqno, kind, payload, reliable) =>
      SendKeepsSeen(cfg, w.peer, seqno, kind, payload, reliable);
    case DrainAck =>
    case Clock(now, retry, order) =>
      ClockKeepsSeen(cfg, w.peer, now, retry, order);
    case KeyDown(seqno, now) =>
  }

  ghost predicate IsLog(cfg: SessionConfig, logs: seq<Log>, evs: seq<Event>) {
    && |logs| == |evs| + 1
    && (exists t :: logs[0] == Log(NewPeer(t), [], [], []))
    && forall i :: 0 <= i < |evs| ==> Lives(cfg, logs[i].peer, evs[i]) && logs[i + 1] == Next(cfg, logs[i], evs[i])
  }

  lemma {:induction false} LogKeeps(cfg: SessionConfig, logs: seq<Log>, evs: seq<Event>, n: nat)
    requires IsLog(cfg, logs, evs) && n < |logs|
    ensures LogOk(cfg, logs[n])
  {
    if n > 0 {
      LogKeeps(cfg, logs, evs, n - 1);
      assert Lives(cfg, logs[n - 1].peer, evs[n - 1]);
      NextKeepsLog(cfg, logs[n - 1], evs[n - 1]);
    }
  }

  lemma {:induction false} MarksSpread(deliveries: seq<AircFrame>, marks: seq<nat>, nums: seq<u16>, a: nat, b: nat)
    requires Marked(deliveries, marks, nums) && a <= b < |marks|
    ensures marks[b] - marks[a] >= b - a
  {
    if a < b {
      MarksSpread(deliveries, marks, nums, a, b - 1);
    }
  }

  /** While the entry lives and no new epoch starts, two deliveries of one number, neither a
      HELLO, have at least `dedup_window` other deliveries between them. */
  lemma AtMostOncePerWindow(cfg: SessionConfig, logs: seq<Log>, evs: seq<Event>, n: nat, i: nat, j: nat)
    requires IsLog(cfg, logs, evs) && n < |logs|
    requires i < j < |logs[n].deliveries|
    requires logs[n].deliveries[i].kind != Hello && logs[n].deliveries[j].kind != Hello
    requires logs[n].deliveries[i].seqno == logs[n].deliveries[j].seqno
    ensures j - i - 1 >= cfg.dedupWindow
  {
    LogKeeps(cfg, logs, evs, n);
    var w := logs[n];
    var a :| 0 <= a < |w.marks| && w.marks[a] == i;
    var b :| 0 <= b < |w.marks| && w.marks[b] == j;
    MarksSpread(w.deliveries, w.marks, w.nums, a, b);
  }

  /** The window never holds a number twice, and never outgrows its size. */
  lemma WindowDistinct(cfg: SessionConfig, logs: seq<Log>, evs: seq<Event>, n: nat)
    requires IsLog(cfg, logs, evs) && n < |logs|
    ensures Distinct(logs[n].peer.seen) && |logs[n].peer.seen| <= cfg.dedupWindow
  {
    LogKeeps(cfg, logs, evs, n);
    var w := logs[n];
    var base := |w.nums| - |w.peer.seen|;
    assert forall k :: 0 <= k < |w.peer.seen| ==> w.peer.seen[k] == w.nums[base + k];
  }
}
