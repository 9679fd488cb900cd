/** Connection admission as its atomic steps: a counter that is added to first and compared
    afterwards, and a map of connections per host under its own lock. Any number of accepting and
    closing connections interleave. */
module Admission {
  import opened Common

  datatype Deny = Banned | Full | PerHost

  /** What the connections share. A limit of zero means unlimited. */
  datatype Gate = Gate(maxClients: nat, maxPerHost: nat, total: nat, perHost: map<string, nat>, bans: set<string>)

  function NewGate(maxClients: nat, maxPerHost: nat): Gate {
    Gate(maxClients, maxPerHost, 0, map[], {})
  }

  datatype Slot = Slot(host: string, countedTotal: bool, countedHost: bool)

  // ---- The atomic sections ----

  /** `fetch_add(1)`; the comparison is with the value it made. */
  function Added(g: Gate): Gate { g.(total := g.total + 1) }

  /** `fetch_sub(1)`. */
  function Subbed(g: Gate): Gate
    requires g.total > 0
  {
    g.(total := g.total - 1)
  }

  function HostCount(g: Gate, host: string): nat {
    if host in g.perHost then g.perHost[host] else 0
  }

  predicate HostFull(g: Gate, host: string) { HostCount(g, host) >= g.maxPerHost }

  /** Under the host lock: the entry is made first, and counted up unless the host is full. */
  function Entered(g: Gate, host: string): Gate {
    g.(perHost := g.perHost[host := if HostFull(g, host) then HostCount(g, host) else HostCount(g, host) + 1])
  }

  /** Under the host lock: counted down, and removed at zero. */
  function Left(g: Gate, host: string): Gate {
    if host !in g.perHost then g
    else if g.perHost[host] <= 1 then g.(perHost := g.perHost - {host})
    else g.(perHost := g.perHost[host := g.perHost[host] - 1])
  }

  // ---- One connection at a time, in place ----

  class AdmissionGate {
    var total: nat
    var perHost: map<string, nat>
    var bans: set<string>
    const maxClients: nat
    const maxPerHost: nat

    ghost function State(): Gate
      reads this
    {
      Gate(maxClients, maxPerHost, total, perHost, bans)
    }

    constructor (maxClients: nat, maxPerHost: nat)
      ensures State() == NewGate(maxClients, maxPerHost)
    {
      this.maxClients, this.maxPerHost := maxClients, maxPerHost;
      total, perHost, bans := 0, map[], {};
    }

    method Ban(host: string)
      modifies this`bans
      ensures bans == if host == "" then old(bans) else old(bans) + {host}
    {
      if host != "" {
        bans := bans + {host};
      }
    }

    method Unban(host: string)
      modifies this`bans
      ensures bans == old(bans) - {host}
    {
      bans := bans - {host};
    }

    /** Reserve a slot. What it took is put back when it is refused. */
    method TryAcquire(host: string) returns (r: Result<Slot, Deny>)
      modifies this
      ensures bans == old(bans)
      ensures r.Err? && r.error.Banned? <==> host in old(bans)
      ensures r.Err? && r.error.Full? <==> host !in old(bans) && maxClients > 0 && old(total) >= maxClients
      ensures r.Err? ==> total == old(total)
      ensures r.Err? && r.error.PerHost? <==>
                && host !in old(bans) && !(maxClients > 0 && old(total) >= maxClients)
                && maxPerHost > 0 && host in old(perHost) && old(perHost)[host] >= maxPerHost
      ensures r.Err? && r.error.PerHost? ==> State() == Entered(old(State()), host)
      ensures r.Err? && !r.error.PerHost? ==> State() == old(State())
      ensures r.Ok? ==> r.value == Slot(host, maxClients > 0, maxPerHost > 0)
      ensures r.Ok? ==> var g := if maxClients > 0 then Added(old(State())) else old(State());
                        State() == if maxPerHost > 0 then Entered(g, host) else g
    {
      if host in bans {
        return Err(Banned);
      }
      var countedTotal := false;
      if maxClients > 0 {
        total := total + 1;
        if total > maxClients {
          total := total - 1;
          return Err(Full);
        }
        countedTotal := true;
      }
      var countedHost := false;
      if maxPerHost > 0 {
        if host !in perHost {
          perHost := perHost[host := 0];
        }
        if perHost[host] >= maxPerHost {
          assert perHost == Entered(old(State()), host).perHost;
          if countedTotal {
            total := total - 1;
          }
          return Err(PerHost);
        }
        perHost := perHost[host := perHost[host] + 1];
        countedHost := true;
      }
      return Ok(Slot(host, countedTotal, countedHost));
    }

    /** What dropping a slot does. */
    method Release(slot: Slot)
      requires slot.countedTotal ==> total > 0
      modifies this
      ensures var g := if slot.countedTotal then Subbed(old(State())) else old(State());
              State() == if slot.countedHost then Left(g, slot.host) else g
    {
      if slot.countedTotal {
        total := total - 1;
      }
      if slot.countedHost {
        if slot.host in perHost {
          var n := if perHost[slot.host] > 0 then perHost[slot.host] - 1 else 0;
          perHost := perHost[slot.host := n];
          if n == 0 {
            perHost := perHost - {slot.host};
          }
        }
      }
    }
  }

  // ---- Any interleaving ----

  /** Where a connection is between its atomic sections. */
  datatype Conn =
    | Arrived(host: string)
    | NotBanned(host: string)
    | OverFull(host: string)
    | AtHost(host: string, counted: bool)
    | HostRefused(host: string, counted: bool)
    | Holding(host: string, counted: bool, countedHost: bool)
    | Releasing(host: string, countedHost: bool)
    | Gone(denied: Option<Deny>)

  datatype World = World(gate: Gate, conns: seq<Conn>)

  datatype Event =
    | Ban(host: string)
    | Unban(host: string)
    | Arrive(host: string)
    | CheckBan(t: nat)
    | CountTotal(t: nat)
    | UndoTotal(t: nat)
    | CountHost(t: nat)
    | Close(t: nat)
    | ReleaseHost(t: nat)

  predicate Enabled(w: World, ev: Event) {
    match ev
    case Ban(_) => true
    case Unban(_) => true
    case Arrive(_) => true
    case CheckBan(t) => t < |w.conns| && w.conns[t].Arrived?
    case CountTotal(t) => t < |w.conns| && w.conns[t].NotBanned?
    case UndoTotal(t) => t < |w.conns| && (w.conns[t].OverFull? || w.conns[t].HostRefused?)
    case CountHost(t) => t < |w.conns| && w.conns[t].AtHost?
    case Close(t) => t < |w.conns| && w.conns[t].Holding?
    case ReleaseHost(t) => t < |w.conns| && w.conns[t].Releasing?
  }

  /** The subtractions that the step makes find something to subtract from. */
  predicate NoUnderflow(w: World, ev: Event)
    requires Enabled(w, ev)
  {
    && (ev.UndoTotal? && (w.conns[ev.t].OverFull? || w.conns[ev.t].counted) ==> w.gate.total > 0)
    && (ev.Close? && w.conns[ev.t].counted ==> w.gate.total > 0)
    && (ev.ReleaseHost? && w.conns[ev.t].countedHost ==> HostCount(w.gate, w.conns[ev.t].host) > 0)
  }

  function SubIf(g: Gate, counted: bool): Gate
    requires counted ==> g.total > 0
  {
    if counted then Subbed(g) else g
  }

  function Step(g: Gate, c: Conn): (Gate, Conn)
    requires c.OverFull? || (c.HostRefused? && c.counted) || (c.Holding? && c.counted) ==> g.total > 0
  {
    match c
    case Arrived(host) => (g, if host in g.bans then Gone(Some(Banned)) else NotBanned(host))
    case NotBanned(host) =>
      if g.maxClients == 0 then (g, AtHost(host, false))
      else (Added(g), if g.total + 1 > g.maxClients then OverFull(host) else AtHost(host, true))
    case OverFull(_) => (Subbed(g), Gone(Some(Full)))
    case AtHost(host, counted) =>
      if g.maxPerHost == 0 then (g, Holding(host, counted, false))
      else (Entered(g, host), if HostFull(g, host) then HostRefused(host, counted) else Holding(host, counted, true))
    case HostRefused(_, counted) => (SubIf(g, counted), Gone(Some(PerHost)))
    case Holding(host, counted, countedHost) => (SubIf(g, counted), Releasing(host, countedHost))
    case Releasing(host, countedHost) => (if countedHost then Left(g, host) else g, Gone(None))
    case Gone(_) => (g, c)
  }

  function Next(w: World, ev: Event): World
    requires Enabled(w, ev) && NoUnderflow(w, ev)
  {
    match ev
    case Ban(host) => if host == "" then w else w.(gate := w.gate.(bans := w.gate.bans + {host}))
    case Unban(host) => w.(gate := w.gate.(bans := w.gate.bans - {host}))
    case Arrive(host) => w.(conns := w.conns + [Arrived(host)])
    case _ =>
      var (g, c) := Step(w.gate, w.conns[ev.t]);
      World(g, w.conns[ev.t := c])
  }

  // ---- Counting connections ----

  function Sum(conns: seq<Conn>, f: Conn -> nat, n: nat): nat
    requires n <= |conns|
  {
    if n == 0 then 0 else Sum(conns, f, n - 1) + f(conns[n - 1])
  }

  function Total(conns: seq<Conn>, f: Conn -> nat): nat { Sum(conns, f, |conns|) }

  lemma {:induction false} SumUpdate(conns: seq<Conn>, f: Conn -> nat, t: nat, c: Conn, n: nat)
    requires t < |conns| && n <= |conns|
    ensures Sum(conns[t := c], f, n) == Sum(conns, f, n) + (if t < n then f(c) as int - f(conns[t]) else 0)
  {
    if n > 0 {
      SumUpdate(conns, f, t, c, n - 1);
    }
  }

  lemma {:induction false} SumPrefix(conns: seq<Conn>, c: Conn, f: Conn -> nat, n: nat)
    requires n <= |conns|
    ensures Sum(conns + [c], f, n) == Sum(conns, f, n)
  {
    if n > 0 {
      SumPrefix(conns, c, f, n - 1);
    }
  }

  lemma {:induction false} SumAtLeast(conns: seq<Conn>, f: Conn -> nat, t: nat, n: nat)
    requires t < n <= |conns|
    ensures Sum(conns, f, n) >= f(conns[t])
  {
    if t < n - 1 {
      SumAtLeast(conns, f, t, n - 1);
    }
  }

  lemma {:induction false} SumMono(conns: seq<Conn>, f: Conn -> nat, g: Conn -> nat, n: nat)
    requires n <= |conns| && forall i :: 0 <= i < |conns| ==> f(conns[i]) <= g(conns[i])
    ensures Sum(conns, f, n) <= Sum(conns, g, n)
  {
    if n > 0 {
      SumMono(conns, f, g, n - 1);
    }
  }

  /** In the total: from the addition to the subtraction. */
  function InTotal(c: Conn): nat {
    if c.OverFull? || (c.AtHost? && c.counted) || (c.HostRefused? && c.counted) || (c.Holding? && c.counted) then 1 else 0
  }

  /** In the total, and found to be within it. */
  function WithinTotal(c: Conn): nat {
    if c.OverFull? then 0 else InTotal(c)
  }

  /** In the count of this host. */
  function InHost(host: string): Conn -> nat {
    (c: Conn) => if (c.Holding? || c.Releasing?) && c.countedHost && c.host == host then 1 else 0
  }

  function HoldsSlot(c: Conn): nat { if c.Holding? then 1 else 0 }

  function HoldsSlotAt(host: string): Conn -> nat {
    (c: Conn) => if c.Holding? && c.host == host then 1 else 0
  }

  predicate ConnOk(g: Gate, c: Conn) {
    && (c.Holding? ==> c.counted == (g.maxClients > 0) && c.countedHost == (g.maxPerHost > 0))
    && (c.AtHost? || c.HostRefused? ==> c.counted == (g.maxClients > 0))
    && (c.OverFull? ==> g.maxClients > 0)
    && (c.HostRefused? ==> g.maxPerHost > 0)
  }

  /** The counters are what the connections account for, within the limits, with no entry left at zero. */
  ghost predicate WorldOk(w: World) {
    && w.gate.total == Total(w.conns, InTotal)
    && (w.gate.maxClients > 0 ==> Total(w.conns, WithinTotal) <= w.gate.maxClients)
    && (forall h :: HostCount(w.gate, h) == Total(w.conns, InHost(h)))
    && (forall h :: h in w.gate.perHost ==> 0 < w.gate.perHost[h] <= w.gate.maxPerHost)
    && (forall i :: 0 <= i < |w.conns| ==> ConnOk(w.gate, w.conns[i]))
  }

  lemma NeverUnderflows(w: World, ev: Event)
    requires WorldOk(w) && Enabled(w, ev)
    ensures NoUnderflow(w, ev)
  {
    if ev.UndoTotal? || ev.Close? {
      SumAtLeast(w.conns, InTotal, ev.t, |w.conns|);
    }
    if ev.ReleaseHost? {
      var h := w.conns[ev.t].host;
      SumAtLeast(w.conns, InHost(h), ev.t, |w.conns|);
      assert HostCount(w.gate, h) == Total(w.conns, InHost(h));
    }
  }

  lemma StepCounts(w: World, t: nat, c: Conn)
    requires t < |w.conns|
    ensures Total(w.conns[t := c], InTotal) == Total(w.conns, InTotal) + InTotal(c) - InTotal(w.conns[t])
    ensures Total(w.conns[t := c], WithinTotal) == Total(w.conns, WithinTotal) + WithinTotal(c) - WithinTotal(w.conns[t])
    ensures forall h :: Total(w.conns[t := c], InHost(h)) == Total(w.conns, InHost(h)) + InHost(h)(c) - InHost(h)(w.conns[t])
    ensures Total(w.conns, WithinTotal) <= Total(w.conns, InTotal)
  {
    SumUpdate(w.conns, InTotal, t, c, |w.conns|);
    SumUpdate(w.conns, WithinTotal, t, c, |w.conns|);
    forall h ensures Total(w.conns[t := c], InHost(h)) == Total(w.conns, InHost(h)) + InHost(h)(c) - InHost(h)(w.conns[t]) {
      SumUpdate(w.conns, InHost(h), t, c, |w.conns|);
    }
    SumMono(w.conns, WithinTotal, InTotal, |w.conns|);
  }

  /** What one section does to the counters is what it does to the connection's own account. */
  lemma StepBalances(g: Gate, c: Conn)
    requires c.OverFull? || (c.HostRefused? && c.counted) || (c.Holding? && c.counted) ==> g.total > 0
    requires c.Releasing? && c.countedHost ==> HostCount(g, c.host) > 0
    requires ConnOk(g, c) && forall h :: h in g.perHost ==> 0 < g.perHost[h] <= g.maxPerHost
    ensures var (g', c') := Step(g, c);
            && g'.maxClients == g.maxClients && g'.maxPerHost == g.maxPerHost && ConnOk(g', c')
            && g'.total - g.total == InTotal(c') - InTotal(c)
            && (forall h :: HostCount(g', h) - HostCount(g, h) == InHost(h)(c') - InHost(h)(c))
            && (forall h :: h in g'.perHost ==> 0 < g'.perHost[h] <= g'.maxPerHost)
            && (WithinTotal(c') > WithinTotal(c) ==> g.total + 1 <= g.maxClients)
  {
  }

  lemma SectionKeeps(w: World, t: nat)
    requires WorldOk(w) && t < |w.conns|
    requires var c := w.conns[t];
             && (c.OverFull? || (c.HostRefused? && c.counted) || (c.Holding? && c.counted) ==> w.gate.total > 0)
             && (c.Releasing? && c.countedHost ==> HostCount(w.gate, c.host) > 0)
    ensures var (g, c) := Step(w.gate, w.conns[t]); WorldOk(World(g, w.conns[t := c]))
  {
    var (g, c) := Step(w.gate, w.conns[t]);
    StepBalances(w.gate, w.conns[t]);
    StepCounts(w, t, c);
    var w' := World(g, w.conns[t := c]);
    forall h ensures HostCount(g, h) == Total(w'.conns, InHost(h)) {
      assert HostCount(w.gate, h) == Total(w.conns, InHost(h));
    }
  }

  lemma ArriveKeeps(w: World, host: string)
    requires WorldOk(w)
    ensures WorldOk(w.(conns := w.conns + [Arrived(host)]))
  {
    var c := Arrived(host);
    SumPrefix(w.conns, c, InTotal, |w.conns|);
    SumPrefix(w.conns, c, WithinTotal, |w.conns|);
    var w' := w.(conns := w.conns + [c]);
    forall h ensures HostCount(w.gate, h) == Total(w'.conns, InHost(h)) {
      SumPrefix(w.conns, c, InHost(h), |w.conns|);
    }
  }

  lemma NextKeeps(w: World, ev: Event)
    requires WorldOk(w) && Enabled(w, ev)
    ensures NoUnderflow(w, ev) && WorldOk(Next(w, ev))
  {
    NeverUnderflows(w, ev);
    if ev.Arrive? {
      ArriveKeeps(w, ev.host);
    } else if !ev.Ban? && !ev.Unban? {
      SectionKeeps(w, ev.t);
    } else {
      assert forall h :: HostCount(Next(w, ev).gate, h) == HostCount(w.gate, h);
    }
  }

  ghost predicate IsRun(maxClients: nat, maxPerHost: nat, worlds: seq<World>, evs: seq<Event>) {
    && |worlds| == |evs| + 1 && worlds[0] == World(NewGate(maxClients, maxPerHost), [])
    && forall i :: 0 <= i < |evs| ==>
         Enabled(worlds[i], evs[i]) && (NoUnderflow(worlds[i], evs[i]) ==> worlds[i + 1] == Next(worlds[i], evs[i]))
  }

  predicate Limited(w: World, maxClients: nat, maxPerHost: nat) {
    w.gate.maxClients == maxClients && w.gate.maxPerHost == maxPerHost
  }

  lemma NextLimited(w: World, ev: Event, maxClients: nat, maxPerHost: nat)
    requires Enabled(w, ev) && NoUnderflow(w, ev) && Limited(w, maxClients, maxPerHost)
    ensures Limited(Next(w, ev), maxClients, maxPerHost)
  {
  }

  lemma {:induction false} RunKeeps(maxClients: nat, maxPerHost: nat, worlds: seq<World>, evs: seq<Event>, n: nat)
    requires IsRun(maxClients, maxPerHost, worlds, evs) && n < |worlds|
    ensures WorldOk(worlds[n]) && Limited(worlds[n], maxClients, maxPerHost)
  {
    if n > 0 {
      RunKeeps(maxClients, maxPerHost, worlds, evs, n - 1);
      NextKeeps(worlds[n - 1], evs[n - 1]);
      NextLimited(worlds[n - 1], evs[n - 1], maxClients, maxPerHost);
    }
  }

  /** Under any interleaving: slots held never exceed the cap, nor the cap per host; the total is
      the slots held plus the additions in flight; no counter underflows; and no host entry is
      left at zero. */
  lemma AdmissionHolds(maxClients: nat, maxPerHost: nat, worlds: seq<World>, evs: seq<Event>, n: nat, host: string)
    requires IsRun(maxClients, maxPerHost, worlds, evs) && n < |worlds|
    ensures var w := worlds[n];
            && (maxClients > 0 ==> Total(w.conns, HoldsSlot) <= maxClients)
            && (maxPerHost > 0 ==> Total(w.conns, HoldsSlotAt(host)) <= maxPerHost)
            && w.gate.total == Total(w.conns, InTotal)
            && HostCount(w.gate, host) == Total(w.conns, InHost(host))
            && (host in w.gate.perHost ==> w.gate.perHost[host] > 0)
            && (n < |evs| ==> NoUnderflow(w, evs[n]))
  {
    RunKeeps(maxClients, maxPerHost, worlds, evs, n);
    var w := worlds[n];
    if maxClients > 0 {
      SumMono(w.conns, HoldsSlot, WithinTotal, |w.conns|);
    }
    if maxPerHost > 0 {
      SumMono(w.conns, HoldsSlotAt(host), InHost(host), |w.conns|);
    }
    assert HostCount(w.gate, host) == Total(w.conns, InHost(host));
    if n < |evs| {
      NeverUnderflows(w, evs[n]);
    }
  }

  /** Who is refused, and why: a host exactly if it is banned when that is looked up; a connection as
      one too many exactly if the cap is reached by those in the total when it is added; one too many of
      its host exactly if that many of it hold a slot or are just giving it back. All others go on. */
  lemma RefusedExactly(maxClients: nat, maxPerHost: nat, worlds: seq<World>, evs: seq<Event>, n: nat)
    requires IsRun(maxClients, maxPerHost, worlds, evs) && n < |evs|
    requires evs[n].CheckBan? || evs[n].CountTotal? || evs[n].CountHost?
    ensures var w, ev := worlds[n], evs[n];
            var host, c := w.conns[ev.t].host, worlds[n + 1].conns[ev.t];
            && (ev.CheckBan? ==> c == if host in w.gate.bans then Gone(Some(Banned)) else NotBanned(host))
            && (ev.CountTotal? ==>
                  c == if maxClients > 0 && Total(w.conns, InTotal) >= maxClients then OverFull(host) else AtHost(host, maxClients > 0))
            && (ev.CountHost? ==>
                  c == if maxPerHost > 0 && Total(w.conns, InHost(host)) >= maxPerHost then HostRefused(host, maxClients > 0)
                       else Holding(host, maxClients > 0, maxPerHost > 0))
  {
    RunKeeps(maxClients, maxPerHost, worlds, evs, n);
    NeverUnderflows(worlds[n], evs[n]);
    var w := worlds[n];
    var host := w.conns[evs[n].t].host;
    assert HostCount(w.gate, host) == Total(w.conns, InHost(host));
    assert ConnOk(w.gate, w.conns[evs[n].t]);
  }
}
