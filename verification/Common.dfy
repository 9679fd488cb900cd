/** Octets, sixteen-bit numbers, time and the small containers every other module uses. */
module Common {

  datatype Option<+T> = None | Some(value: T)

  datatype Result<+T, +E> = Ok(value: T) | Err(error: E)

  /** One octet. Bit operations on it are written as arithmetic. */
  type byte = b: int | 0 <= b < 256

  type u16 = n: int | 0 <= n < 65536

  /** A point on the monotonic clock, in microseconds. */
  type Instant = int

  /** `now.saturating_duration_since(then)`. */
  function Since(now: Instant, then_: Instant): nat {
    if now >= then_ then now - then_ else 0
  }

  function Max(a: int, b: int): int {
    if a >= b then a else b
  }

  function Min(a: int, b: int): int {
    if a <= b then a else b
  }

  function Pow2(w: nat): nat {
    if w == 0 then 1 else 2 * Pow2(w - 1)
  }

  /** Bit `k` of `n`, counted from the least significant: `n & (1 << k) != 0`. */
  predicate HasBit(n: nat, k: nat) {
    if k == 0 then n % 2 == 1 else HasBit(n / 2, k - 1)
  }

  /** `n | (1 << k)` when `on`, `n & !(1 << k)` otherwise. */
  function PutBit(n: nat, k: nat, on: bool): nat {
    if k == 0 then n / 2 * 2 + (if on then 1 else 0)
    else n % 2 + 2 * PutBit(n / 2, k - 1, on)
  }

  lemma {:induction false} PutBitWidth(n: nat, k: nat, on: bool, w: nat)
    requires n < Pow2(w) && k < w
    ensures PutBit(n, k, on) < Pow2(w)
  {
    if k > 0 {
      PutBitWidth(n / 2, k - 1, on, w - 1);
    }
  }

  lemma {:induction false} PutBitReads(n: nat, k: nat, on: bool, m: nat)
    ensures HasBit(PutBit(n, k, on), m) == if m == k then on else HasBit(n, m)
  {
    if k > 0 && m > 0 {
      PutBitReads(n / 2, k - 1, on, m - 1);
    }
  }

  lemma {:induction false} PutBitSame(n: nat, k: nat)
    ensures PutBit(n, k, HasBit(n, k)) == n
  {
    if k > 0 {
      PutBitSame(n / 2, k - 1);
    }
  }

  function SetBit(b: byte, k: nat): (r: byte)
    requires k < 8
    ensures HasBit(r, k)
  {
    PutBitWidth(b, k, true, 8);
    assert Pow2(8) == 256 by { assert Pow2(4) == 16; }
    PutBitReads(b, k, true, k);
    PutBit(b, k, true)
  }

  function ClearBit(b: byte, k: nat): (r: byte)
    requires k < 8
    ensures !HasBit(r, k)
  {
    PutBitWidth(b, k, false, 8);
    assert Pow2(8) == 256 by { assert Pow2(4) == 16; }
    PutBitReads(b, k, false, k);
    PutBit(b, k, false)
  }

  function U16Bytes(n: u16): seq<byte> {
    [n / 256, n % 256]
  }

  function U16Of(hi: byte, lo: byte): u16 {
    hi * 256 + lo
  }

  /** A key whose stamp is least: `iter().min_by_key(..)`. When several tie, which one it is
      depends on the iteration order of a hash map, so nothing more is promised. */
  ghost predicate IsOldest<K(!new)>(stamps: map<K, Instant>, k: K) {
    k in stamps && forall j :: j in stamps ==> stamps[k] <= stamps[j]
  }

  method Oldest<K(!new, ==)>(stamps: map<K, Instant>) returns (best: K)
    requires |stamps| > 0
    ensures IsOldest(stamps, best)
  {
    var rest := stamps.Keys;
    assert rest != {};
    best :| best in rest;
    rest := rest - {best};
    while rest != {}
      invariant rest <= stamps.Keys && best in stamps.Keys - rest
      invariant forall j :: j in stamps.Keys - rest ==> stamps[best] <= stamps[j]
      decreases |rest|
    {
      var k :| k in rest;
      rest := rest - {k};
      if stamps[k] < stamps[best] {
        best := k;
      }
    }
  }

  /** `order` lists every member of `keys` exactly once: some iteration order of a hash map. */
  ghost predicate Enumerates<K>(order: seq<K>, keys: set<K>) {
    && |order| == |keys|
    && (forall i :: 0 <= i < |order| ==> order[i] in keys)
    && (forall i, j :: 0 <= i < j < |order| ==> order[i] != order[j])
  }

  method Enumerate<K(==)>(keys: set<K>) returns (order: seq<K>)
    ensures Enumerates(order, keys)
  {
    order := [];
    var rest := keys;
    while rest != {}
      invariant rest <= keys && |order| + |rest| == |keys|
      invariant forall i :: 0 <= i < |order| ==> order[i] in keys && order[i] !in rest
      invariant forall i, j :: 0 <= i < j < |order| ==> order[i] != order[j]
      decreases |rest|
    {
      var k :| k in rest;
      rest := rest - {k};
      order := order + [k];
    }
  }

  lemma {:induction false} EnumeratesAll<K>(order: seq<K>, keys: set<K>)
    requires Enumerates(order, keys)
    ensures forall k :: k in keys <==> k in order
    decreases |order|
  {
    if order != [] {
      var n := |order| - 1;
      EnumeratesAll(order[..n], keys - {order[n]});
      assert order == order[..n] + [order[n]];
    }
  }

  predicate Distinct<T(==)>(s: seq<T>) {
    forall i, j :: 0 <= i < j < |s| ==> s[i] != s[j]
  }

  lemma {:induction false} SmallerSet<T>(a: set<T>, b: set<T>)
    requires a <= b
    ensures |a| <= |b|
  {
    assert b == a + (b - a);
  }

  /** A run as it is being built: the states, and the events between them. */
  datatype Trace<S, E> = Trace(states: seq<S>, events: seq<E>) {
    predicate Whole() { |states| == |events| + 1 }

    function Last(): S
      requires Whole()
    {
      states[|events|]
    }

    /** One event more, leading to `s`. */
    function Then(e: E, s: S): Trace<S, E> { Trace(states + [s], events + [e]) }

    lemma ThenKeeps(e: E, s: S)
      requires Whole()
      ensures Then(e, s).Whole() && Then(e, s).Last() == s
      ensures forall i :: 0 <= i < |states| ==> Then(e, s).states[i] == states[i]
      ensures forall i :: 0 <= i < |events| ==> Then(e, s).events[i] == events[i]
      ensures Then(e, s).events[|events|] == e
    {
    }
  }

  function Concat<T>(parts: seq<seq<T>>): seq<T> {
    if parts == [] then [] else parts[0] + Concat(parts[1..])
  }
}
