/** UTF-8 as RFC 3629 has it, and decoding that replaces what is not: each maximal beginning of a
    sequence that does not go on, and each octet that begins none, becomes one U+FFFD. Text is
    its octets here. */
module Utf8 {
  import opened Common

  const REPLACEMENT: seq<byte> := [0xEF, 0xBF, 0xBD]

  predicate Tail(b: byte) { 0x80 <= b <= 0xBF }

  /** The length of the sequence an octet begins; none begins with it if zero. */
  function Need(b: byte): (n: nat)
    ensures n <= 4
  {
    if b < 0x80 then 1
    else if 0xC2 <= b <= 0xDF then 2
    else if 0xE0 <= b <= 0xEF then 3
    else if 0xF0 <= b <= 0xF4 then 4
    else 0
  }

  /** No overlong forms, no surrogates, nothing beyond U+10FFFF. */
  predicate Second(first: byte, b: byte) {
    && Tail(b)
    && (first == 0xE0 ==> b >= 0xA0) && (first == 0xED ==> b <= 0x9F)
    && (first == 0xF0 ==> b >= 0x90) && (first == 0xF4 ==> b <= 0x8F)
  }

  /** How many octets begin a sequence properly. */
  function Matched(p: seq<byte>): (n: nat)
    requires p != []
    ensures n <= Need(p[0]) && n <= |p|
  {
    var need := Need(p[0]);
    if need <= 1 then need
    else if |p| < 2 || !Second(p[0], p[1]) then 1
    else if need == 2 then 2
    else if |p| < 3 || !Tail(p[2]) then 2
    else if need == 3 then 3
    else if |p| < 4 || !Tail(p[3]) then 3
    else 4
  }

  /** `p` begins with a whole sequence. */
  predicate Whole(p: seq<byte>) {
    p != [] && Need(p[0]) > 0 && Matched(p) == Need(p[0])
  }

  predicate Valid(p: seq<byte>) {
    p == [] || (Whole(p) && Valid(p[Need(p[0])..]))
  }

  function Lossy(p: seq<byte>): seq<byte> {
    if p == [] then []
    else if Whole(p) then p[..Need(p[0])] + Lossy(p[Need(p[0])..])
    else REPLACEMENT + Lossy(p[Max(1, Matched(p))..])
  }

  /** A whole sequence stays one whatever follows. */
  lemma WholeStays(p: seq<byte>, q: seq<byte>)
    requires Whole(p) && |p| == Need(p[0])
    ensures Whole(p + q) && (p + q)[0] == p[0] && (p + q)[Need(p[0])..] == q
  {
  }

  lemma WholeAlone(p: seq<byte>)
    requires Whole(p)
    ensures Whole(p[..Need(p[0])]) && |p[..Need(p[0])]| == Need(p[0])
  {
  }

  lemma ValidMore(p: seq<byte>, q: seq<byte>)
    requires Whole(p) && |p| == Need(p[0]) && Valid(q)
    ensures Valid(p + q)
  {
    WholeStays(p, q);
  }

  lemma {:induction false} LossyIsValid(p: seq<byte>)
    ensures Valid(Lossy(p))
  {
    if p == [] {
    } else if Whole(p) {
      LossyIsValid(p[Need(p[0])..]);
      WholeAlone(p);
      ValidMore(p[..Need(p[0])], Lossy(p[Need(p[0])..]));
    } else {
      LossyIsValid(p[Max(1, Matched(p))..]);
      ValidMore(REPLACEMENT, Lossy(p[Max(1, Matched(p))..]));
    }
  }

  lemma {:induction false} ValidIsKept(p: seq<byte>)
    requires Valid(p)
    ensures Lossy(p) == p
  {
    if p != [] {
      ValidIsKept(p[Need(p[0])..]);
      assert p == p[..Need(p[0])] + p[Need(p[0])..];
    }
  }

  /** Decoding leaves exactly the valid texts as they are, and makes a valid one of anything. */
  lemma LossyKeepsExactlyValid(p: seq<byte>)
    ensures Lossy(p) == p <==> Valid(p)
    ensures Valid(Lossy(p)) && Lossy(Lossy(p)) == Lossy(p)
  {
    LossyIsValid(p);
    ValidIsKept(Lossy(p));
    if Valid(p) {
      ValidIsKept(p);
    }
  }

  // ---- Against the code points ----

  /** A Unicode scalar value: a code point that is no surrogate. */
  predicate Scalar(c: nat) { c < 0xD800 || 0xE000 <= c < 0x11_0000 }

  /** Section 3 of RFC 3629: the high bits in the first octet, six in each of the others. */
  function Octets(c: nat): seq<byte>
    requires Scalar(c)
  {
    if c < 0x80 then [c]
    else if c < 0x800 then [0xC0 + c / 64, 0x80 + c % 64]
    else if c < 0x1_0000 then [0xE0 + c / 4096, 0x80 + c / 64 % 64, 0x80 + c % 64]
    else [0xF0 + c / 262144, 0x80 + c / 4096 % 64, 0x80 + c / 64 % 64, 0x80 + c % 64]
  }

  lemma OctetsAreWhole(c: nat)
    requires Scalar(c)
    ensures Whole(Octets(c)) && |Octets(c)| == Need(Octets(c)[0])
  {
  }

  lemma TwoOctets(p: seq<byte>) returns (c: nat)
    requires Whole(p) && |p| == Need(p[0]) == 2
    ensures Scalar(c) && Octets(c) == p
  {
    c := (p[0] as int - 0xC0) * 64 + (p[1] - 0x80);
    assert c / 64 == p[0] - 0xC0 && c % 64 == p[1] - 0x80;
  }

  lemma ThreeOctets(p: seq<byte>) returns (c: nat)
    requires Whole(p) && |p| == Need(p[0]) == 3
    ensures Scalar(c) && Octets(c) == p
  {
    var high: nat := (p[0] as int - 0xE0) * 64 + (p[1] - 0x80);
    c := high * 64 + (p[2] - 0x80);
    assert c / 64 == high && c % 64 == p[2] - 0x80;
    assert high / 64 == p[0] - 0xE0 && high % 64 == p[1] - 0x80;
    assert c / 4096 == high / 64;
  }

  lemma FourOctets(p: seq<byte>) returns (c: nat)
    requires Whole(p) && |p| == Need(p[0]) == 4
    ensures Scalar(c) && Octets(c) == p
  {
    var top: nat := (p[0] as int - 0xF0) * 64 + (p[1] - 0x80);
    var high: nat := top * 64 + (p[2] - 0x80);
    c := high * 64 + (p[3] - 0x80);
    assert c / 64 == high && c % 64 == p[3] - 0x80;
    assert high / 64 == top && high % 64 == p[2] - 0x80;
    assert top / 64 == p[0] - 0xF0 && top % 64 == p[1] - 0x80;
    assert c / 4096 == high / 64 && c / 262144 == top / 64;
  }

  lemma WholeIsScalar(p: seq<byte>) returns (c: nat)
    requires Whole(p) && |p| == Need(p[0])
    ensures Scalar(c) && Octets(c) == p
  {
    if |p| == 1 {
      c := p[0];
    } else if |p| == 2 {
      c := TwoOctets(p);
    } else if |p| == 3 {
      c := ThreeOctets(p);
    } else {
      c := FourOctets(p);
    }
  }

  predicate AllScalar(text: seq<nat>) { forall i :: 0 <= i < |text| ==> Scalar(text[i]) }

  function Encoded(text: seq<nat>): seq<byte>
    requires AllScalar(text)
  {
    if text == [] then [] else Octets(text[0]) + Encoded(text[1..])
  }

  ghost predicate IsText(p: seq<byte>) {
    exists text: seq<nat> :: AllScalar(text) && Encoded(text) == p
  }

  lemma {:induction false} EncodedIsValid(text: seq<nat>)
    requires AllScalar(text)
    ensures Valid(Encoded(text))
  {
    if text != [] {
      EncodedIsValid(text[1..]);
      OctetsAreWhole(text[0]);
      ValidMore(Octets(text[0]), Encoded(text[1..]));
    }
  }

  lemma {:induction false} ValidIsEncoded(p: seq<byte>) returns (text: seq<nat>)
    requires Valid(p)
    ensures AllScalar(text) && Encoded(text) == p
  {
    text := [];
    if p != [] {
      var n := Need(p[0]);
      WholeAlone(p);
      var c := WholeIsScalar(p[..n]);
      var rest := ValidIsEncoded(p[n..]);
      text := [c] + rest;
      assert text[1..] == rest && p == p[..n] + p[n..];
    }
  }

  /** What counts as valid is exactly what encodes some text. */
  lemma ValidExactly(p: seq<byte>)
    ensures Valid(p) <==> IsText(p)
  {
    if Valid(p) {
      var text := ValidIsEncoded(p);
    }
    if text: seq<nat> :| AllScalar(text) && Encoded(text) == p {
      EncodedIsValid(text);
    }
  }

  // ---- What is replaced ----

  /** `p` is how some character begins, and more of it is to come. */
  ghost predicate Begins(p: seq<byte>) {
    exists c: nat :: Scalar(c) && |p| < |Octets(c)| && p == Octets(c)[..|p|]
  }

  /** The least octet that may come second. */
  function LeastSecond(first: byte): byte {
    if first == 0xE0 then 0xA0 else if first == 0xF0 then 0x90 else 0x80
  }

  lemma MatchedBegins(p: seq<byte>)
    requires p != [] && !Whole(p) && Matched(p) > 0
    ensures Begins(p[..Matched(p)])
  {
    var m, need := Matched(p), Need(p[0]);
    var second := if m > 1 then p[1] else LeastSecond(p[0]);
    var third := if m > 2 then p[2] else 0x80;
    var w: seq<byte> := [p[0], second, third, 0x80][..need];
    assert Whole(w) && |w| == Need(w[0]);
    var c := WholeIsScalar(w);
    assert Octets(c)[..m] == p[..m];
  }

  lemma MatchedIsMost(p: seq<byte>, n: nat)
    requires p != [] && !Whole(p) && Matched(p) < n <= |p|
    ensures !Begins(p[..n])
  {
    if Begins(p[..n]) {
      var c: nat :| Scalar(c) && n < |Octets(c)| && p[..n] == Octets(c)[..n];
      OctetsAreWhole(c);
      var w := Octets(c);
      assert w[0] == p[0] && forall i :: 0 <= i < n ==> w[i] == p[i];
      assert false;
    }
  }

  /** Text is kept as far as it goes. */
  lemma {:induction false} LossyKeepsText(p: seq<byte>, q: seq<byte>)
    requires Valid(p)
    ensures Lossy(p + q) == p + Lossy(q)
  {
    if p == [] {
      assert p + q == q;
    } else {
      var n := Need(p[0]);
      var first, rest := p[..n], p[n..];
      WholeAlone(p);
      assert p + q == first + (rest + q) && p == first + rest;
      WholeStays(first, rest + q);
      LossyKeepsText(rest, q);
      assert (p + q)[..n] == first;
      assert first + (rest + Lossy(q)) == p + Lossy(q);
    }
  }

  /** Where it stops, the longest beginning of a character that stands there, or one octet if none
      does, becomes U+FFFD, and reading goes on behind it. */
  lemma LossyReplaces(q: seq<byte>) returns (n: nat)
    requires q != [] && !Whole(q)
    ensures 1 <= n <= |q| && Lossy(q) == Octets(0xFFFD) + Lossy(q[n..])
    ensures Begins(q[..n]) || n == 1
    ensures forall m :: n < m <= |q| ==> !Begins(q[..m])
  {
    n := Max(1, Matched(q));
    assert Octets(0xFFFD) == REPLACEMENT;
    if Matched(q) > 0 {
      MatchedBegins(q);
    }
    forall m | n < m <= |q| ensures !Begins(q[..m]) {
      MatchedIsMost(q, m);
    }
  }
}
