/** What the octets on the wire are, bit by bit, and exactly which octet strings are read as
    something: AX.25 addresses and frames, KISS, and the AIRC header. */
module WireFormats {
  import opened Common
  import opened Callsigns
  import Ax25
  import AircFrames
  import Kiss
  import Session

  // ---- AX.25 addresses ----

  lemma FiveDown(n: nat, k: nat)
    ensures HasBit(n, k + 5) <==> HasBit(n / 32, k)
  {
    assert HasBit(n, k + 5) == HasBit(n / 2, k + 4) == HasBit(n / 2 / 2, k + 3);
    assert HasBit(n / 2 / 2, k + 3) == HasBit(n / 2 / 2 / 2, k + 2) == HasBit(n / 2 / 2 / 2 / 2, k + 1);
    assert HasBit(n / 2 / 2 / 2 / 2, k + 1) == HasBit(n / 2 / 2 / 2 / 2 / 2, k);
    assert n / 2 / 2 / 2 / 2 / 2 == n / 32;
  }

  lemma HighBits(ssid: nat, c: bool, last: bool, octet: nat)
    requires ssid < 16 && octet == 0x60 + ssid * 2 + (if c then 0x80 else 0) + (if last then 1 else 0)
    ensures HasBit(octet, 7) <==> c
    ensures HasBit(octet, 6) && HasBit(octet, 5)
  {
    FiveDown(octet, 0);
    FiveDown(octet, 1);
    FiveDown(octet, 2);
    assert octet / 32 == if c then 7 else 3;
    assert HasBit(7, 0) && HasBit(7, 1) && HasBit(7, 2) by { assert HasBit(3, 1) && HasBit(1, 0); }
    assert HasBit(3, 0) && HasBit(3, 1) && !HasBit(3, 2) by { assert HasBit(1, 0) && !HasBit(1, 1) && !HasBit(0, 0); }
  }

  lemma SsidBits(ssid: nat, c: bool, last: bool, octet: nat)
    requires ssid < 16 && octet == 0x60 + ssid * 2 + (if c then 0x80 else 0) + (if last then 1 else 0)
    ensures forall k: nat :: k < 4 ==> (HasBit(octet, k + 1) <==> HasBit(ssid, k))
    ensures HasBit(octet, 0) <==> last
  {
    var m := if c then 7 else 3;
    assert octet / 2 == ssid + 16 * m;
    forall k: nat | k < 4 ensures HasBit(octet, k + 1) <==> HasBit(ssid, k) {
      LowBits(ssid, m, k);
    }
  }

  lemma {:induction false} LowBits(n: nat, m: nat, k: nat)
    requires k < 4
    ensures HasBit(n + 16 * m, k) <==> HasBit(n, k)
  {
    LowBitsOf(n, m, k, 16);
  }

  lemma {:induction false} LowBitsOf(n: nat, m: nat, k: nat, w: nat)
    requires (k == 0 && w == 2) || (k <= 1 && w == 4) || (k <= 2 && w == 8) || (k <= 3 && w == 16)
    ensures HasBit(n + w * m, k) <==> HasBit(n, k)
  {
    if k > 0 {
      assert (n + w * m) / 2 == n / 2 + w / 2 * m;
      LowBitsOf(n / 2, m, k - 1, w / 2);
    }
  }

  /** Section 3.12 of AX.25 v2.2: six characters shifted left, padded with spaces, then the octet with
      the command bit on top, two reserved bits set, the SSID in bits one to four, and the extension
      bit lowest. */
  lemma AddressLayout(a: Ax25.Address)
    ensures var b := Ax25.AddressBytes(a);
            && |b| == 7
            && (forall i :: 0 <= i < 6 ==> b[i] == 2 * (if i < |a.call.base| then a.call.base[i] else 0x20))
            && (HasBit(b[6], 7) <==> a.cBit) && HasBit(b[6], 6) && HasBit(b[6], 5)
            && (forall k: nat :: k < 4 ==> (HasBit(b[6], k + 1) <==> HasBit(a.call.ssid, k)))
            && (HasBit(b[6], 0) <==> a.last)
  {
    Ax25.ShiftedReads(a.call.base, 6);
    HighBits(a.call.ssid, a.cBit, a.last, Ax25.SsidOctet(a));
    SsidBits(a.call.ssid, a.cBit, a.last, Ax25.SsidOctet(a));
  }

  predicate LetterOrDigit(b: byte) { 0x30 <= b <= 0x39 || 0x41 <= b <= 0x5A || 0x61 <= b <= 0x7A }

  const PAD: byte := 0x40

  /** The six character octets have their low bit clear and carry letters, digits or padding, and are
      not all padding. */
  predicate Readable(buf: seq<byte>) {
    && |buf| >= 7
    && (forall i :: 0 <= i < 6 ==> buf[i] % 2 == 0 && (buf[i] == PAD || LetterOrDigit(buf[i] / 2)))
    && exists i :: 0 <= i < 6 && buf[i] != PAD
  }

  lemma {:induction false} UnshiftedExactly(buf: seq<byte>, n: nat)
    requires n <= |buf|
    ensures Ax25.Unshifted(buf, n).Some?
            <==> forall i :: 0 <= i < n ==> buf[i] % 2 == 0 && (buf[i] == PAD || LetterOrDigit(buf[i] / 2))
    ensures Ax25.Unshifted(buf, n).Some? ==>
              (Ax25.Unshifted(buf, n).value == [] <==> forall i :: 0 <= i < n ==> buf[i] == PAD)
  {
    if n > 0 {
      UnshiftedExactly(buf, n - 1);
    }
  }

  /** An address is read exactly from readable octets; too few are told from malformed ones, and the
      extension bit is the lowest of the seventh. */
  lemma AddressReadExactly(buf: seq<byte>)
    ensures Ax25.AddressOf(buf).Ok? <==> Readable(buf)
    ensures Ax25.AddressOf(buf) == Err(Ax25.Truncated) <==> |buf| < 7
    ensures Readable(buf) ==> (Ax25.AddressOf(buf).value.last <==> buf[6] % 2 == 1)
  {
    if |buf| >= 7 {
      UnshiftedExactly(buf, 6);
      Ax25.UnshiftedOk(buf, 6);
    }
  }

  // ---- AX.25 frames ----

  /** From `at` on, `m` addresses; the extension bit is on the last of them only. */
  predicate AddressesAt(buf: seq<byte>, at: nat, m: nat)
    decreases m
  {
    m == 0 || (AddressAt(buf, at, m == 1) && AddressesAt(buf, at + 7, m - 1))
  }

  predicate AddressAt(buf: seq<byte>, at: nat, last: bool) {
    at + 7 <= |buf| && Readable(buf[at..]) && (buf[at + 6] % 2 == 1 <==> last)
  }

  /** This address, the extension bit aside, is what is read there. */
  predicate IsAddressAt(buf: seq<byte>, at: nat, a: Ax25.Address) {
    && at <= |buf| && Ax25.AddressOf(buf[at..]).Ok?
    && a.(last := false) == Ax25.AddressOf(buf[at..]).value.(last := false)
  }

  lemma AddressAtReads(buf: seq<byte>, at: nat, last: bool)
    requires at <= |buf|
    ensures AddressAt(buf, at, last) <==> Ax25.AddressOf(buf[at..]).Ok? && Ax25.AddressOf(buf[at..]).value.last == last
  {
    AddressReadExactly(buf[at..]);
    if at + 7 <= |buf| {
      assert buf[at..][6] == buf[at + 6];
    }
  }

  /** As many digipeaters are read as there are up to the extension bit. */
  lemma {:induction false} DigisReadExactly(buf: seq<byte>, offset: nat, got: seq<Ax25.Address>, m: nat)
    requires offset <= |buf| && |got| + m <= 8 && m > 0 && AddressesAt(buf, offset, m)
    ensures var r := Ax25.DigisOf(buf, offset, got, false);
            r.Ok? && |r.value.0| == |got| + m && r.value.1 == offset + 7 * m && got <= r.value.0
    decreases m
  {
    AddressAtReads(buf, offset, m == 1);
    if m > 1 {
      DigisReadExactly(buf, offset + 7, got + [Ax25.AddressOf(buf[offset..]).value], m - 1);
    }
  }

  /** And they are those that are there. */
  lemma {:induction false} DigisAreThose(buf: seq<byte>, offset: nat, got: seq<Ax25.Address>, m: nat, j: nat)
    requires offset <= |buf| && |got| + m <= 8 && j < m && AddressesAt(buf, offset, m)
    ensures var r := Ax25.DigisOf(buf, offset, got, false);
            r.Ok? && |r.value.0| == |got| + m && IsAddressAt(buf, offset + 7 * j, r.value.0[|got| + j])
    decreases m
  {
    DigisReadExactly(buf, offset, got, m);
    AddressAtReads(buf, offset, m == 1);
    if m > 1 {
      var first := Ax25.AddressOf(buf[offset..]).value;
      if j > 0 {
        DigisAreThose(buf, offset + 7, got + [first], m - 1, j - 1);
      } else {
        DigisReadExactly(buf, offset + 7, got + [first], m - 1);
        assert (got + [first])[|got|] == first;
      }
    }
  }

  lemma {:induction false} DigisReadThere(buf: seq<byte>, offset: nat, got: seq<Ax25.Address>) returns (m: nat)
    requires offset <= |buf| && |got| <= 8 && Ax25.DigisOf(buf, offset, got, false).Ok?
    ensures m > 0 && |got| + m <= 8 && AddressesAt(buf, offset, m)
    decreases 8 - |got|
  {
    var first := Ax25.AddressOf(buf[offset..]).value;
    AddressAtReads(buf, offset, first.last);
    m := 1;
    if !first.last {
      var rest := DigisReadThere(buf, offset + 7, got + [first]);
      m := rest + 1;
    }
  }

  /** Destination, source and `n` digipeaters, the extension bit on the last of them only, then the
      control octet, and a PID octet if that asks for one. */
  predicate FrameLayout(buf: seq<byte>, n: nat) {
    && n <= 8 && AddressesAt(buf, 0, n + 2) && |buf| > 7 * (n + 2)
    && (Ax25.CarriesPid(buf[7 * (n + 2)]) ==> |buf| > 7 * (n + 2) + 1)
  }

  /** Two addresses and `n` digipeaters are read, and the payload begins after them. */
  lemma HeaderIsRead(buf: seq<byte>, n: nat)
    requires n <= 8 && AddressesAt(buf, 0, n + 2)
    ensures Ax25.AddressOf(buf).Ok? && !Ax25.AddressOf(buf).value.last
    ensures |buf| >= 14 && AddressesAt(buf, 14, n)
    ensures Ax25.AddressOf(buf[7..]).Ok? && Ax25.AddressOf(buf[7..]).value.last == (n == 0)
    ensures var r := Ax25.DigisOf(buf, 14, [], n == 0); r.Ok? && |r.value.0| == n && r.value.1 == 7 * (n + 2)
  {
    assert AddressesAt(buf, 7, n + 1);
    assert buf[0..] == buf;
    AddressAtReads(buf, 0, false);
    AddressAtReads(buf, 7, n == 0);
    if n > 0 {
      DigisReadExactly(buf, 14, [], n);
    }
  }

  /** What is laid out as a frame is read as it is laid out. */
  lemma LaidOutIsRead(buf: seq<byte>, n: nat)
    requires FrameLayout(buf, n)
    ensures var r := Ax25.FrameOf(buf);
            && r.Ok? && |r.value.digipeaters| == n && r.value.control == buf[7 * (n + 2)]
            && IsAddressAt(buf, 0, r.value.destination) && IsAddressAt(buf, 7, r.value.source)
            && r.value.pid == (if Ax25.CarriesPid(r.value.control) then Some(buf[7 * (n + 2) + 1]) else None)
            && r.value.info == (if Ax25.CarriesPid(r.value.control) then buf[7 * (n + 2) + 2..] else [])
  {
    HeaderIsRead(buf, n);
    assert buf[0..] == buf;
  }

  lemma DigiIsThere(buf: seq<byte>, n: nat, j: nat, a: Ax25.Address)
    requires |buf| >= 14 && n <= 8 && j < n && AddressesAt(buf, 14, n)
    requires var d := Ax25.DigisOf(buf, 14, [], false); d.Ok? && |d.value.0| == n && a == d.value.0[j].(last := false)
    ensures IsAddressAt(buf, 14 + 7 * j, a)
  {
    DigisAreThose(buf, 14, [], n, j);
  }

  lemma PathIsRead(buf: seq<byte>, n: nat, j: nat)
    requires FrameLayout(buf, n) && j < n
    ensures |buf| >= 14 && AddressesAt(buf, 14, n)
    ensures var r, d := Ax25.FrameOf(buf), Ax25.DigisOf(buf, 14, [], false);
            && r.Ok? && d.Ok? && |r.value.digipeaters| == |d.value.0| == n
            && r.value.digipeaters[j] == d.value.0[j].(last := false)
  {
    HeaderIsRead(buf, n);
  }

  /** So are its digipeaters, in order. */
  lemma DigipeatersAreRead(buf: seq<byte>, n: nat, j: nat)
    requires FrameLayout(buf, n) && j < n
    ensures var r := Ax25.FrameOf(buf); r.Ok? && |r.value.digipeaters| == n && IsAddressAt(buf, 14 + 7 * j, r.value.digipeaters[j])
  {
    PathIsRead(buf, n, j);
    DigiIsThere(buf, n, j, Ax25.FrameOf(buf).value.digipeaters[j]);
  }

  lemma ReadIsLaidOut(buf: seq<byte>) returns (n: nat)
    requires Ax25.FrameOf(buf).Ok?
    ensures FrameLayout(buf, n)
  {
    assert buf[0..] == buf;
    AddressReadExactly(buf);
    AddressAtReads(buf, 0, false);
    var source := Ax25.AddressOf(buf[7..]).value;
    AddressAtReads(buf, 7, source.last);
    n := 0;
    if !source.last {
      n := DigisReadThere(buf, 14, []);
      DigisReadExactly(buf, 14, [], n);
    }
  }

  /** Exactly the octet strings laid out as a frame are read as one. */
  lemma FrameReadExactly(buf: seq<byte>)
    ensures Ax25.FrameOf(buf).Ok? <==> exists n: nat :: FrameLayout(buf, n)
  {
    if Ax25.FrameOf(buf).Ok? {
      var n := ReadIsLaidOut(buf);
    }
    if n: nat :| FrameLayout(buf, n) {
      LaidOutIsRead(buf, n);
    }
  }

  lemma FourBits(n: nat)
    ensures HasBit(n, 0) <==> n % 2 == 1
    ensures HasBit(n, 1) <==> n / 2 % 2 == 1
    ensures HasBit(n, 2) <==> n / 4 % 2 == 1
    ensures HasBit(n, 3) <==> n / 8 % 2 == 1
  {
    assert HasBit(n, 2) == HasBit(n / 2, 1) == HasBit(n / 2 / 2, 0);
    assert HasBit(n, 3) == HasBit(n / 2, 2) == HasBit(n / 2 / 2, 1) == HasBit(n / 2 / 2 / 2, 0);
    assert n / 2 / 2 == n / 4 && n / 2 / 2 / 2 == n / 8;
  }

  lemma Sixteenth(n: nat, d: nat, x: nat)
    requires n == 16 * d + x && x < 16
    ensures n % 16 == x
  {
  }

  lemma FourDigits(n: nat)
    ensures n % 16 == n % 2 + 2 * (n / 2 % 2) + 4 * (n / 4 % 2) + 8 * (n / 8 % 2)
  {
    var a, b, c := n / 2, n / 2 / 2, n / 2 / 2 / 2;
    assert n / 4 == b && n / 8 == c;
    assert n == 2 * a + n % 2 && a == 2 * b + a % 2 && b == 2 * c + b % 2 && c == 2 * (c / 2) + c % 2;
    Sixteenth(n, c / 2, n % 2 + 2 * (a % 2) + 4 * (b % 2) + 8 * (c % 2));
  }

  lemma LowFour(c: byte)
    ensures HasBit(c, 0) && HasBit(c, 1) && !HasBit(c, 2) && !HasBit(c, 3) <==> c % 16 == 3
  {
    FourBits(c);
    FourDigits(c);
  }

  lemma HighThree(c: byte)
    ensures !HasBit(c, 5) && !HasBit(c, 6) && !HasBit(c, 7) <==> c < 32
  {
    FiveDown(c, 0);
    FiveDown(c, 1);
    FiveDown(c, 2);
    var d := c / 32;
    assert HasBit(d, 1) == HasBit(d / 2, 0);
    assert HasBit(d, 2) == HasBit(d / 2, 1) == HasBit(d / 2 / 2, 0);
  }

  /** A PID octet follows the control octet of an I frame, which has the lowest bit clear, and of a UI
      frame, which is 0x03 but for the poll bit. */
  lemma PidExactly(control: byte)
    ensures Ax25.CarriesPid(control) <==>
              || !HasBit(control, 0)
              || (HasBit(control, 0) && HasBit(control, 1) && !HasBit(control, 2) && !HasBit(control, 3)
                  && !HasBit(control, 5) && !HasBit(control, 6) && !HasBit(control, 7))
  {
    LowFour(control);
    HighThree(control);
  }

  /** A UI frame on the wire: command bit on the destination and not on the source, the path as given,
      control 0x03, PID 0xF0, then the information. */
  lemma UiLayout(source: Callsign, destination: Callsign, path: seq<Callsign>, info: seq<byte>)
    requires |path| <= 8
    ensures var f := Ax25.Ui(source, destination, path, info);
            && f.Ok?
            && var b, n := Ax25.FrameBytes(f.value), |path|;
               && FrameLayout(b, n) && b[7 * (n + 2)] == 0x03 && b[7 * (n + 2) + 1] == 0xF0 && b[7 * (n + 2) + 2..] == info
               && IsAddressAt(b, 0, Ax25.Address(destination, true, false))
               && IsAddressAt(b, 7, Ax25.Address(source, false, false))
               && forall j: nat :: j < n ==> IsAddressAt(b, 14 + 7 * j, Ax25.Address(path[j], false, false))
  {
    var f := Ax25.Ui(source, destination, path, info).value;
    Ax25.UiRoundTrip(source, destination, path, info);
    var b := Ax25.FrameBytes(f);
    var n := ReadIsLaidOut(b);
    LaidOutIsRead(b, n);
    forall j: nat | j < n ensures IsAddressAt(b, 14 + 7 * j, Ax25.Address(path[j], false, false)) {
      DigipeatersAreRead(b, n, j);
    }
  }

  // ---- KISS ----

  /** Between two delimiters, the port in the high and the command in the low half of an octet, then the
      payload, the delimiter and the escape replaced by two octets each. */
  lemma KissLayout(f: Kiss.KissFrame)
    requires f.Valid()
    ensures var e, n := Kiss.Encoded(f), |Kiss.Encoded(f)|;
            var kind: int := f.port as int * 16 + f.command as int;
            && n >= 3 && e[0] == 0xC0 && e[n - 1] == 0xC0
            && (forall i :: 0 < i < n - 1 ==> e[i] != 0xC0)
            && (kind != 0xC0 && kind != 0xDB ==> e[1] as int == kind)
            && n == 2 + Doubled(f.payload, |f.payload|) + (if kind == 0xC0 || kind == 0xDB then 2 else 1)
  {
    var body := f.Body();
    StuffedLayout(body, |body|);
    StuffedFirst(body, |body|);
    DoubledBody(f.TypeOctet(), f.payload, |f.payload|);
  }

  /** The two octets that stand for the delimiter and for the escape. */
  lemma KissEscapes()
    ensures Kiss.Stuffed(0xC0) == [0xDB, 0xDC] && Kiss.Stuffed(0xDB) == [0xDB, 0xDD]
    ensures forall b: byte :: b != 0xC0 && b != 0xDB ==> Kiss.Stuffed(b) == [b]
  {
  }

  /** How many octets the first `n` take once stuffed. */
  function Doubled(p: seq<byte>, n: nat): nat
    requires n <= |p|
  {
    if n == 0 then 0 else Doubled(p, n - 1) + (if p[n - 1] == 0xC0 || p[n - 1] == 0xDB then 2 else 1)
  }

  lemma {:induction false} DoubledBody(b: byte, p: seq<byte>, n: nat)
    requires n <= |p|
    ensures Doubled([b] + p, n + 1) == Doubled(p, n) + (if b == 0xC0 || b == 0xDB then 2 else 1)
  {
    if n > 0 {
      DoubledBody(b, p, n - 1);
    } else {
      assert Doubled([b] + p, 0) == 0;
    }
  }

  lemma {:induction false} StuffedLayout(body: seq<byte>, n: nat)
    requires n <= |body|
    ensures |Kiss.StuffedPrefix(body, n)| == Doubled(body, n)
    ensures forall i :: 0 <= i < |Kiss.StuffedPrefix(body, n)| ==> Kiss.StuffedPrefix(body, n)[i] != 0xC0
  {
    if n > 0 {
      StuffedLayout(body, n - 1);
    }
  }

  lemma {:induction false} StuffedFirst(body: seq<byte>, n: nat)
    requires 0 < n <= |body|
    ensures |Kiss.StuffedPrefix(body, n)| > 0
    ensures body[0] != 0xC0 && body[0] != 0xDB ==> Kiss.StuffedPrefix(body, n)[0] == body[0]
  {
    if n > 1 {
      StuffedFirst(body, n - 1);
    } else {
      assert Kiss.StuffedPrefix(body, 0) == [];
    }
  }

  /** An escape that escapes nothing loses what came before it in the frame; the octet after it starts
      the frame anew. An escape before a delimiter is no loss. */
  lemma BadEscape(max: nat, buf: seq<byte>, b: byte)
    requires max > 0 && b != 0xC0 && b != 0xDB && b != 0xDC && b != 0xDD
    ensures Kiss.Decode(max, Kiss.Decoder(buf, true, false), [0xDB, b]) == (Kiss.Decoder([b], true, false), [])
    ensures buf != [] ==>
              Kiss.Decode(max, Kiss.Decoder(buf, true, false), [0xDB, 0xC0]).1 == [Kiss.KissFrame(buf[0] / 16, buf[0] % 16, buf[1..])]
  {
    var s := Kiss.Decoder(buf, true, false);
    var t := Kiss.Decoder(buf, true, true);
    Kiss.DecodeOne(max, s, 0xDB);
    Kiss.DecodeOne(max, t, b);
    assert Kiss.Fed(max, t, b) == Kiss.Decoder([b], true, false) by { assert [] + [b] == [b]; }
    Kiss.Chain(max, s, [0xDB], t, [], [b], Kiss.Decoder([b], true, false), []);
    assert [0xDB] + [b] == [0xDB, b];
    Kiss.DecodeOne(max, t, 0xC0);
    Kiss.Chain(max, s, [0xDB], t, [], [0xC0], Kiss.IN_SYNC, Kiss.Leftover(t));
    assert [0xDB] + [0xC0] == [0xDB, 0xC0];
  }

  // ---- The AIRC header ----

  const KINDS := [AircFrames.Hello, AircFrames.Welcome, AircFrames.Join, AircFrames.Part, AircFrames.Msg, AircFrames.Notice,
                  AircFrames.Names, AircFrames.NamesReply, AircFrames.Ping, AircFrames.Pong, AircFrames.Ack, AircFrames.Error,
                  AircFrames.Id, AircFrames.Quit, AircFrames.Presence, AircFrames.Stored]

  /** `A1`, the kind from one up, the flags with bit three saying whether a number is attached, the
      sequence number high octet first, fragment and count, the attached number, the payload. */
  lemma AircLayout(f: AircFrames.AircFrame)
    ensures var b := AircFrames.Encode(f);
            var header := if f.piggyback.Some? then 10 else 8;
            && |b| == header + |f.payload| && b[header..] == f.payload
            && b[0] == 0x41 && b[1] == 0x31
            && 1 <= b[2] <= 16 && KINDS[b[2] - 1] == f.kind
            && (HasBit(b[3], 3) <==> f.piggyback.Some?)
            && (forall k: nat :: k < 8 && k != 3 ==> (HasBit(b[3], k) <==> HasBit(f.flags, k)))
            && 256 * (b[4] as int) + b[5] as int == f.seqno as int && b[6] == f.fragIndex && b[7] == f.fragTotal
            && (f.piggyback.Some? ==> 256 * (b[8] as int) + b[9] as int == f.piggyback.value as int)
  {
    forall k: nat | k < 8 && k != 3 ensures HasBit(f.Normalised().flags, k) <==> HasBit(f.flags, k) {
      PutBitReads(f.flags, 3, f.piggyback.Some?, k);
    }
  }

  /** An acknowledgement carries the number, high octet first, and the bitmap if only part arrived. */
  lemma AckLayout(o: Session.OwedAck)
    ensures var f := Session.OwedFrame(o);
            && f.kind == AircFrames.Ack && f.fragTotal == 1 && f.fragIndex == 0 && f.flags == 0 && f.piggyback.None?
            && |f.payload| >= 2 && 256 * (f.payload[0] as int) + f.payload[1] as int == o.seqno as int
            && f.payload[2..] == (if o.bitmap.Some? then o.bitmap.value else [])
  {
  }
}
