/** AX.25 addresses (section 3.12 of AX.25 v2.2) and UI frames. */
module Ax25 {
  import opened Common
  import opened Callsigns

  const ADDRESS_LEN := 7
  const MAX_DIGIPEATERS := 8
  const CONTROL_UI: byte := 0x03
  const PID_NO_L3: byte := 0xF0
  const SPACE: byte := 0x20

  datatype Ax25Error = Truncated | BadAddress | TooManyDigipeaters

  datatype Address = Address(call: Callsign, cBit: bool, last: bool)

  function NewAddress(call: Callsign): Address { Address(call, false, false) }

  // ---- Addresses ----

  /** Character `i` of the base, padded with spaces. */
  function PaddedAt(base: seq<byte>, i: nat): byte {
    if i < |base| then base[i] else SPACE
  }

  /** The first `n` octets of the callsign field: each character shifted left by one bit. */
  function Shifted(base: seq<byte>, n: nat): seq<byte>
    requires n <= 6 && forall i :: 0 <= i < |base| ==> base[i] < 128
  {
    if n == 0 then [] else Shifted(base, n - 1) + [PaddedAt(base, n - 1) * 2]
  }

  /** `C R R SSID(4) E`, the reserved bits sent as ones. */
  function SsidOctet(a: Address): byte {
    0x60 + a.call.ssid * 2 + (if a.cBit then 0x80 else 0) + (if a.last then 1 else 0)
  }

  function AddressBytes(a: Address): seq<byte> {
    Shifted(a.call.base, 6) + [SsidOctet(a)]
  }

  predicate IsAlnum(ch: byte) {
    IsUpperAlnum(ch) || 0x61 <= ch <= 0x7A
  }

  function Upper(ch: byte): byte {
    if 0x61 <= ch <= 0x7A then ch - 0x20 else ch
  }

  /** The first `n` characters with the padding skipped, or nothing when one is malformed. */
  function Unshifted(buf: seq<byte>, n: nat): Option<seq<byte>>
    requires n <= |buf|
  {
    if n == 0 then Some([])
    else
      match Unshifted(buf, n - 1)
      case None => None
      case Some(base) =>
        var ch := buf[n - 1] / 2;
        if buf[n - 1] % 2 != 0 then None
        else if ch == SPACE then Some(base)
        else if !IsAlnum(ch) then None
        else Some(base + [ch])
  }

  function Uppercase(base: seq<byte>): (r: seq<byte>)
    requires forall i :: 0 <= i < |base| ==> IsAlnum(base[i])
    ensures |r| == |base| && forall i :: 0 <= i < |r| ==> IsUpperAlnum(r[i])
  {
    assert forall i :: 0 <= i < |base| ==> IsAlnum(base[i]) && IsUpperAlnum(Upper(base[i]));
    seq(|base|, i requires 0 <= i < |base| => Upper(base[i]))
  }

  /** `Callsign::new` on a base that is already alphanumeric. */
  function MakeCallsign(base: seq<byte>, ssid: byte): Option<Callsign>
    requires forall i :: 0 <= i < |base| ==> IsAlnum(base[i])
  {
    if base == [] || |base| > 6 || ssid > 15 then None
    else
      var call := RawCallsign.Callsign(Uppercase(base), ssid);
      assert call.Valid();
      Some(call)
  }

  lemma {:induction false} UnshiftedOk(buf: seq<byte>, n: nat)
    requires n <= |buf|
    ensures Unshifted(buf, n).Some? ==>
              |Unshifted(buf, n).value| <= n && forall i :: 0 <= i < |Unshifted(buf, n).value| ==> IsAlnum(Unshifted(buf, n).value[i])
  {
    if n > 0 {
      UnshiftedOk(buf, n - 1);
    }
  }

  function AddressOf(buf: seq<byte>): Result<Address, Ax25Error> {
    if |buf| < ADDRESS_LEN then Err(Truncated)
    else
      match Unshifted(buf, 6)
      case None => Err(BadAddress)
      case Some(base) =>
        UnshiftedOk(buf, 6);
        match MakeCallsign(base, buf[6] / 2 % 16)
        case None => Err(BadAddress)
        case Some(call) => Ok(Address(call, buf[6] >= 128, buf[6] % 2 == 1))
  }

  method EncodeAddress(a: Address, out: seq<byte>) returns (r: seq<byte>)
    ensures r == out + AddressBytes(a)
  {
    r := out;
    var base := a.call.base;
    for i := 0 to 6
      invariant r == out + Shifted(base, i)
    {
      var ch := if i < |base| then base[i] else SPACE;
      r := r + [ch * 2];
    }
    var ssid := 0x60 + a.call.ssid * 2;
    if a.cBit {
      ssid := ssid + 0x80;
    }
    if a.last {
      ssid := ssid + 1;
    }
    r := r + [ssid];
  }

  method DecodeAddress(buf: seq<byte>) returns (r: Result<Address, Ax25Error>)
    ensures r == AddressOf(buf)
  {
    if |buf| < ADDRESS_LEN {
      return Err(Truncated);
    }
    var base: seq<byte> := [];
    for i := 0 to 6
      invariant Unshifted(buf, i) == Some(base)
    {
      var b := buf[i];
      if b % 2 != 0 {
        BadStays(buf, i + 1, 6);
        return Err(BadAddress);
      }
      var ch := b / 2;
      if ch != SPACE {
        if !IsAlnum(ch) {
          BadStays(buf, i + 1, 6);
          return Err(BadAddress);
        }
        base := base + [ch];
      }
    }
    UnshiftedOk(buf, 6);
    var call := MakeCallsign(base, buf[6] / 2 % 16);
    if call.None? {
      return Err(BadAddress);
    }
    return Ok(Address(call.value, buf[6] >= 128, buf[6] % 2 == 1));
  }

  lemma {:induction false} BadStays(buf: seq<byte>, n: nat, m: nat)
    requires n <= m <= |buf| && Unshifted(buf, n).None?
    ensures Unshifted(buf, m).None?
  {
    if n < m {
      BadStays(buf, n, m - 1);
    }
  }

  lemma {:induction false} ShiftedReads(base: seq<byte>, n: nat)
    requires n <= 6 && forall i :: 0 <= i < |base| ==> base[i] < 128
    ensures |Shifted(base, n)| == n
    ensures forall i :: 0 <= i < n ==> Shifted(base, n)[i] == PaddedAt(base, i) * 2
  {
    if n > 0 {
      ShiftedReads(base, n - 1);
    }
  }

  lemma {:induction false} UnshiftedBase(buf: seq<byte>, base: seq<byte>, n: nat)
    requires n <= |buf| && |base| <= 6 && forall i :: 0 <= i < |base| ==> IsUpperAlnum(base[i])
    requires forall i :: 0 <= i < n ==> buf[i] == PaddedAt(base, i) * 2
    ensures Unshifted(buf, n) == Some(base[..Min(n, |base|)])
  {
    if n > 0 {
      UnshiftedBase(buf, base, n - 1);
      if n <= |base| {
        assert base[..n] == base[..n - 1] + [base[n - 1]];
      }
    }
  }

  /** An address reads back as written, whatever follows it. */
  lemma AddressRoundTrip(a: Address, rest: seq<byte>)
    ensures |AddressBytes(a)| == ADDRESS_LEN
    ensures AddressOf(AddressBytes(a) + rest) == Ok(a)
  {
    var base := a.call.base;
    var buf := AddressBytes(a) + rest;
    ShiftedReads(base, 6);
    UnshiftedBase(buf, base, 6);
    assert base[..Min(6, |base|)] == base;
    assert buf[6] == SsidOctet(a);
    assert Uppercase(base) == base;
  }

  // ---- Frames ----

  datatype Ax25Frame = Ax25Frame(
    destination: Address,
    source: Address,
    digipeaters: seq<Address>,
    control: byte,
    pid: Option<byte>,
    info: seq<byte>)
  {
    /** Without the extension bits, which position implies. */
    function Normalised(): Ax25Frame {
      this.(destination := destination.(last := false), source := source.(last := false),
            digipeaters := seq(|digipeaters|, i requires 0 <= i < |digipeaters| => digipeaters[i].(last := false)))
    }

    /** The form `decode` produces: a short path, a PID exactly where the control octet has one. */
    predicate WellFormed() {
      && |digipeaters| <= MAX_DIGIPEATERS
      && (pid.Some? <==> CarriesPid(control))
      && (pid.None? ==> info == [])
    }
  }

  predicate IsUi(control: byte) { control == 0x03 || control == 0x13 }

  /** Only I and UI frames carry a PID octet. */
  predicate CarriesPid(control: byte) { IsUi(control) || control % 2 == 0 }

  function Ui(source: Callsign, destination: Callsign, path: seq<Callsign>, info: seq<byte>): Result<Ax25Frame, Ax25Error> {
    if |path| > MAX_DIGIPEATERS then Err(TooManyDigipeaters)
    else Ok(Ax25Frame(NewAddress(destination).(cBit := true), NewAddress(source),
                      seq(|path|, i requires 0 <= i < |path| => NewAddress(path[i])), CONTROL_UI, Some(PID_NO_L3), info))
  }

  /** Digipeaters `i` and on, the extension bit on the last of them. */
  function DigiBytes(digis: seq<Address>, i: nat): seq<byte>
    requires i <= |digis|
    decreases |digis| - i
  {
    if i == |digis| then [] else AddressBytes(digis[i].(last := i + 1 == |digis|)) + DigiBytes(digis, i + 1)
  }

  function Payload(f: Ax25Frame): seq<byte> {
    [f.control] + (if f.pid.Some? then [f.pid.value] else []) + f.info
  }

  function FrameBytes(f: Ax25Frame): seq<byte> {
    AddressBytes(f.destination.(last := false)) + AddressBytes(f.source.(last := f.digipeaters == []))
    + DigiBytes(f.digipeaters, 0) + Payload(f)
  }

  /** Read digipeaters until one carries the extension bit; where they end. */
  function DigisOf(buf: seq<byte>, offset: nat, digis: seq<Address>, last: bool): Result<(seq<Address>, nat), Ax25Error>
    decreases MAX_DIGIPEATERS - |digis|
  {
    if last then Ok((digis, offset))
    else if |digis| >= MAX_DIGIPEATERS then Err(TooManyDigipeaters)
    else if offset > |buf| then Err(Truncated)
    else match AddressOf(buf[offset..])
      case Err(e) => Err(e)
      case Ok(digi) => DigisOf(buf, offset + ADDRESS_LEN, digis + [digi], digi.last)
  }

  function PayloadOf(destination: Address, source: Address, digis: seq<Address>, buf: seq<byte>, offset: nat)
    : Result<Ax25Frame, Ax25Error>
  {
    if offset >= |buf| then Err(Truncated)
    else if !CarriesPid(buf[offset]) then Ok(Ax25Frame(destination, source, digis, buf[offset], None, []).Normalised())
    else if offset + 1 >= |buf| then Err(Truncated)
    else Ok(Ax25Frame(destination, source, digis, buf[offset], Some(buf[offset + 1]), buf[offset + 2..]).Normalised())
  }

  function FrameOf(buf: seq<byte>): Result<Ax25Frame, Ax25Error> {
    match AddressOf(buf)
    case Err(e) => Err(e)
    case Ok(destination) =>
      if destination.last then Err(BadAddress)
      else match AddressOf(buf[ADDRESS_LEN..])
        case Err(e) => Err(e)
        case Ok(source) =>
          match DigisOf(buf, 2 * ADDRESS_LEN, [], source.last)
          case Err(e) => Err(e)
          case Ok((digis, offset)) => PayloadOf(destination, source, digis, buf, offset)
  }

  method EncodeFrame(f: Ax25Frame) returns (out: seq<byte>)
    ensures out == FrameBytes(f)
  {
    out := EncodeAddress(f.destination.(last := false), []);
    out := EncodeAddress(f.source.(last := f.digipeaters == []), out);
    ghost var head := out;
    var n := |f.digipeaters|;
    for i := 0 to n
      invariant out + DigiBytes(f.digipeaters, i) == head + DigiBytes(f.digipeaters, 0)
    {
      var d := f.digipeaters[i].(last := i + 1 == n);
      ghost var rest := DigiBytes(f.digipeaters, i + 1);
      assert out + (AddressBytes(d) + rest) == out + AddressBytes(d) + rest;
      out := EncodeAddress(d, out);
    }
    assert out + [] == out;
    out := out + [f.control];
    if f.pid.Some? {
      out := out + [f.pid.value];
    }
    out := out + f.info;
  }

  method DecodeFrame(buf: seq<byte>) returns (r: Result<Ax25Frame, Ax25Error>)
    ensures r == FrameOf(buf)
  {
    var destination := DecodeAddress(buf);
    if destination.Err? {
      return Err(destination.error);
    }
    if destination.value.last {
      return Err(BadAddress);
    }
    var source := DecodeAddress(buf[ADDRESS_LEN..]);
    if source.Err? {
      return Err(source.error);
    }
    var offset: nat := 2 * ADDRESS_LEN;
    var digis: seq<Address> := [];
    var last := source.value.last;
    while !last
      invariant |digis| <= MAX_DIGIPEATERS
      invariant DigisOf(buf, offset, digis, last) == DigisOf(buf, 2 * ADDRESS_LEN, [], source.value.last)
      decreases MAX_DIGIPEATERS - |digis|, !last
    {
      if |digis| >= MAX_DIGIPEATERS {
        return Err(TooManyDigipeaters);
      }
      if offset > |buf| {
        return Err(Truncated);
      }
      var digi := DecodeAddress(buf[offset..]);
      if digi.Err? {
        return Err(digi.error);
      }
      last := digi.value.last;
      digis := digis + [digi.value];
      offset := offset + ADDRESS_LEN;
    }
    if offset >= |buf| {
      return Err(Truncated);
    }
    var control := buf[offset];
    offset := offset + 1;
    var pid, info := None, [];
    if IsUi(control) || control % 2 == 0 {
      if offset >= |buf| {
        return Err(Truncated);
      }
      pid := Some(buf[offset]);
      offset := offset + 1;
      info := buf[offset..];
    }
    var f := Ax25Frame(destination.value.(last := false), source.value.(last := false), digis, control, pid, info);
    for i := 0 to |digis|
      invariant |f.digipeaters| == |digis| && f == f.(digipeaters := f.digipeaters)
      invariant f.(digipeaters := digis) == Ax25Frame(destination.value.(last := false), source.value.(last := false), digis, control, pid, info)
      invariant forall j :: 0 <= j < i ==> f.digipeaters[j] == digis[j].(last := false)
      invariant forall j :: i <= j < |digis| ==> f.digipeaters[j] == digis[j]
    {
      f := f.(digipeaters := f.digipeaters[i := f.digipeaters[i].(last := false)]);
    }
    assert f == Ax25Frame(destination.value, source.value, digis, control, pid, info).Normalised();
    return Ok(f);
  }

  // ---- Round trips ----

  lemma {:induction false} DigisRoundTrip(buf: seq<byte>, offset: nat, all: seq<Address>, i: nat, got: seq<Address>, rest: seq<byte>)
    requires i < |all| <= MAX_DIGIPEATERS && offset <= |buf| && buf[offset..] == DigiBytes(all, i) + rest
    requires |got| == i && forall j :: 0 <= j < i ==> got[j].(last := false) == all[j].(last := false)
    ensures var r := DigisOf(buf, offset, got, false);
            && r.Ok? && r.value.1 <= |buf| && buf[r.value.1..] == rest && |r.value.0| == |all|
            && forall j :: 0 <= j < |all| ==> r.value.0[j].(last := false) == all[j].(last := false)
    decreases |all| - i
  {
    var d := all[i].(last := i + 1 == |all|);
    var tail := DigiBytes(all, i + 1) + rest;
    assert DigiBytes(all, i) + rest == AddressBytes(d) + tail;
    AddressRoundTrip(d, tail);
    assert buf[offset + ADDRESS_LEN..] == buf[offset..][ADDRESS_LEN..] == tail;
    if i + 1 < |all| {
      DigisRoundTrip(buf, offset + ADDRESS_LEN, all, i + 1, got + [d], rest);
    } else {
      assert tail == rest;
    }
  }

  lemma PayloadRoundTrip(f: Ax25Frame, digis: seq<Address>, source: Address, buf: seq<byte>, offset: nat)
    requires offset <= |buf| && buf[offset..] == Payload(f) && |digis| == |f.digipeaters|
    requires source.(last := false) == f.source.(last := false)
    requires forall j :: 0 <= j < |digis| ==> digis[j].(last := false) == f.digipeaters[j].(last := false)
    ensures var r := PayloadOf(f.destination.(last := false), source, digis, buf, offset);
            r == Ok(f.Normalised()) <==> (f.pid.Some? <==> CarriesPid(f.control)) && (f.pid.None? ==> f.info == [])
  {
    assert buf[offset] == buf[offset..][0] == f.control;
    if f.pid.Some? {
      assert buf[offset + 1] == buf[offset..][1] == f.pid.value;
      assert buf[offset + 2..] == buf[offset..][2..] == f.info;
    }
    assert Ax25Frame(f.destination, source, digis, f.control, f.pid, f.info).Normalised() == f.Normalised();
  }

  /** A frame reads back as itself, extension bits aside, exactly when it is well formed. */
  lemma FrameRoundTrip(f: Ax25Frame)
    ensures FrameOf(FrameBytes(f)) == Ok(f.Normalised()) <==> f.WellFormed()
  {
    var buf := FrameBytes(f);
    var dest, src := f.destination.(last := false), f.source.(last := f.digipeaters == []);
    var afterSource := DigiBytes(f.digipeaters, 0) + Payload(f);
    var afterDest := AddressBytes(src) + afterSource;
    assert buf == AddressBytes(dest) + afterDest;
    AddressRoundTrip(dest, afterDest);
    AddressRoundTrip(src, afterSource);
    assert buf[ADDRESS_LEN..] == afterDest;
    assert buf[2 * ADDRESS_LEN..] == afterDest[ADDRESS_LEN..] == afterSource;
    if f.digipeaters == [] {
      assert afterSource == Payload(f);
      PayloadRoundTrip(f, [], src, buf, 2 * ADDRESS_LEN);
    } else if |f.digipeaters| <= MAX_DIGIPEATERS {
      DigisRoundTrip(buf, 2 * ADDRESS_LEN, f.digipeaters, 0, [], Payload(f));
      var (digis, offset) := DigisOf(buf, 2 * ADDRESS_LEN, [], false).value;
      PayloadRoundTrip(f, digis, src, buf, offset);
    } else {
      DigisBounded(buf, 2 * ADDRESS_LEN, [], false);
      DecodedDigis(buf);
    }
  }

  lemma {:induction false} DigisBounded(buf: seq<byte>, offset: nat, got: seq<Address>, last: bool)
    requires |got| <= MAX_DIGIPEATERS
    ensures DigisOf(buf, offset, got, last).Ok? ==> |DigisOf(buf, offset, got, last).value.0| <= MAX_DIGIPEATERS
    decreases MAX_DIGIPEATERS - |got|
  {
    if !last && |got| < MAX_DIGIPEATERS && offset <= |buf| && AddressOf(buf[offset..]).Ok? {
      var digi := AddressOf(buf[offset..]).value;
      DigisBounded(buf, offset + ADDRESS_LEN, got + [digi], digi.last);
    }
  }

  /** Whatever decodes is in normal form. */
  lemma DecodedDigis(buf: seq<byte>)
    ensures FrameOf(buf).Ok? ==> FrameOf(buf).value.WellFormed() && FrameOf(buf).value == FrameOf(buf).value.Normalised()
  {
    if FrameOf(buf).Ok? {
      var source := AddressOf(buf[ADDRESS_LEN..]).value;
      DigisBounded(buf, 2 * ADDRESS_LEN, [], source.last);
      var f := FrameOf(buf).value;
      assert f.Normalised().digipeaters == f.digipeaters;
    }
  }

  /** Decoding is a normal form: what was decoded encodes and decodes to itself. */
  lemma DecodeIsStable(buf: seq<byte>)
    requires FrameOf(buf).Ok?
    ensures FrameOf(FrameBytes(FrameOf(buf).value)) == FrameOf(buf)
  {
    DecodedDigis(buf);
    FrameRoundTrip(FrameOf(buf).value);
  }

  /** A UI frame over a path of up to eight digipeaters decodes to itself. */
  lemma UiRoundTrip(source: Callsign, destination: Callsign, path: seq<Callsign>, info: seq<byte>)
    ensures Ui(source, destination, path, info).Ok? <==> |path| <= MAX_DIGIPEATERS
    ensures var f := Ui(source, destination, path, info);
            f.Ok? ==> FrameOf(FrameBytes(f.value)) == f
  {
    if |path| <= MAX_DIGIPEATERS {
      var f := Ui(source, destination, path, info).value;
      FrameRoundTrip(f);
      assert f.Normalised().digipeaters == f.digipeaters;
    }
  }
}
