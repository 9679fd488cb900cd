/** The AIRC/1 frame: an eight-octet header, an optional piggybacked acknowledgement, a payload. */
module AircFrames {
  import opened Common
  import Utf8

  const HEADER_LEN := 8
  const FS: byte := 0x1F

  // Flag bits, by bit number: the masks are 0x01, 0x02, 0x04 and 0x08.
  const ACK_REQ: nat := 0
  const RETRY: nat := 1
  const TRUNCATED: nat := 2
  const PIGGYACK: nat := 3

  datatype Kind =
    | Hello | Welcome | Join | Part | Msg | Notice | Names | NamesReply
    | Ping | Pong | Ack | Error | Id | Quit | Presence | Stored

  datatype AircError = Truncated | NotAirc | UnknownKind(code: byte) | BadFragment

  function KindCode(k: Kind): byte {
    match k
    case Hello => 0x01
    case Welcome => 0x02
    case Join => 0x03
    case Part => 0x04
    case Msg => 0x05
    case Notice => 0x06
    case Names => 0x07
    case NamesReply => 0x08
    case Ping => 0x09
    case Pong => 0x0A
    case Ack => 0x0B
    case Error => 0x0C
    case Id => 0x0D
    case Quit => 0x0E
    case Presence => 0x0F
    case Stored => 0x10
  }

  function KindOf(code: byte): Result<Kind, AircError> {
    match code
    case 0x01 => Ok(Hello)
    case 0x02 => Ok(Welcome)
    case 0x03 => Ok(Join)
    case 0x04 => Ok(Part)
    case 0x05 => Ok(Msg)
    case 0x06 => Ok(Notice)
    case 0x07 => Ok(Names)
    case 0x08 => Ok(NamesReply)
    case 0x09 => Ok(Ping)
    case 0x0A => Ok(Pong)
    case 0x0B => Ok(Ack)
    case 0x0C => Ok(Error)
    case 0x0D => Ok(Id)
    case 0x0E => Ok(Quit)
    case 0x0F => Ok(Presence)
    case 0x10 => Ok(Stored)
    case _ => Err(UnknownKind(code))
  }

  datatype AircFrame = AircFrame(
    kind: Kind,
    flags: byte,
    seqno: u16,
    fragIndex: byte,
    fragTotal: byte,
    payload: seq<byte>,
    piggyback: Option<u16>)
  {
    predicate WantsAck() { HasBit(flags, ACK_REQ) }

    predicate FragmentOk() { fragIndex < fragTotal }

    /** What `decode` always produces: the piggyback flag says whether a number is attached. */
    predicate Normal() { FragmentOk() && (HasBit(flags, PIGGYACK) <==> piggyback.Some?) }

    function WithFlag(bit: nat): AircFrame
      requires bit < 8
    {
      this.(flags := SetBit(flags, bit))
    }

    function WithPiggyback(ack: u16): AircFrame {
      this.(piggyback := Some(ack), flags := SetBit(flags, PIGGYACK))
    }

    /** The frame with its piggyback flag brought into line with the attached number. */
    function Normalised(): AircFrame {
      this.(flags := if piggyback.Some? then SetBit(flags, PIGGYACK) else ClearBit(flags, PIGGYACK))
    }
  }

  function NewFrame(kind: Kind, seqno: u16, payload: seq<byte>): AircFrame {
    AircFrame(kind, 0, seqno, 0, 1, payload, None)
  }

  function Encode(f: AircFrame): seq<byte> {
    [0x41, 0x31, KindCode(f.kind), f.Normalised().flags] + U16Bytes(f.seqno) + [f.fragIndex, f.fragTotal]
    + (if f.piggyback.Some? then U16Bytes(f.piggyback.value) else [])
    + f.payload
  }

  function Decode(buf: seq<byte>): Result<AircFrame, AircError> {
    if |buf| < HEADER_LEN then Err(Truncated)
    else if buf[0] != 0x41 || buf[1] != 0x31 then Err(NotAirc)
    else if buf[7] == 0 || buf[6] >= buf[7] then Err(BadFragment)
    else if HasBit(buf[3], PIGGYACK) && |buf| < HEADER_LEN + 2 then Err(Truncated)
    else
      match KindOf(buf[2])
      case Err(e) => Err(e)
      case Ok(kind) =>
        var piggy := HasBit(buf[3], PIGGYACK);
        Ok(AircFrame(kind, buf[3], U16Of(buf[4], buf[5]), buf[6], buf[7],
                     if piggy then buf[HEADER_LEN + 2..] else buf[HEADER_LEN..],
                     if piggy then Some(U16Of(buf[8], buf[9])) else None))
  }

  lemma DecodeEncode(f: AircFrame)
    ensures Decode(Encode(f)) == if f.FragmentOk() then Ok(f.Normalised()) else Err(BadFragment)
    ensures f.Normal() ==> Decode(Encode(f)) == Ok(f)
  {
    var b := Encode(f);
    PutBitSame(f.flags, PIGGYACK);
    var head := [0x41, 0x31, KindCode(f.kind), f.Normalised().flags] + U16Bytes(f.seqno) + [f.fragIndex, f.fragTotal];
    if f.piggyback.Some? {
      assert b == head + U16Bytes(f.piggyback.value) + f.payload;
      assert b[HEADER_LEN + 2..] == f.payload;
      assert b[8] == U16Bytes(f.piggyback.value)[0] && b[9] == U16Bytes(f.piggyback.value)[1];
    } else {
      assert b == head + f.payload;
      assert b[HEADER_LEN..] == f.payload;
    }
    assert KindOf(KindCode(f.kind)) == Ok(f.kind);
  }

  lemma EncodeDecode(b: seq<byte>)
    ensures Decode(b).Ok? ==> Encode(Decode(b).value) == b && Decode(b).value.Normal()
  {
    if Decode(b).Ok? {
      var f := Decode(b).value;
      PutBitSame(f.flags, PIGGYACK);
      assert KindCode(f.kind) == b[2];
      var head := [0x41, 0x31, b[2], f.Normalised().flags] + U16Bytes(f.seqno) + [f.fragIndex, f.fragTotal];
      assert head == b[..HEADER_LEN];
      if HasBit(b[3], PIGGYACK) {
        assert U16Bytes(U16Of(b[8], b[9])) == [b[8], b[9]];
        assert b == b[..HEADER_LEN] + [b[8], b[9]] + b[HEADER_LEN + 2..];
      } else {
        assert b == b[..HEADER_LEN] + b[HEADER_LEN..];
      }
    }
  }

  // ---- The codec as it fills and drains buffers ----

  method EncodeFrame(f: AircFrame) returns (out: seq<byte>)
    ensures out == Encode(f)
  {
    var flags := ClearBit(f.flags, PIGGYACK);
    if f.piggyback.Some? {
      flags := SetBit(flags, PIGGYACK);
    }
    SetCleared(f.flags, PIGGYACK);
    out := [0x41, 0x31];
    out := out + [KindCode(f.kind), flags];
    out := out + U16Bytes(f.seqno);
    out := out + [f.fragIndex, f.fragTotal];
    if f.piggyback.Some? {
      out := out + U16Bytes(f.piggyback.value);
    }
    out := out + f.payload;
    assert out == Encode(f);
  }

  lemma {:induction false} PutPut(n: nat, k: nat, a: bool, b: bool)
    ensures PutBit(PutBit(n, k, a), k, b) == PutBit(n, k, b)
  {
    if k > 0 {
      var m := PutBit(n, k, a);
      assert m / 2 == PutBit(n / 2, k - 1, a) && m % 2 == n % 2;
      PutPut(n / 2, k - 1, a, b);
    }
  }

  lemma SetCleared(b: byte, k: nat)
    requires k < 8
    ensures SetBit(ClearBit(b, k), k) == SetBit(b, k)
  {
    PutPut(b, k, false, true);
  }

  method DecodeFrame(buf: seq<byte>) returns (r: Result<AircFrame, AircError>)
    ensures r == Decode(buf)
  {
    if |buf| < HEADER_LEN {
      return Err(Truncated);
    }
    if buf[..2] != [0x41, 0x31] {
      return Err(NotAirc);
    }
    var total, index, flags := buf[7], buf[6], buf[3];
    if total == 0 || index >= total {
      return Err(BadFragment);
    }
    var payload := buf[HEADER_LEN..];
    var piggyback := None;
    if HasBit(flags, PIGGYACK) {
      if |payload| < 2 {
        return Err(Truncated);
      }
      piggyback := Some(U16Of(payload[0], payload[1]));
      payload := payload[2..];
    }
    var kind := KindOf(buf[2]);
    if kind.Err? {
      return Err(kind.error);
    }
    return Ok(AircFrame(kind.value, flags, U16Of(buf[4], buf[5]), index, total, payload, piggyback));
  }

  // ---- Payload fields ----

  predicate FieldOctet(b: byte) { b != FS && b != 0x0D && b != 0x0A && b != 0 }

  /** The first `n` octets without separators, line breaks and NULs. */
  function Scrubbed(field: seq<byte>, n: nat): seq<byte>
    requires n <= |field|
  {
    if n == 0 then []
    else Scrubbed(field, n - 1) + (if FieldOctet(field[n - 1]) then [field[n - 1]] else [])
  }

  function Clean(field: seq<byte>): seq<byte> { Scrubbed(field, |field|) }

  /** The first `n` fields, joined by the separator. */
  function JoinedFields(fields: seq<seq<byte>>, n: nat): seq<byte>
    requires n <= |fields|
  {
    if n == 0 then []
    else JoinedFields(fields, n - 1) + (if n == 1 then [] else [FS]) + Clean(fields[n - 1])
  }

  /** Complete fields, and the one being read, after `n` octets. */
  function SplitAt(p: seq<byte>, n: nat): (seq<seq<byte>>, seq<byte>)
    requires n <= |p|
  {
    if n == 0 then ([], [])
    else
      var (done, current) := SplitAt(p, n - 1);
      if p[n - 1] == FS then (done + [current], []) else (done, current + [p[n - 1]])
  }

  /** The payload cut at the separators. */
  function Pieces(p: seq<byte>): seq<seq<byte>> {
    SplitAt(p, |p|).0 + [SplitAt(p, |p|).1]
  }

  /** The pieces as text, invalid UTF-8 replaced. */
  function Fields(p: seq<byte>): seq<seq<byte>> {
    seq(|Pieces(p)|, i requires 0 <= i < |Pieces(p)| => Utf8.Lossy(Pieces(p)[i]))
  }

  method EncodeFields(fields: seq<seq<byte>>) returns (out: seq<byte>)
    ensures out == JoinedFields(fields, |fields|)
  {
    out := [];
    for i := 0 to |fields|
      invariant out == JoinedFields(fields, i)
    {
      if i > 0 {
        out := out + [FS];
      }
      ghost var before := out;
      for k := 0 to |fields[i]|
        invariant out == before + Scrubbed(fields[i], k)
      {
        if FieldOctet(fields[i][k]) {
          out := out + [fields[i][k]];
        }
      }
    }
  }

  lemma {:induction false} ScrubbedIsClean(field: seq<byte>, n: nat)
    requires n <= |field|
    ensures forall i :: 0 <= i < |Scrubbed(field, n)| ==> FieldOctet(Scrubbed(field, n)[i])
  {
    if n > 0 {
      ScrubbedIsClean(field, n - 1);
    }
  }

  lemma {:induction false} SplitPrefix(p: seq<byte>, q: seq<byte>, n: nat)
    requires n <= |p|
    ensures SplitAt(p + q, n) == SplitAt(p, n)
  {
    if n > 0 {
      SplitPrefix(p, q, n - 1);
    }
  }

  lemma SplitOne(p: seq<byte>, b: byte)
    ensures var (done, current) := SplitAt(p, |p|);
            SplitAt(p + [b], |p| + 1) == if b == FS then (done + [current], []) else (done, current + [b])
  {
    SplitPrefix(p, [b], |p|);
    assert (p + [b])[|p|] == b;
  }

  /** Octets that are not separators extend the field being read. */
  lemma {:induction false} SplitMore(p: seq<byte>, done: seq<seq<byte>>, current: seq<byte>, q: seq<byte>)
    requires SplitAt(p, |p|) == (done, current) && forall i :: 0 <= i < |q| ==> q[i] != FS
    ensures SplitAt(p + q, |p + q|) == (done, current + q)
    ensures current == [] ==> current + q == q
  {
    if q == [] {
      assert p + q == p && current + q == current;
    } else {
      var most, b := q[..|q| - 1], q[|q| - 1];
      SplitMore(p, done, current, most);
      SplitOne(p + most, b);
      assert p + q == p + most + [b] && current + q == current + most + [b];
    }
  }

  function CleanAll(fields: seq<seq<byte>>, n: nat): seq<seq<byte>>
    requires n <= |fields|
  {
    if n == 0 then [] else CleanAll(fields, n - 1) + [Clean(fields[n - 1])]
  }

  lemma {:induction false} FieldsSplit(fields: seq<seq<byte>>, n: nat)
    requires 0 < n <= |fields|
    ensures var p := JoinedFields(fields, n);
            SplitAt(p, |p|) == (CleanAll(fields, n - 1), Clean(fields[n - 1]))
  {
    var last := Clean(fields[n - 1]);
    ScrubbedIsClean(fields[n - 1], |fields[n - 1]|);
    if n == 1 {
      SplitMore([], [], [], last);
      assert JoinedFields(fields, 0) == [];
      assert JoinedFields(fields, n) == [] + last;
    } else {
      FieldsSplit(fields, n - 1);
      var before := JoinedFields(fields, n - 1);
      SplitOne(before, FS);
      SplitMore(before + [FS], CleanAll(fields, n - 1), [], last);
    }
  }

  lemma {:induction false} CleanAllAt(fields: seq<seq<byte>>, n: nat, i: nat)
    requires i < n <= |fields|
    ensures |CleanAll(fields, n)| == n && CleanAll(fields, n)[i] == Clean(fields[i])
  {
    if i < n - 1 {
      CleanAllAt(fields, n - 1, i);
    } else {
      CleanAllSize(fields, n - 1);
    }
  }

  lemma {:induction false} CleanAllSize(fields: seq<seq<byte>>, n: nat)
    requires n <= |fields|
    ensures |CleanAll(fields, n)| == n
  {
    if n > 0 {
      CleanAllSize(fields, n - 1);
    }
  }

  lemma {:induction false} ScrubbedFrom(p: seq<byte>, q: seq<byte>, n: nat)
    requires n <= |q|
    ensures Scrubbed(p + q, |p| + n) == Clean(p) + Scrubbed(q, n)
  {
    if n == 0 {
      ScrubbedPrefix(p, q, |p|);
    } else {
      ScrubbedFrom(p, q, n - 1);
      assert (p + q)[|p| + n - 1] == q[n - 1];
    }
  }

  lemma {:induction false} ScrubbedPrefix(p: seq<byte>, q: seq<byte>, n: nat)
    requires n <= |p|
    ensures Scrubbed(p + q, n) == Scrubbed(p, n)
  {
    if n > 0 {
      ScrubbedPrefix(p, q, n - 1);
    }
  }

  lemma {:induction false} ScrubbedWhole(p: seq<byte>, n: nat)
    requires n <= |p| && forall i :: 0 <= i < |p| ==> FieldOctet(p[i])
    ensures Scrubbed(p, n) == p[..n]
  {
    if n > 0 {
      ScrubbedWhole(p, n - 1);
    }
  }

  /** What is stripped are characters of their own, so text stays text. */
  lemma {:induction false} CleanStaysValid(p: seq<byte>)
    requires Utf8.Valid(p)
    ensures Utf8.Valid(Clean(p))
    decreases |p|
  {
    if p != [] {
      var n := Utf8.Need(p[0]);
      var first, rest := p[..n], p[n..];
      assert p == first + rest;
      CleanStaysValid(rest);
      ScrubbedFrom(first, rest, |rest|);
      Utf8.WholeAlone(p);
      if n == 1 && !FieldOctet(first[0]) {
        assert Clean(first) == Scrubbed(first, 0) + [] == [];
        assert Clean(p) == Clean(rest);
      } else {
        ScrubbedWhole(first, n);
        Utf8.ValidMore(first, Clean(rest));
      }
    }
  }

  /** Fields joined and split again are the same fields, without what may not be in them. Any
      octets may be joined; text comes back as it was. */
  lemma FieldsRoundTrip(fields: seq<seq<byte>>)
    requires fields != []
    ensures var r := Fields(JoinedFields(fields, |fields|));
            && |r| == |fields|
            && forall i :: 0 <= i < |fields| ==>
                 && r[i] == Utf8.Lossy(Clean(fields[i]))
                 && (Utf8.Valid(fields[i]) ==> r[i] == Clean(fields[i]))
  {
    FieldsSplit(fields, |fields|);
    assert Pieces(JoinedFields(fields, |fields|)) == CleanAll(fields, |fields|);
    forall i | 0 <= i < |fields|
      ensures |CleanAll(fields, |fields|)| == |fields| && CleanAll(fields, |fields|)[i] == Clean(fields[i])
      ensures Utf8.Valid(fields[i]) ==> Utf8.Lossy(Clean(fields[i])) == Clean(fields[i])
    {
      CleanAllAt(fields, |fields|, i);
      if Utf8.Valid(fields[i]) {
        CleanStaysValid(fields[i]);
        Utf8.ValidIsKept(Clean(fields[i]));
      }
    }
  }
}
