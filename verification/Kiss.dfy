/** KISS framing: the stuffing encoder and the incremental, resynchronising decoder. */
module Kiss {
  import opened Common

  const FEND: byte := 0xC0
  const FESC: byte := 0xDB
  const TFEND: byte := 0xDC
  const TFESC: byte := 0xDD
  const CMD_DATA: byte := 0

  datatype KissFrame = KissFrame(port: byte, command: byte, payload: seq<byte>) {
    /** Both are nibbles on the wire. */
    predicate Valid() { port < 16 && command < 16 }

    function TypeOctet(): byte { port % 16 * 16 + command % 16 }

    /** The octets inside the frame, before stuffing. */
    function Body(): seq<byte> { [TypeOctet()] + payload }
  }

  // ---- Encoding ----

  function Stuffed(b: byte): seq<byte> {
    if b == FEND then [FESC, TFEND] else if b == FESC then [FESC, TFESC] else [b]
  }

  /** The first `n` octets, stuffed. */
  function StuffedPrefix(body: seq<byte>, n: nat): seq<byte>
    requires n <= |body|
  {
    if n == 0 then [] else StuffedPrefix(body, n - 1) + Stuffed(body[n - 1])
  }

  function Encoded(f: KissFrame): seq<byte> {
    [FEND] + StuffedPrefix(f.Body(), |f.Body()|) + [FEND]
  }

  /** The first `n` frames, one after the other. */
  function Stream(frames: seq<KissFrame>, n: nat): seq<byte>
    requires n <= |frames|
  {
    if n == 0 then [] else Stream(frames, n - 1) + Encoded(frames[n - 1])
  }

  method Stuff(b: byte, out: seq<byte>) returns (r: seq<byte>)
    ensures r == out + Stuffed(b)
  {
    match b
    case 0xC0 => r := out + [FESC, TFEND];
    case 0xDB => r := out + [FESC, TFESC];
    case other => r := out + [other];
  }

  method Encode(port: byte, command: byte, payload: seq<byte>) returns (out: seq<byte>)
    ensures out == Encoded(KissFrame(port, command, payload))
  {
    ghost var body := KissFrame(port, command, payload).Body();
    out := Stuff(port % 16 * 16 + command % 16, []);
    assert StuffedPrefix(body, 0) == [];
    for i := 0 to |payload|
      invariant out == StuffedPrefix(body, i + 1)
    {
      assert body[i + 1] == payload[i];
      out := Stuff(payload[i], out);
    }
    out := [FEND] + out + [FEND];
  }

  // ---- Decoding ----

  datatype Decoder = Decoder(buf: seq<byte>, inFrame: bool, escaped: bool)

  const IN_SYNC := Decoder([], true, false)

  function FrameOf(buf: seq<byte>): KissFrame
    requires buf != []
  {
    KissFrame(buf[0] / 16, buf[0] % 16, buf[1..])
  }

  predicate HasFrame(s: Decoder) { s.inFrame && s.buf != [] }

  /** What one octet does. */
  function Fed(max: nat, s: Decoder, b: byte): Decoder {
    if b == FEND then IN_SYNC
    else if !s.inFrame then s
    else if b == FESC then s.(escaped := true)
    else
      var octet := if s.escaped && b == TFEND then FEND else if s.escaped && b == TFESC then FESC else b;
      var kept := if s.escaped && b != TFEND && b != TFESC then [] else s.buf;
      if |kept| >= max then Decoder([], false, false) else Decoder(kept + [octet], true, false)
  }

  /** The frame it completes, if any. */
  function Yield(s: Decoder, b: byte): seq<KissFrame> {
    if b == FEND && HasFrame(s) then [FrameOf(s.buf)] else []
  }

  /** The state after the first `n` octets, and the frames they completed. */
  function After(max: nat, s: Decoder, bytes: seq<byte>, n: nat): Decoder
    requires n <= |bytes|
  {
    if n == 0 then s else Fed(max, After(max, s, bytes, n - 1), bytes[n - 1])
  }

  function Frames(max: nat, s: Decoder, bytes: seq<byte>, n: nat): seq<KissFrame>
    requires n <= |bytes|
  {
    if n == 0 then []
    else Frames(max, s, bytes, n - 1) + Yield(After(max, s, bytes, n - 1), bytes[n - 1])
  }

  class KissDecoder {
    var buf: seq<byte>
    var inFrame: bool
    var escaped: bool
    const maxFrame: nat

    ghost function State(): Decoder
      reads this
    {
      Decoder(buf, inFrame, escaped)
    }

    constructor (max: nat)
      ensures maxFrame == max && State() == Decoder([], false, false)
    {
      maxFrame := max;
      buf, inFrame, escaped := [], false, false;
    }

    method TakeFrame() returns (f: Option<KissFrame>)
      ensures f == if buf == [] then None else Some(FrameOf(buf))
    {
      if buf == [] {
        return None;
      }
      return Some(KissFrame(buf[0] / 16, buf[0] % 16, buf[1..]));
    }

    /** One octet that is not a delimiter, inside a frame. */
    method Accept(b: byte)
      requires b != FEND && b != FESC && inFrame
      modifies this
      ensures State() == Fed(maxFrame, old(State()), b)
    {
      var octet := b;
      if escaped {
        escaped := false;
        if b == TFEND {
          octet := FEND;
        } else if b == TFESC {
          octet := FESC;
        } else {
          buf := [];
        }
      }
      if |buf| >= maxFrame {
        inFrame := false;
        buf := [];
      } else {
        buf := buf + [octet];
      }
    }

    method Push(bytes: seq<byte>) returns (frames: seq<KissFrame>)
      modifies this
      ensures State() == After(maxFrame, old(State()), bytes, |bytes|)
      ensures frames == Frames(maxFrame, old(State()), bytes, |bytes|)
    {
      frames := [];
      for i := 0 to |bytes|
        invariant State() == After(maxFrame, old(State()), bytes, i)
        invariant frames == Frames(maxFrame, old(State()), bytes, i)
      {
        var b := bytes[i];
        if b == FEND {
          if inFrame && buf != [] {
            var f := TakeFrame();
            if f.Some? {
              frames := frames + [f.value];
            }
          }
          buf := [];
          escaped := false;
          inFrame := true;
        } else if inFrame {
          if b == FESC {
            escaped := true;
          } else {
            Accept(b);
          }
        }
      }
    }
  }

  // ---- How the octets are cut into reads does not matter ----

  lemma {:induction false} AfterPrefix(max: nat, s: Decoder, a: seq<byte>, b: seq<byte>, n: nat)
    requires n <= |a|
    ensures After(max, s, a + b, n) == After(max, s, a, n) && Frames(max, s, a + b, n) == Frames(max, s, a, n)
  {
    if n > 0 {
      AfterPrefix(max, s, a, b, n - 1);
    }
  }

  lemma {:induction false} AfterSuffix(max: nat, s: Decoder, a: seq<byte>, b: seq<byte>, n: nat)
    requires n <= |b|
    ensures var t := After(max, s, a, |a|);
            && After(max, s, a + b, |a| + n) == After(max, t, b, n)
            && Frames(max, s, a + b, |a| + n) == Frames(max, s, a, |a|) + Frames(max, t, b, n)
  {
    if n == 0 {
      AfterPrefix(max, s, a, b, |a|);
    } else {
      AfterSuffix(max, s, a, b, n - 1);
    }
  }

  function Decode(max: nat, s: Decoder, bytes: seq<byte>): (Decoder, seq<KissFrame>) {
    (After(max, s, bytes, |bytes|), Frames(max, s, bytes, |bytes|))
  }

  /** One call after another. */
  function Reads(max: nat, s: Decoder, pieces: seq<seq<byte>>, n: nat): (Decoder, seq<KissFrame>)
    requires n <= |pieces|
  {
    if n == 0 then (s, [])
    else
      var (t, frames) := Reads(max, s, pieces, n - 1);
      var (u, more) := Decode(max, t, pieces[n - 1]);
      (u, frames + more)
  }

  function Joined(pieces: seq<seq<byte>>, n: nat): seq<byte>
    requires n <= |pieces|
  {
    if n == 0 then [] else Joined(pieces, n - 1) + pieces[n - 1]
  }

  /** Any splitting of the same octets into reads gives the same frames and the same state. */
  lemma {:induction false} SplittingIsIrrelevant(max: nat, s: Decoder, pieces: seq<seq<byte>>, n: nat)
    requires n <= |pieces|
    ensures Reads(max, s, pieces, n) == Decode(max, s, Joined(pieces, n))
  {
    if n > 0 {
      SplittingIsIrrelevant(max, s, pieces, n - 1);
      AfterSuffix(max, s, Joined(pieces, n - 1), pieces[n - 1], |pieces[n - 1]|);
    }
  }

  // ---- The decoder undoes the encoder, from whatever state it is in ----

  /** Decoding `a` and then `b` is decoding both. */
  lemma Chain(max: nat, s: Decoder, a: seq<byte>, t: Decoder, frames: seq<KissFrame>, b: seq<byte>, u: Decoder, more: seq<KissFrame>)
    requires Decode(max, s, a) == (t, frames) && Decode(max, t, b) == (u, more)
    ensures Decode(max, s, a + b) == (u, frames + more)
  {
    AfterSuffix(max, s, a, b, |b|);
  }

  lemma DecodeOne(max: nat, s: Decoder, b: byte)
    ensures Decode(max, s, [b]) == (Fed(max, s, b), Yield(s, b))
  {
    var one := [b];
    assert one[0] == b;
    assert After(max, s, one, 0) == s && Frames(max, s, one, 0) == [];
    assert After(max, s, one, 1) == Fed(max, s, b);
    assert Frames(max, s, one, 1) == [] + Yield(s, b) == Yield(s, b);
  }

  lemma DecodeStuffed(max: nat, buf: seq<byte>, b: byte)
    requires |buf| < max
    ensures Decode(max, Decoder(buf, true, false), Stuffed(b)) == (Decoder(buf + [b], true, false), [])
  {
    var s := Decoder(buf, true, false);
    if b == FEND || b == FESC {
      var second := if b == FEND then TFEND else TFESC;
      DecodeOne(max, s, FESC);
      DecodeOne(max, s.(escaped := true), second);
      Chain(max, s, [FESC], s.(escaped := true), [], [second], Decoder(buf + [b], true, false), []);
      assert Stuffed(b) == [FESC] + [second];
    } else {
      DecodeOne(max, s, b);
    }
  }

  lemma {:induction false} DecodeBody(max: nat, body: seq<byte>, n: nat)
    requires n <= |body| <= max
    ensures Decode(max, IN_SYNC, StuffedPrefix(body, n)) == (Decoder(body[..n], true, false), [])
  {
    if n > 0 {
      DecodeBody(max, body, n - 1);
      DecodeStuffed(max, body[..n - 1], body[n - 1]);
      assert body[..n] == body[..n - 1] + [body[n - 1]];
      Chain(max, IN_SYNC, StuffedPrefix(body, n - 1), Decoder(body[..n - 1], true, false), [],
            Stuffed(body[n - 1]), Decoder(body[..n], true, false), []);
    }
  }

  function Leftover(s: Decoder): seq<KissFrame> {
    if HasFrame(s) then [FrameOf(s.buf)] else []
  }

  lemma DecodeEncoded(max: nat, s: Decoder, f: KissFrame)
    requires f.Valid() && |f.Body()| <= max
    ensures Decode(max, s, Encoded(f)) == (IN_SYNC, Leftover(s) + [f])
  {
    var body := f.Body();
    var stuffed := StuffedPrefix(body, |body|);
    var full := Decoder(body, true, false);
    DecodeOne(max, s, FEND);
    DecodeBody(max, body, |body|);
    assert body[..|body|] == body;
    Chain(max, s, [FEND], IN_SYNC, Leftover(s), stuffed, full, []);
    DecodeOne(max, full, FEND);
    BodyIsFrame(f);
    Chain(max, s, [FEND] + stuffed, full, Leftover(s) + [], [FEND], IN_SYNC, [f]);
    assert Leftover(s) + [] == Leftover(s);
  }

  /** The rest of a frame that did not fit is skipped. */
  const LOST := Decoder([], false, false)

  lemma OverflowDrops(max: nat, buf: seq<byte>, b: byte)
    requires |buf| == max
    ensures Decode(max, Decoder(buf, true, false), Stuffed(b)) == (LOST, [])
  {
    var s := Decoder(buf, true, false);
    if b == FEND || b == FESC {
      var second := if b == FEND then TFEND else TFESC;
      DecodeOne(max, s, FESC);
      DecodeOne(max, s.(escaped := true), second);
      Chain(max, s, [FESC], s.(escaped := true), [], [second], LOST, []);
      assert Stuffed(b) == [FESC] + [second];
    } else {
      DecodeOne(max, s, b);
    }
  }

  /** Until the next delimiter nothing happens any more. */
  lemma {:induction false} LostStays(max: nat, bytes: seq<byte>, n: nat)
    requires n <= |bytes| && FEND !in bytes
    ensures After(max, LOST, bytes, n) == LOST && Frames(max, LOST, bytes, n) == []
  {
    if n > 0 {
      LostStays(max, bytes, n - 1);
    }
  }

  /** Stuffed octets contain no delimiter. */
  lemma {:induction false} StuffedMore(body: seq<byte>, m: nat, n: nat) returns (rest: seq<byte>)
    requires m <= n <= |body|
    ensures StuffedPrefix(body, n) == StuffedPrefix(body, m) + rest && FEND !in rest
  {
    rest := [];
    if m < n {
      rest := StuffedMore(body, m, n - 1);
      rest := rest + Stuffed(body[n - 1]);
    }
  }

  lemma {:induction false} SamePrefix(body: seq<byte>, m: nat, n: nat)
    requires n <= m <= |body|
    ensures StuffedPrefix(body[..m], n) == StuffedPrefix(body, n)
  {
    if n > 0 {
      SamePrefix(body, m, n - 1);
    }
  }

  lemma BodyFills(max: nat, body: seq<byte>)
    requires max <= |body|
    ensures Decode(max, IN_SYNC, StuffedPrefix(body, max)) == (Decoder(body[..max], true, false), [])
  {
    SamePrefix(body, max, max);
    DecodeBody(max, body[..max], max);
    assert body[..max][..max] == body[..max];
  }

  lemma BodyOverflows(max: nat, body: seq<byte>)
    requires max < |body|
    ensures Decode(max, IN_SYNC, StuffedPrefix(body, max + 1)) == (LOST, [])
  {
    BodyFills(max, body);
    OverflowDrops(max, body[..max], body[max]);
    Chain(max, IN_SYNC, StuffedPrefix(body, max), Decoder(body[..max], true, false), [], Stuffed(body[max]), LOST, []);
    assert StuffedPrefix(body, max + 1) == StuffedPrefix(body, max) + Stuffed(body[max]);
  }

  /** A body longer than the limit leaves nothing. */
  lemma LongBodyDrops(max: nat, body: seq<byte>)
    requires max < |body|
    ensures Decode(max, IN_SYNC, StuffedPrefix(body, |body|)) == (LOST, [])
  {
    BodyOverflows(max, body);
    var rest := StuffedMore(body, max + 1, |body|);
    LostFrom(max, StuffedPrefix(body, max + 1), rest);
  }

  lemma LostFrom(max: nat, bytes: seq<byte>, rest: seq<byte>)
    requires Decode(max, IN_SYNC, bytes) == (LOST, []) && FEND !in rest
    ensures Decode(max, IN_SYNC, bytes + rest) == (LOST, [])
  {
    LostStays(max, rest, |rest|);
    Chain(max, IN_SYNC, bytes, LOST, [], rest, LOST, []);
  }

  lemma LongFrameDrops(max: nat, s: Decoder, f: KissFrame)
    requires |f.payload| >= max
    ensures Decode(max, s, Encoded(f)) == (IN_SYNC, Leftover(s))
  {
    var stuffed := StuffedPrefix(f.Body(), |f.Body()|);
    assert Leftover(s) + [] == Leftover(s);
    DecodeOne(max, s, FEND);
    LongBodyDrops(max, f.Body());
    Chain(max, s, [FEND], IN_SYNC, Leftover(s), stuffed, LOST, []);
    DecodeOne(max, LOST, FEND);
    Chain(max, s, [FEND] + stuffed, LOST, Leftover(s), [FEND], IN_SYNC, []);
  }

  /** One frame, from any state: it comes out exactly if its octets and the type octet fit. */
  lemma EncodedDecodes(max: nat, s: Decoder, f: KissFrame)
    requires f.Valid()
    ensures Decode(max, s, Encoded(f)) == (IN_SYNC, Leftover(s) + if |f.payload| < max then [f] else [])
  {
    if |f.payload| < max {
      DecodeEncoded(max, s, f);
    } else {
      LongFrameDrops(max, s, f);
      assert Leftover(s) + [] == Leftover(s);
    }
  }

  lemma BodyIsFrame(f: KissFrame)
    requires f.Valid()
    ensures f.Body() != [] && FrameOf(f.Body()) == f
  {
    assert f.Body()[1..] == f.payload;
  }

  /** From any decoder state, the concatenated encodings of frames that fit decode to at most one
      leftover frame followed by exactly those frames, and leave the decoder in sync. */
  lemma {:induction false} StreamDecodes(max: nat, s: Decoder, frames: seq<KissFrame>, n: nat)
    requires 0 < n <= |frames|
    requires forall i :: 0 <= i < |frames| ==> frames[i].Valid() && |frames[i].Body()| <= max
    ensures Decode(max, s, Stream(frames, n)) == (IN_SYNC, Leftover(s) + frames[..n])
    ensures |Leftover(s)| <= 1
  {
    if n == 1 {
      StreamFirst(max, s, frames);
    } else {
      StreamDecodes(max, s, frames, n - 1);
      StreamMore(max, s, Stream(frames, n - 1), Leftover(s) + frames[..n - 1], frames[n - 1]);
      TakeMore(Leftover(s), frames, n);
    }
  }

  lemma TakeMore(before: seq<KissFrame>, frames: seq<KissFrame>, n: nat)
    requires 0 < n <= |frames|
    ensures before + frames[..n - 1] + [frames[n - 1]] == before + frames[..n]
  {
  }

  lemma StreamFirst(max: nat, s: Decoder, frames: seq<KissFrame>)
    requires frames != [] && frames[0].Valid() && |frames[0].Body()| <= max
    ensures Decode(max, s, Stream(frames, 1)) == (IN_SYNC, Leftover(s) + frames[..1])
  {
    assert Stream(frames, 0) == [];
    assert Stream(frames, 1) == [] + Encoded(frames[0]) == Encoded(frames[0]);
    assert frames[..1] == [frames[0]];
    DecodeEncoded(max, s, frames[0]);
  }

  lemma StreamMore(max: nat, s: Decoder, bytes: seq<byte>, before: seq<KissFrame>, f: KissFrame)
    requires Decode(max, s, bytes) == (IN_SYNC, before) && f.Valid() && |f.Body()| <= max
    ensures Decode(max, s, bytes + Encoded(f)) == (IN_SYNC, before + [f])
  {
    DecodeEncoded(max, IN_SYNC, f);
    assert Leftover(IN_SYNC) + [f] == [f];
    Chain(max, s, bytes, IN_SYNC, before, Encoded(f), IN_SYNC, [f]);
  }

  /** The same, however the octets arrive. */
  lemma ReadsDecode(max: nat, s: Decoder, frames: seq<KissFrame>, pieces: seq<seq<byte>>)
    requires frames != [] && Joined(pieces, |pieces|) == Stream(frames, |frames|)
    requires forall i :: 0 <= i < |frames| ==> frames[i].Valid() && |frames[i].Body()| <= max
    ensures Reads(max, s, pieces, |pieces|) == (IN_SYNC, Leftover(s) + frames)
  {
    SplittingIsIrrelevant(max, s, pieces, |pieces|);
    StreamDecodes(max, s, frames, |frames|);
    assert frames[..|frames|] == frames;
  }
}
