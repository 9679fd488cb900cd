/** The whole stack: AIRC inside an AX.25 UI frame inside KISS, through any cutting into reads
    and from any state the decoder happens to be in. */
module CodecStack {
  import opened Common
  import opened AircFrames
  import Ax25
  import opened Callsigns
  import Kiss

  /** One transmission: who, to whom, by which path, and what. */
  datatype Sending = Sending(source: Callsign, destination: Callsign, path: seq<Callsign>, airc: AircFrame)

  function UiOf(s: Sending): Result<Ax25.Ax25Frame, Ax25.Ax25Error> {
    Ax25.Ui(s.source, s.destination, s.path, Encode(s.airc))
  }

  predicate Buildable(sendings: seq<Sending>) {
    forall i :: 0 <= i < |sendings| ==> UiOf(sendings[i]).Ok?
  }

  /** It can be built, and its octets and the type octet fit the decoder. */
  predicate Fits(s: Sending, max: nat) {
    s.airc.Normal() && UiOf(s).Ok? && |Ax25.FrameBytes(UiOf(s).value)| + 1 <= max
  }

  function KissOf(port: byte, s: Sending): Kiss.KissFrame
    requires UiOf(s).Ok?
  {
    Kiss.KissFrame(port, Kiss.CMD_DATA, Ax25.FrameBytes(UiOf(s).value))
  }

  function KissAll(port: byte, sendings: seq<Sending>): (frames: seq<Kiss.KissFrame>)
    requires Buildable(sendings)
    ensures |frames| == |sendings|
  {
    seq(|sendings|, i requires 0 <= i < |sendings| => KissOf(port, sendings[i]))
  }

  /** What the receiver makes of a KISS frame: data on its own port, AX.25, then AIRC. */
  function Understood(port: byte, k: Kiss.KissFrame): Option<(Ax25.Ax25Frame, AircFrame)> {
    if k.command != Kiss.CMD_DATA || k.port != port then None
    else match Ax25.FrameOf(k.payload)
      case Err(_) => None
      case Ok(ax) => match Decode(ax.info)
        case Err(_) => None
        case Ok(airc) => Some((ax, airc))
  }

  lemma SendingUnderstood(port: byte, s: Sending, max: nat)
    requires port < 16 && Fits(s, max)
    ensures Understood(port, KissOf(port, s)) == Some((UiOf(s).value, s.airc))
    ensures KissOf(port, s).Valid() && |KissOf(port, s).Body()| <= max
  {
    Ax25.UiRoundTrip(s.source, s.destination, s.path, Encode(s.airc));
    DecodeEncode(s.airc);
  }

  /** `k` is understood as `s`. */
  predicate Carries(port: byte, k: Kiss.KissFrame, s: Sending) {
    UiOf(s).Ok? && Understood(port, k) == Some((UiOf(s).value, s.airc))
  }

  lemma KissAllFits(max: nat, port: byte, sendings: seq<Sending>, i: nat)
    requires port < 16 && Buildable(sendings) && i < |sendings| && Fits(sendings[i], max)
    ensures var k := KissAll(port, sendings)[i];
            k.Valid() && |k.Body()| <= max && Carries(port, k, sendings[i])
  {
    SendingUnderstood(port, sendings[i], max);
  }

  /** From any decoder state and under any splitting into reads, a list of transmissions that fit
      comes out as at most one leftover frame followed by exactly those frames, and each of them
      is understood as what was sent. */
  lemma StackRoundTrip(max: nat, port: byte, state: Kiss.Decoder, sendings: seq<Sending>, pieces: seq<seq<byte>>)
    requires port < 16 && sendings != [] && Buildable(sendings)
    requires forall i :: 0 <= i < |sendings| ==> Fits(sendings[i], max)
    requires Kiss.Joined(pieces, |pieces|) == Kiss.Stream(KissAll(port, sendings), |sendings|)
    ensures Kiss.Reads(max, state, pieces, |pieces|) == (Kiss.IN_SYNC, Kiss.Leftover(state) + KissAll(port, sendings))
    ensures |Kiss.Leftover(state)| <= 1
    ensures forall i :: 0 <= i < |sendings| ==> Carries(port, KissAll(port, sendings)[i], sendings[i])
  {
    var all := KissAll(port, sendings);
    forall i | 0 <= i < |sendings| ensures all[i].Valid() && |all[i].Body()| <= max && Carries(port, all[i], sendings[i]) {
      KissAllFits(max, port, sendings, i);
    }
    Kiss.ReadsDecode(max, state, all, pieces);
  }

  /** What the decoder adds to what it held, when this transmission comes in. */
  function Heard(max: nat, port: byte, state: Kiss.Decoder, s: Sending): seq<Kiss.KissFrame>
    requires UiOf(s).Ok?
  {
    var frames := Kiss.Decode(max, state, Kiss.Encoded(KissOf(port, s))).1;
    if |frames| >= |Kiss.Leftover(state)| then frames[|Kiss.Leftover(state)|..] else []
  }

  /** The decoder's limit counts the type octet and the pump's does not. So of the transmissions the
      pump lets through, at most `max` octets, those of exactly `max` are lost: from any state, a
      transmission is understood exactly if it is shorter, and the decoder is in sync afterwards. */
  lemma ReceivedExactly(max: nat, port: byte, state: Kiss.Decoder, s: Sending)
    requires port < 16 && s.airc.Normal() && UiOf(s).Ok?
    ensures Kiss.Decode(max, state, Kiss.Encoded(KissOf(port, s))).0 == Kiss.IN_SYNC
    ensures (exists k :: k in Heard(max, port, state, s) && Carries(port, k, s)) <==> |Ax25.FrameBytes(UiOf(s).value)| < max
  {
    var k := KissOf(port, s);
    SendingUnderstood(port, s, |k.Body()|);
    Kiss.EncodedDecodes(max, state, k);
    if |k.payload| < max {
      assert Heard(max, port, state, s) == [k];
      assert k in [k] && Carries(port, k, s);
    } else {
      assert Heard(max, port, state, s) == [];
    }
  }
}
