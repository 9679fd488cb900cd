/** Station identity: a base of one to six upper-case letters and digits, and an SSID. */
module Callsigns {
  import opened Common

  predicate IsUpperAlnum(b: byte) {
    0x30 <= b <= 0x39 || 0x41 <= b <= 0x5A
  }

  datatype RawCallsign = Callsign(base: seq<byte>, ssid: byte) {
    predicate Valid() {
      1 <= |base| <= 6 && ssid <= 15 && forall i :: 0 <= i < |base| ==> IsUpperAlnum(base[i])
    }
  }

  /** Exactly the values the source's constructor lets exist. */
  type Callsign = c: RawCallsign | c.Valid() witness RawCallsign.Callsign([0x41], 0)
}
