/** The text carried by probes and their responses, and the round-trip time read from it. */
module Probes {
  import opened Prelude
  import opened Decimal
  import opened Crypto

  /** ASCII bytes as text; a byte above 127 becomes a character that is no digit. */
  function Text(s: Bytes): (text: string)
    ensures |text| == |s|
  {
    seq(|s|, i requires 0 <= i < |s| => s[i] as char)
  }

  function Timestamp(prefix: string, payload: Bytes): (millis: Option<nat>)
  {
    if |payload| < |prefix| || payload[..|prefix|] != Ascii(prefix) then None
    else ParseU128(Text(payload[|prefix|..]))
  }

  function ProbePayload(sentMillis: nat): (s: Bytes)
  {
    Ascii("probe " + Digits(sentMillis))
  }

  function ProbeResponsePayload(probe: Bytes, nowMillis: nat): (s: Bytes)
  {
    var timestamp := match Timestamp("probe ", probe) case Some(t) => t case None => nowMillis;
    Ascii("probe_response " + Digits(timestamp))
  }

  function ProbeResponseRttMs(response: Bytes, nowMillis: nat): (rtt: Option<u64>)
  {
    match Timestamp("probe_response ", response)
    case None => None
    case Some(t) => if t <= nowMillis && nowMillis - t < U64_LIMIT then Some(nowMillis - t) else None
  }

  lemma AsciiText(prefix: string, digits: string)
    requires AllDigits(digits)
    ensures var payload := Ascii(prefix + digits);
            payload[..|prefix|] == Ascii(prefix) && Text(payload[|prefix|..]) == digits
  {
    var payload := Ascii(prefix + digits);
    assert payload[..|prefix|] == Ascii(prefix);
    forall i | 0 <= i < |digits| ensures Text(payload[|prefix|..])[i] == digits[i] {
      assert IsDigit(digits[i]);
      assert (prefix + digits)[|prefix| + i] == digits[i];
    }
  }

  lemma TimestampOf(prefix: string, millis: nat)
    requires millis < U128_LIMIT
    ensures Timestamp(prefix, Ascii(prefix + Digits(millis))) == Some(millis)
  {
    hide Digits, ParseU128, Text, Ascii;
    AsciiText(prefix, Digits(millis));
    ParseDigits(millis);
  }

  /** A probe that is answered measures, by the prober's clock alone, the time between sending it and
      reading the response, whatever the responder's clock says; nothing is measured if the prober's
      clock was set back meanwhile or the time does not fit in 64 bits. */
  lemma EchoMeasuresRoundTrip(sentMillis: nat, responderMillis: nat, nowMillis: nat)
    requires sentMillis < U128_LIMIT
    ensures ProbeResponseRttMs(ProbeResponsePayload(ProbePayload(sentMillis), responderMillis), nowMillis)
            == if sentMillis <= nowMillis && nowMillis - sentMillis < U64_LIMIT then Some(nowMillis - sentMillis)
               else None
  {
    TimestampOf("probe ", sentMillis);
    TimestampOf("probe_response ", sentMillis);
  }

  /** A probe whose time stamp cannot be read is answered with the responder's own clock. */
  lemma UnreadableProbeGetsOwnClock(probe: Bytes, responderMillis: nat)
    requires responderMillis < U128_LIMIT
    requires Timestamp("probe ", probe).None?
    ensures ProbeResponsePayload(probe, responderMillis) == Ascii("probe_response " + Digits(responderMillis))
    ensures ProbeResponseRttMs(ProbeResponsePayload(probe, responderMillis), responderMillis) == Some(0)
  {
    TimestampOf("probe_response ", responderMillis);
  }

  /** The text of a probe is `probe` and the decimal time stamp. */
  lemma ProbeText(sentMillis: nat)
    requires sentMillis < U128_LIMIT
    ensures ProbePayload(sentMillis) == Ascii("probe " + Digits(sentMillis))
    ensures Timestamp("probe ", ProbePayload(sentMillis)) == Some(sentMillis)
  {
    TimestampOf("probe ", sentMillis);
  }
}
