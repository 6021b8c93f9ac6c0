/** The status line of the header (components/Header.tsx): the `mm:ss` clock, the
    seconds left on the offer and on the cooldown, and which of the three status
    messages is shown.  The header's own one-second clock becomes the `now`
    parameter. */
module Header {
  import opened Types
  import opened Constants

  // ---- Decimal digits ----

  predicate IsDigit(c: char) {
    '0' <= c <= '9'
  }

  predicate AllDigits(s: string) {
    forall i :: 0 <= i < |s| ==> IsDigit(s[i])
  }

  function Digit(d: nat): (c: char)
    requires d < 10
    ensures IsDigit(c)
  {
    (48 + d) as char
  }

  function DigitValue(c: char): (d: nat)
    requires IsDigit(c)
    ensures d < 10
  {
    c as nat - 48
  }

  /** `n.toString()` for a whole number. */
  function DecimalString(n: nat): (s: string)
    ensures 1 <= |s| && AllDigits(s)
    ensures n < 10 <==> |s| == 1
    ensures n < 100 <==> |s| <= 2
  {
    if n < 10 then [Digit(n)] else DecimalString(n / 10) + [Digit(n % 10)]
  }

  /** The number a string of decimal digits denotes. */
  function ParseDecimal(s: string): nat
    requires AllDigits(s)
  {
    if s == [] then 0 else 10 * ParseDecimal(s[..|s| - 1]) + DigitValue(s[|s| - 1])
  }

  lemma {:induction false} ParseDecimalString(n: nat)
    ensures ParseDecimal(DecimalString(n)) == n
  {
    if n >= 10 {
      var s := DecimalString(n);
      assert s[..|s| - 1] == DecimalString(n / 10);
      ParseDecimalString(n / 10);
    }
  }

  lemma {:induction false} LeadingZero(s: string)
    requires AllDigits(s)
    ensures AllDigits("0" + s) && ParseDecimal("0" + s) == ParseDecimal(s)
    decreases |s|
  {
    if s != [] {
      var t := "0" + s;
      assert t[..|t| - 1] == "0" + s[..|s| - 1];
      LeadingZero(s[..|s| - 1]);
    }
  }

  /** `s.padStart(2, '0')`. */
  function PadStart2(s: string): (r: string)
    ensures |s| >= 2 ==> r == s
  {
    if |s| == 0 then "00" else if |s| == 1 then "0" + s else s
  }

  /** The digits of `n` padded to at least two places, and what they read back as. */
  lemma PaddedNumber(n: nat)
    ensures var r := PadStart2(DecimalString(n));
      AllDigits(r) && ParseDecimal(r) == n && |r| >= 2 && (|r| == 2 <==> n < 100)
  {
    ParseDecimalString(n);
    LeadingZero(DecimalString(n));
  }

  /** `formatTime`. */
  function FormatTime(seconds: nat): string {
    PadStart2(DecimalString(seconds / 60)) + ":" + PadStart2(DecimalString(seconds % 60))
  }

  /** Reads an `m…m:ss` clock back into seconds. */
  function ParseClock(t: string): nat
    requires |t| >= 3 && AllDigits(t[..|t| - 3]) && AllDigits(t[|t| - 2..])
  {
    60 * ParseDecimal(t[..|t| - 3]) + ParseDecimal(t[|t| - 2..])
  }

  lemma SplitClock(mins: string, secs: string)
    requires |secs| == 2
    ensures var t := mins + ":" + secs;
      |t| == |mins| + 3 && t[..|t| - 3] == mins && t[|t| - 3] == ':' && t[|t| - 2..] == secs
      && t[|t| - 2] == secs[0]
  {
  }

  lemma TwoDigits(secs: string)
    requires |secs| == 2 && AllDigits(secs)
    ensures ParseDecimal(secs) == 10 * DigitValue(secs[0]) + DigitValue(secs[1])
  {
    var first := secs[..1];
    assert first == [secs[0]] && first[..0] == [];
    assert ParseDecimal(first) == DigitValue(secs[0]);
    assert secs[..|secs| - 1] == first;
  }

  /** The clock is minutes, a colon and two-digit seconds 00..59; it reads back as the input;
      it is exactly five characters long below 100 minutes. */
  lemma FormatTimeRoundTrip(seconds: nat)
    ensures var t := FormatTime(seconds);
      && |t| >= 5 && t[|t| - 3] == ':'
      && AllDigits(t[..|t| - 3]) && AllDigits(t[|t| - 2..])
      && ParseDecimal(t[|t| - 2..]) == seconds % 60 < 60
      && '0' <= t[|t| - 2] <= '5'
      && ParseClock(t) == seconds
      && (|t| == 5 <==> seconds < 6000)
  {
    var mins := PadStart2(DecimalString(seconds / 60));
    var secs := PadStart2(DecimalString(seconds % 60));
    PaddedNumber(seconds / 60);
    PaddedNumber(seconds % 60);
    SplitClock(mins, secs);
    TwoDigits(secs);
    var t := FormatTime(seconds);
    assert t == mins + ":" + secs;
    assert ParseClock(t) == 60 * (seconds / 60) + seconds % 60;
    assert DigitValue(secs[0]) < 6;
  }

  // ---- Remaining times ----

  /** `ts ? Math.max(0, Math.round((ts - now) / 1000)) : 0`; `Math.round` rounds halves up. */
  function RemainingSeconds(ts: Option<int>, now: int): (r: nat)
    ensures !TimeSet(ts) ==> r == 0
    ensures r > 0 <==> TimeSet(ts) && ts.value - now >= 500
    ensures TimeSet(ts) && ts.value - now >= -500 ==>
      r as int * 1000 - 500 <= ts.value - now < r as int * 1000 + 500
  {
    if TimeSet(ts) then
      var rounded := (ts.value - now + 500) / 1000;
      if rounded > 0 then rounded else 0
    else 0
  }

  // ---- The status line ----

  datatype Status = OfferCountdown(productName: string, clock: string) | CooldownCountdown(clock: string) | Available

  /** The name shown for the offered product; "" when there is none or it is unknown. */
  function OfferProductName(id: Option<string>): string {
    if IdSet(id) && FindProduct(id.value).Some? then FindProduct(id.value).value.name else ""
  }

  /** `renderStatus`: the offer countdown first, then the cooldown countdown, then "available". */
  function RenderStatus(offer: SpecialOffer, cooldownUntil: Option<int>, now: int): (st: Status)
    ensures st.OfferCountdown? <==> RemainingSeconds(offer.expiresAt, now) > 0
    ensures st.CooldownCountdown? <==>
      RemainingSeconds(offer.expiresAt, now) == 0 && RemainingSeconds(cooldownUntil, now) > 0
    ensures st.OfferCountdown? ==> st.clock == FormatTime(RemainingSeconds(offer.expiresAt, now))
    ensures st.OfferCountdown? ==> st.productName == OfferProductName(offer.productId)
    ensures st.CooldownCountdown? ==> st.clock == FormatTime(RemainingSeconds(cooldownUntil, now))
  {
    var offerLeft := RemainingSeconds(offer.expiresAt, now);
    var cooldownLeft := RemainingSeconds(cooldownUntil, now);
    if offerLeft > 0 then OfferCountdown(OfferProductName(offer.productId), FormatTime(offerLeft))
    else if cooldownLeft > 0 then CooldownCountdown(FormatTime(cooldownLeft))
    else Available
  }

  /** For an offer started at `t`: the countdown shows until 29.5 s after the start, the cooldown until
      89.5 s, then "available"; while the offer runs, the cooldown is exactly 60 s further off. */
  lemma StatusTimeline(id: string, t: nat, now: int)
    ensures var expiresAt := t + SpecialOfferDuration;
      var cooldownUntil := t + SpecialOfferDuration + SpecialOfferCooldown;
      var st := RenderStatus(SpecialOffer(Some(id), Some(expiresAt)), Some(cooldownUntil), now);
      && (now <= t + 29500 ==>
            st.OfferCountdown? &&
            RemainingSeconds(Some(cooldownUntil), now) == RemainingSeconds(Some(expiresAt), now) + 60)
      && (t + 29500 < now <= t + 89500 ==> st.CooldownCountdown?)
      && (t + 89500 < now ==> st == Available)
  {
    var d := t + 30000 - now;
    assert (d + 60000 + 500) / 1000 == (d + 500) / 1000 + 60;
  }
}
