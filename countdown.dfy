/**
 * The hold countdown: `startTimer` sets a deadline TIMEOUT_MS ahead and, once
 * a second, shows the remaining time as MM:SS, minutes and seconds each
 * rendered with String() and padStart(2, '0').
 */
module Countdown {
  import opened Wrappers
  import opened Text

  /** TIMEOUT_MS: a hold lasts twenty minutes. */
  const TimeoutMs: nat := 20 * 60 * 1000

  /** `Math.floor(msRemaining / 60000)`. */
  function Minutes(ms: nat): nat {
    ms / 60000
  }

  /** `Math.floor((msRemaining % 60000) / 1000)`: always a second of a minute. */
  function Seconds(ms: nat): (s: nat)
    ensures s < 60
  {
    (ms % 60000) / 1000
  }

  /** The timer text for a positive remaining time. */
  function CountdownText(ms: nat): string
    requires ms > 0
  {
    Pad2(NatToString(Minutes(ms))) + ":" + Pad2(NatToString(Seconds(ms)))
  }

  /** Reads an MM:SS text back into minutes and seconds. */
  function ParseCountdown(t: string): Option<(nat, nat)> {
    var parts := Split(t, ':');
    if |parts| == 2 && AllDigits(parts[0]) && AllDigits(parts[1]) && parts[0] != [] && parts[1] != [] then
      Some((DigitsValue(parts[0]), DigitsValue(parts[1])))
    else None
  }

  /** Minutes and seconds are the whole minutes and the whole seconds left over. */
  lemma CountdownSplitsRemaining(ms: nat)
    requires ms > 0
    ensures Minutes(ms) * 60000 + Seconds(ms) * 1000 <= ms < Minutes(ms) * 60000 + (Seconds(ms) + 1) * 1000
  {
  }

  /** The text shows exactly the minutes and seconds: reading it back gives them. */
  lemma CountdownTextRoundTrip(ms: nat)
    requires ms > 0
    ensures ParseCountdown(CountdownText(ms)) == Some((Minutes(ms), Seconds(ms)))
  {
    var a, b := Pad2(NatToString(Minutes(ms))), Pad2(NatToString(Seconds(ms)));
    PiecesOfCountdown(ms);
    PaddedPiece(Minutes(ms));
    PaddedPiece(Seconds(ms));
    ParseOfPieces(CountdownText(ms), a, b);
  }

  lemma PiecesOfCountdown(ms: nat)
    requires ms > 0
    ensures Split(CountdownText(ms), ':') == [Pad2(NatToString(Minutes(ms))), Pad2(NatToString(Seconds(ms)))]
  {
    var a, b := Pad2(NatToString(Minutes(ms))), Pad2(NatToString(Seconds(ms)));
    PaddedExcludes(Minutes(ms), ':');
    PaddedExcludes(Seconds(ms), ':');
    assert CountdownText(ms) == Join([a, b], ":");
    SplitJoin([a, b], ':');
  }

  lemma ParseOfPieces(t: string, a: string, b: string)
    requires Split(t, ':') == [a, b]
    requires a != [] && AllDigits(a) && b != [] && AllDigits(b)
    ensures ParseCountdown(t) == Some((DigitsValue(a), DigitsValue(b)))
  {
  }

  lemma PaddedPiece(n: nat)
    ensures Pad2(NatToString(n)) != [] && AllDigits(Pad2(NatToString(n)))
    ensures DigitsValue(Pad2(NatToString(n))) == n
  {
    var s := NatToString(n);
    DigitsValueOfNatToString(n);
    DigitsValueLeadingZero(s);
    ToNumberOfPadded(n);
  }

  /** While a hold is running the text is five characters, at most "20:00". */
  lemma CountdownTextWithinHold(ms: nat)
    requires 0 < ms <= TimeoutMs
    ensures Minutes(ms) <= 20
    ensures |CountdownText(ms)| == 5
  {
    assert Minutes(ms) < 100;
  }
}
