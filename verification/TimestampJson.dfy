/** The end of a timestamp's JSON text: none, three, six or nine digits of a second, and the zone. */
module TimestampJson {
  import opened DecimalText

  const NANOS_PER_SECOND := 1_000_000_000

  datatype Parse = Nanos(value: nat) | InvalidTimestamp

  /** What follows the whole seconds, up to the zone: the shortest of no, three, six or nine digits
      that keeps the nanoseconds. */
  function FractionText(nanos: nat): string
    requires nanos < NANOS_PER_SECOND
  {
    if nanos == 0 then ""
    else
      var padded := PadStart(Decimal(nanos), 9);
      var len := if nanos % 1_000_000 == 0 then 3 else if nanos % 1_000 == 0 then 6 else 9;
      "." + padded[..len]
  }

  /** Two digits not above `max`. */
  predicate IsTwoDigits(s: string, max: nat) {
    |s| == 2 && match ParseDigits(s) case Number(n) => n <= max case NotANumber => false
  }

  /** The zones the parser takes: `Z`, or a sign, hours up to 23, a colon and minutes up to 59. */
  predicate IsZone(z: string) {
    || z == "Z"
    || (|z| == 6 && z[0] in "+-" && IsTwoDigits(z[1..3], 23) && z[3] == ':' && IsTwoDigits(z[4..], 59))
  }

  /** How much of the end is the zone, if there is one. */
  function ZoneLength(tail: string): nat
    ensures ZoneLength(tail) <= |tail|
  {
    if tail != "" && tail[|tail| - 1] == 'Z' then 1
    else if |tail| >= 6 && IsZone(tail[|tail| - 6..]) then 6
    else 0
  }

  /** What follows the whole seconds, read back. */
  function ParseTail(tail: string): Parse {
    if ZoneLength(tail) == 0 then InvalidTimestamp else ParseFraction(tail[..|tail| - ZoneLength(tail)])
  }

  /** Digits past the ninth are dropped, missing ones are zeros. */
  function ParseFraction(fraction: string): Parse {
    if fraction == "" then Nanos(0)
    else if fraction[0] != '.' then InvalidTimestamp
    else
      var digits := fraction[1..];
      match ParseDigits(digits)
      case NotANumber => InvalidTimestamp
      case Number(_) =>
        match ParseDigits(PadEnd(if |digits| > 9 then digits[..9] else digits, 9))
        case Number(n) => Nanos(n)
        case NotANumber => InvalidTimestamp
  }

  lemma NinePowers()
    ensures Pow10(9) == NANOS_PER_SECOND && Pow10(6) == 1_000_000 && Pow10(3) == 1_000
  {
    assert Pow10(3) == 1_000;
    assert Pow10(6) == 1_000_000;
  }

  /** Keeping `w` digits of a number whose other digits are zero loses nothing. */
  lemma {:induction false} ShortFraction(m: nat, w: nat)
    requires 0 < w <= 9 && m < Pow10(w)
    ensures var digits := Fixed(m * Pow10(9 - w), 9)[..w];
      && |digits| == w && ParseDigits(digits) == Number(m)
      && PadEnd(digits, 9) == Fixed(m * Pow10(9 - w), 9)
  {
    FixedOfMultiple(m, w, 9 - w);
    PadEndStarts(Fixed(m, w), 9);
    FixedParses(m, w);
  }

  lemma {:induction false} PrintedFraction(nanos: nat, m: nat, w: nat)
    requires nanos < NANOS_PER_SECOND && 0 < w <= 9 && m < Pow10(w) && nanos == m * Pow10(9 - w)
    ensures ParseFraction("." + PadStart(Decimal(nanos), 9)[..w]) == Nanos(nanos)
  {
    NinePowers();
    PaddedIsFixed(nanos, 9);
    ShortFraction(m, w);
    FixedParses(nanos, 9);
    var digits := Fixed(nanos, 9)[..w];
    assert ("." + digits)[1..] == digits;
  }

  /** The zone is found behind any fraction. */
  lemma ZoneFound(fraction: string, zone: string)
    requires IsZone(zone)
    ensures ParseTail(fraction + zone) == ParseFraction(fraction)
  {
    var tail := fraction + zone;
    assert tail[|tail| - |zone|..] == zone && tail[..|tail| - |zone|] == fraction;
    assert tail[|tail| - 1] == zone[|zone| - 1];
  }

  /** What a fraction means: its digits as decimals of a second, those past the ninth dropped. */
  lemma {:induction false} FractionMeans(digits: string, n: nat)
    requires ParseDigits(digits) == Number(n)
    ensures |digits| <= 9 ==> ParseFraction("." + digits) == Nanos(n * Pow10(9 - |digits|))
    ensures |digits| > 9 && ParseDigits(digits[..9]).Number? ==>
      ParseFraction("." + digits) == Nanos(ParseDigits(digits[..9]).value)
  {
    assert ("." + digits)[1..] == digits;
    if |digits| <= 9 { PadEndParses(digits, n, 9); }
  }

  /** The text is the shortest of the four forms that keeps the nanoseconds: nothing for none, else a
      point and three, six or nine of the nine decimals, cut where only zeros follow. */
  lemma {:induction false} FractionIsShortest(nanos: nat)
    requires nanos < NANOS_PER_SECOND
    ensures |FractionText(nanos)| ==
      if nanos == 0 then 0 else if nanos % 1_000_000 == 0 then 4 else if nanos % 1_000 == 0 then 7 else 10
    ensures nanos > 0 ==> FractionText(nanos)[0] == '.'
    ensures forall k :: 1 <= k < |FractionText(nanos)| ==>
      FractionText(nanos)[k] == Digit(nanos / Pow10(9 - k) % 10)
  {
    NinePowers();
    if nanos != 0 {
      PaddedIsFixed(nanos, 9);
      forall k | 1 <= k < |FractionText(nanos)|
        ensures FractionText(nanos)[k] == Digit(nanos / Pow10(9 - k) % 10)
      {
        FixedDigits(nanos, 9, k - 1);
      }
    }
  }

  /** Every nanosecond count below one second parses back to itself, in front of any zone: the `Z`
      that is printed, and the offsets that are only read. */
  lemma {:induction false} FractionRoundTrip(nanos: nat, zone: string)
    requires nanos < NANOS_PER_SECOND && IsZone(zone)
    ensures ParseTail(FractionText(nanos) + zone) == Nanos(nanos)
  {
    NinePowers();
    ZoneFound(FractionText(nanos), zone);
    if nanos != 0 {
      PaddedIsFixed(nanos, 9);
      hide PadStart, Decimal, ParseFraction;
      if nanos % 1_000_000 == 0 {
        PrintedFraction(nanos, nanos / 1_000_000, 3);
      } else if nanos % 1_000 == 0 {
        PrintedFraction(nanos, nanos / 1_000, 6);
      } else {
        PrintedFraction(nanos, nanos, 9);
      }
    }
  }
}
