/** Decimal text of natural numbers, and reading it back. */
module DecimalText {
  import opened Common

  function Digit(d: nat): char
    requires d < 10
  {
    '0' + d as char
  }

  function Decimal(n: nat): (s: string)
    ensures s != ""
  {
    if n < 10 then [Digit(n)] else Decimal(n / 10) + [Digit(n % 10)]
  }

  datatype Parsed = Number(value: nat) | NotANumber

  predicate IsDigit(c: char) {
    '0' <= c <= '9'
  }

  /** The value of a digit string, if it is one. */
  function ParseDigits(s: string): Parsed {
    if s == "" then NotANumber
    else if !IsDigit(s[|s| - 1]) then NotANumber
    else
      var d := (s[|s| - 1] - '0') as nat;
      if |s| == 1 then Number(d)
      else match ParseDigits(s[..|s| - 1])
        case Number(n) => Number(10 * n + d)
        case NotANumber => NotANumber
  }

  lemma {:induction false} DecimalParses(n: nat)
    ensures ParseDigits(Decimal(n)) == Number(n)
    ensures forall k :: 0 <= k < |Decimal(n)| ==> IsDigit(Decimal(n)[k])
  {
    if n >= 10 {
      DecimalParses(n / 10);
      var s := Decimal(n);
      assert s[..|s| - 1] == Decimal(n / 10);
    }
  }

  /** The text of a number is its decimal digits, the most significant first, without leading zeros. */
  lemma {:induction false} DecimalDigits(n: nat, k: nat)
    requires k < |Decimal(n)|
    ensures Decimal(n)[|Decimal(n)| - 1 - k] == Digit(n / Pow10(k) % 10)
    ensures n < Pow10(|Decimal(n)|) && (|Decimal(n)| > 1 ==> Pow10(|Decimal(n)| - 1) <= n)
  {
    if n >= 10 {
      DecimalDigits(n / 10, if k == 0 then 0 else k - 1);
      if k > 0 { DivideByTens(n, Pow10(k - 1)); }
    }
  }

  lemma DivideByTens(n: nat, m: nat)
    requires m > 0
    ensures n / 10 / m == n / (10 * m)
  {
    var q, r := n / 10 / m, n / 10 % m;
    assert n == 10 * (m * q + r) + n % 10;
    assert n == (10 * m) * q + (10 * r + n % 10);
    QuotientIs(n, 10 * m, q, 10 * r + n % 10);
  }

  lemma {:induction false} LeadingZeros(s: string, zeros: nat)
    requires s != ""
    ensures ParseDigits(seq(zeros, _ => '0') + s) == ParseDigits(s)
  {
    var text := seq(zeros, _ => '0') + s;
    if |s| > 1 {
      assert text[..|text| - 1] == seq(zeros, _ => '0') + s[..|s| - 1];
      LeadingZeros(s[..|s| - 1], zeros);
    } else {
      assert text[..|text| - 1] == seq(zeros, _ => '0');
      ZerosParse(zeros);
    }
  }

  lemma {:induction false} ZerosParse(zeros: nat)
    ensures zeros > 0 ==> ParseDigits(seq(zeros, _ => '0')) == Number(0)
  {
    if zeros > 1 {
      assert seq(zeros, _ => '0')[..zeros - 1] == seq(zeros - 1, _ => '0');
      ZerosParse(zeros - 1);
    }
  }

  lemma ZeroBehind(s: string, n: nat)
    requires ParseDigits(s) == Number(n)
    ensures ParseDigits(s + "0") == Number(10 * n)
  {
    assert (s + "0")[..|s|] == s;
  }

  lemma TenTimes(n: nat, m: nat)
    ensures 10 * n * m == n * (10 * m)
  {
  }

  /** Zeros behind a number multiply it by ten each. */
  lemma {:induction false} PadEndParses(s: string, n: nat, w: nat)
    requires ParseDigits(s) == Number(n) && |s| <= w
    ensures ParseDigits(PadEnd(s, w)) == Number(n * Pow10(w - |s|))
    decreases w - |s|
  {
    hide ParseDigits;
    if |s| < w {
      ZeroBehind(s, n);
      PadEndParses(s + "0", 10 * n, w);
      TenTimes(n, Pow10(w - |s| - 1));
    }
  }

  lemma {:induction false} OnlyDigitsParse(s: string, k: nat)
    requires k < |s| && !IsDigit(s[k])
    ensures ParseDigits(s) == NotANumber
  {
    if k < |s| - 1 {
      OnlyDigitsParse(s[..|s| - 1], k);
    }
  }

  /** Exactly `w` digits, the most significant ones dropped. */
  function Fixed(n: nat, w: nat): (s: string)
    ensures |s| == w
  {
    if w == 0 then "" else Fixed(n / 10, w - 1) + [Digit(n % 10)]
  }

  function PadStart(s: string, w: nat): (r: string)
    ensures |r| >= w
    decreases w - |s|
  {
    if |s| >= w then s else PadStart("0" + s, w)
  }

  function PadEnd(s: string, w: nat): string
    decreases w - |s|
  {
    if |s| >= w then s else PadEnd(s + "0", w)
  }

  function Pow10(w: nat): (p: nat)
    ensures p > 0
  {
    if w == 0 then 1 else 10 * Pow10(w - 1)
  }

  lemma {:induction false} PadStartLast(s: string, c: char, w: nat)
    ensures PadStart(s + [c], w + 1) == PadStart(s, w) + [c]
    decreases w - |s|
  {
    if |s| < w {
      assert "0" + (s + [c]) == ("0" + s) + [c];
      PadStartLast("0" + s, c, w);
    }
  }

  lemma {:induction false} PadStartOne(d: nat, w: nat)
    requires d < 10 && w > 0
    ensures PadStart([Digit(d)], w) == Fixed(d, w)
  {
    assert [] + [Digit(d)] == [Digit(d)];
    PadStartLast([], Digit(d), w - 1);
    PadStartZeros(w - 1);
  }

  lemma {:induction false} PadStartZeros(w: nat)
    ensures PadStart("", w) == Fixed(0, w)
  {
    if w > 0 {
      assert [] + ['0'] == "0" && "0" + [] == "0";
      PadStartLast("", '0', w - 1);
      PadStartZeros(w - 1);
    }
  }

  /** Zero-padding a number that fits the width gives its fixed-width text. */
  lemma {:induction false} PaddedIsFixed(n: nat, w: nat)
    requires w > 0 && n < Pow10(w)
    ensures PadStart(Decimal(n), w) == Fixed(n, w)
  {
    if n < 10 {
      PadStartOne(n, w);
    } else {
      PaddedIsFixed(n / 10, w - 1);
      PadStartLast(Decimal(n / 10), Digit(n % 10), w - 1);
    }
  }

  lemma {:induction false} FixedDigits(n: nat, w: nat, k: nat)
    requires k < w
    ensures Fixed(n, w)[k] == Digit(n / Pow10(w - 1 - k) % 10)
  {
    if k < w - 1 {
      FixedDigits(n / 10, w - 1, k);
      DivideByTens(n, Pow10(w - 2 - k));
    }
  }

  lemma {:induction false} FixedParses(n: nat, w: nat)
    requires w > 0 && n < Pow10(w)
    ensures ParseDigits(Fixed(n, w)) == Number(n)
    ensures forall k :: 0 <= k < w ==> IsDigit(Fixed(n, w)[k])
  {
    if w > 1 {
      FixedParses(n / 10, w - 1);
      var s := Fixed(n, w);
      assert s[..|s| - 1] == Fixed(n / 10, w - 1);
    }
  }

  /** Trailing zeros of the number are trailing zeros of the text. */
  lemma {:induction false} FixedOfMultiple(m: nat, w: nat, zeros: nat)
    ensures Fixed(m * Pow10(zeros), w + zeros) == PadEnd(Fixed(m, w), w + zeros)
  {
    if zeros == 0 {
      assert m * Pow10(0) == m;
    } else {
      assert m * Pow10(zeros) == 10 * (m * Pow10(zeros - 1));
      FixedOfMultiple(m, w, zeros - 1);
      PadEndMore(Fixed(m, w), w + zeros - 1);
    }
  }

  lemma {:induction false} PadEndMore(s: string, w: nat)
    requires |s| <= w
    ensures PadEnd(s, w + 1) == PadEnd(s, w) + "0"
    decreases w - |s|
  {
    if |s| < w {
      PadEndMore(s + "0", w);
    } else {
      assert PadEnd(s + "0", w + 1) == s + "0";
    }
  }

  lemma {:induction false} PadEndStarts(s: string, w: nat)
    requires |s| <= w
    ensures |PadEnd(s, w)| == w && PadEnd(s, w)[..|s|] == s
    decreases w - |s|
  {
    if |s| < w {
      PadEndStarts(s + "0", w);
      assert PadEnd(s, w)[..|s|] == PadEnd(s, w)[..|s| + 1][..|s|];
      assert (s + "0")[..|s|] == s;
    }
  }
}
