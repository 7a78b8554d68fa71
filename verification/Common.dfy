/** What several components share. */
module Common {
  datatype Option<+T> = None | Some(value: T)

  function Larger(a: nat, b: nat): nat { if a < b then b else a }

  function Reversed<T>(s: seq<T>): seq<T> {
    seq(|s|, k requires 0 <= k < |s| => s[|s| - 1 - k])
  }

  /** What comes last comes first. */
  lemma ReversedLast<T>(s: seq<T>, x: T)
    ensures Reversed(s + [x]) == [x] + Reversed(s)
  {
  }

  lemma ReversedTwice<T>(s: seq<T>)
    ensures Reversed(Reversed(s)) == s
  {
  }

  lemma Multiply(d: nat, a: nat, b: nat)
    requires a <= b
    ensures d * a <= d * b
  {
  }

  lemma QuotientIs(n: nat, d: nat, q: nat, r: nat)
    requires r < d && n == d * q + r
    ensures n / d == q
  {
    var e := n / d;
    assert d * e <= n < d * e + d;
    if e < q {
      Multiply(d, e + 1, q);
    } else if e > q {
      Multiply(d, q + 1, e);
    }
  }
}
