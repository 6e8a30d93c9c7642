/**
 * The quasi-random sampler: the radical inverse (van der Corput digit
 * reversal) of a positive index in an integer base of at least 2.
 * The stateful counter that feeds it lives in `Runner.PathtracerRunner`.
 */
module Sampler {

  /**
   * Radical inverse of `n` in base `b`: the base-`b` digits of `n`, least
   * significant first, written after the radix point. Indices that are not
   * positive give 0, as the sampler's digit loop does not run for them.
   */
  function RadicalInverse(n: int, b: int): real
    requires b >= 2
    decreases if n > 0 then n else 0
  {
    if n <= 0 then 0.0
    else
      QuotientSmaller(n, b);
      ((n % b) as real + RadicalInverse(n / b, b)) / (b as real)
  }

  /**
   * The value the sampler draws at index `n` in base `b`: the radical
   * inverse, total over all bases. Contracts name the draws through this
   * non-recursive function, which keeps the verifier from unfolding the
   * digit recursion where it is not needed.
   */
  function Sample(n: int, b: int): real
  {
    if b >= 2 then RadicalInverse(n, b) else 0.0
  }

  /** The base-`b` digits of `n`, least significant first. */
  function Digits(n: int, b: int): (ds: seq<int>)
    requires b >= 2
    decreases if n > 0 then n else 0
  {
    if n <= 0 then []
    else
      QuotientSmaller(n, b);
      [n % b] + Digits(n / b, b)
  }

  /** The number whose base-`b` digits, least significant first, are `ds`. */
  function Value(ds: seq<int>, b: int): int
  {
    if ds == [] then 0 else ds[0] + b * Value(ds[1..], b)
  }

  /** The number whose base-`b` digits, MOST significant first, are `ds`. */
  function Mirror(ds: seq<int>, b: int): int
  {
    if ds == [] then 0 else ds[0] * Pow(b, |ds| - 1) + Mirror(ds[1..], b)
  }

  function Pow(b: int, k: nat): int
  {
    if k == 0 then 1 else b * Pow(b, k - 1)
  }

  lemma {:induction false} PowPositive(b: int, k: nat)
    requires b >= 2
    ensures Pow(b, k) >= 1
  {
    if k > 0 {
      PowPositive(b, k - 1);
    }
  }

  /** `Digits` really are the base-`b` digits of `n`: each lies in [0, b) and they add back up to `n`. */
  lemma {:induction false} DigitsRoundTrip(n: nat, b: int)
    requires b >= 2
    ensures Value(Digits(n, b), b) == n
    ensures forall k :: 0 <= k < |Digits(n, b)| ==> 0 <= Digits(n, b)[k] < b
  {
    if n > 0 {
      var d, m := n % b, n / b;
      QuotientSmaller(n, b);
      DigitsRoundTrip(m, b);
      assert Digits(n, b) == [d] + Digits(m, b);
      assert Digits(n, b)[1..] == Digits(m, b);
      assert n == d + b * m;
    }
  }

  /** A quotient x / q with 0 <= x < q lies in [0, 1). */
  lemma FractionBelowOne(x: real, q: real)
    requires 0.0 <= x < q
    ensures 0.0 <= x / q < 1.0
    ensures 0.0 < x ==> 0.0 < x / q
  {
  }

  /** A positive index with a zero last digit has a positive quotient. */
  lemma QuotientPositive(n: int, b: int)
    requires b >= 2 && n > 0 && n % b == 0
    ensures n / b >= 1
  {
  }

  /** The sampler's value is a fraction in [0, 1), strictly positive for a positive index. */
  lemma {:induction false} RadicalInverseBounds(n: int, b: int)
    requires b >= 2
    ensures 0.0 <= RadicalInverse(n, b) < 1.0
    ensures n >= 1 ==> 0.0 < RadicalInverse(n, b)
  {
    if n > 0 {
      var d, m := n % b, n / b;
      RadicalInverseBounds(m, b);
      if d == 0 {
        QuotientPositive(n, b);
      }
      var x := (d as real) + RadicalInverse(m, b);
      assert 0.0 < x < b as real;
      FractionBelowOne(x, b as real);
    }
  }

  /** Dropping the last digit of a positive index makes it smaller. */
  lemma QuotientSmaller(n: int, b: int)
    requires b >= 2 && n > 0
    ensures 0 <= n / b < n
  {
  }

  /**
   * One digit step of the reversal: if the shorter index reverses to mi / p,
   * prepending digit d and dividing by b gives (d * p + mi) / (b * p).
   */
  lemma ReversalStep(ri: real, inner: real, d: int, b: int, p: int, mi: int, num: int, den: int)
    requires b >= 2 && p >= 1
    requires inner == (mi as real) / (p as real)
    requires ri == ((d as real) + inner) / (b as real)
    requires num == d * p + mi && den == b * p
    ensures ri == (num as real) / (den as real)
  {
    var dr, mr, pr, br := d as real, mi as real, p as real, b as real;
    assert (num as real) == dr * pr + mr by {
      assert ((d * p) as real) == dr * pr;
    }
    assert (den as real) == br * pr by {
      assert ((b * p) as real) == br * pr;
    }
    calc {
      ri;
      (dr + mr / pr) / br;
      ((dr * pr + mr) / pr) / br;
      (dr * pr + mr) / (pr * br);
    }
  }

  /** Prepending the last digit: the reversed number gains that digit as its leading digit. */
  lemma MirrorStep(n: int, b: int)
    requires b >= 2 && n > 0
    ensures Mirror(Digits(n, b), b) == (n % b) * Pow(b, |Digits(n / b, b)|) + Mirror(Digits(n / b, b), b)
  {
    var d, rest := n % b, Digits(n / b, b);
    assert Digits(n, b) == [d] + rest;
    assert ([d] + rest)[1..] == rest;
  }

  /** One more digit scales the denominator by b. */
  lemma PowStep(n: int, b: int)
    requires b >= 2 && n > 0
    ensures Pow(b, |Digits(n, b)|) == b * Pow(b, |Digits(n / b, b)|)
  {
    assert |Digits(n, b)| == |Digits(n / b, b)| + 1;
  }

  /**
   * Digit reversal: the radical inverse of `n` is the integer whose digits
   * are those of `n` in reverse order, divided by b^(number of digits).
   */
  lemma {:induction false} RadicalInverseIsDigitReversal(n: int, b: int)
    requires b >= 2
    ensures Pow(b, |Digits(n, b)|) >= 1
    ensures RadicalInverse(n, b) == (Mirror(Digits(n, b), b) as real) / (Pow(b, |Digits(n, b)|) as real)
  {
    PowPositive(b, |Digits(n, b)|);
    if n > 0 {
      var d, m := n % b, n / b;
      var num, den := Mirror(Digits(n, b), b), Pow(b, |Digits(n, b)|);
      var mi, p := Mirror(Digits(m, b), b), Pow(b, |Digits(m, b)|);
      QuotientSmaller(n, b);
      RadicalInverseIsDigitReversal(m, b);
      MirrorStep(n, b);
      PowStep(n, b);
      ReversalStep(RadicalInverse(n, b), RadicalInverse(m, b), d, b, p, mi, num, den);
    }
  }

  /** The definition of the radical inverse, unfolded once, with the last digit and the quotient named. */
  lemma RadicalInverseUnfold(i: int, b: int, d: int, q: int)
    requires b >= 2 && i > 0 && d == i % b && q == i / b
    ensures 0 <= q < i
    ensures Sample(i, b) == ((d as real) + Sample(q, b)) / (b as real)
  {
    QuotientSmaller(i, b);
  }

  /** The real arithmetic of one digit step, with the digit and the remaining fraction given as values. */
  lemma ScaledDigit(f: real, r: real, d: real, inner: real, whole: real, bb: real)
    requires bb > 0.0 && f > 0.0 && whole == (d + inner) / bb
    ensures f / bb > 0.0
    ensures (r + (f / bb) * d) + (f / bb) * inner == r + f * whole
  {
    calc {
      (r + (f / bb) * d) + (f / bb) * inner;
      r + (f / bb) * (d + inner);
      r + f * ((d + inner) / bb);
    }
  }

  /**
   * One iteration of the sampler's digit loop: the weight f shrinks by the
   * base, the last digit of i, so weighted, joins the sum r, and i loses
   * that digit. The quantity r + f * Sample(i, b) is unchanged.
   */
  method DigitStep(i: int, b: int, f: real, r: real) returns (i': int, f': real, r': real)
    requires b >= 2 && i > 0 && f > 0.0
    ensures 0 <= i' < i && f' > 0.0
    ensures r' + f' * Sample(i', b) == r + f * Sample(i, b)
  {
    var d := i % b;
    i' := i / b;
    RadicalInverseUnfold(i, b, d, i');
    ScaledDigit(f, r, d as real, Sample(i', b), Sample(i, b), b as real);
    f' := f / (b as real);
    r' := r + f' * (d as real);
  }

  /** The first six base-2 samples: 1/2, 1/4, 3/4, 1/8, 5/8, 3/8. */
  lemma BaseTwoPrefix()
    ensures RadicalInverse(1, 2) == 0.5
    ensures RadicalInverse(2, 2) == 0.25
    ensures RadicalInverse(3, 2) == 0.75
    ensures RadicalInverse(4, 2) == 0.125
    ensures RadicalInverse(5, 2) == 0.625
    ensures RadicalInverse(6, 2) == 0.375
  {
    assert RadicalInverse(1, 2) == 0.5;
    assert RadicalInverse(2, 2) == 0.25;
    assert RadicalInverse(3, 2) == 0.75;
    assert RadicalInverse(4, 2) == 0.125;
  }
}
