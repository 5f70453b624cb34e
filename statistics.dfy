/** Reductions of one sequence of readings to a single number: sum, arithmetic mean,
    maximum, minimum and population variance (divide by the count, as numpy's
    `std` does by default). */
module Statistics {

  function Sum(s: seq<real>): real
  {
    if s == [] then 0.0 else s[0] + Sum(s[1..])
  }

  /** The arithmetic mean: the reading that, taken once per reading, gives the sum. */
  function Mean(s: seq<real>): (m: real)
    requires |s| > 0
    ensures Product(|s| as real, m) == Sum(s)
  {
    Sum(s) / (|s| as real)
  }

  /** The largest reading: at least every reading, and one of them. */
  function Max(s: seq<real>): (m: real)
    requires |s| > 0
    ensures forall i :: 0 <= i < |s| ==> s[i] <= m
    ensures exists i :: 0 <= i < |s| && s[i] == m
  {
    if |s| == 1 then s[0]
    else
      var rest := Max(s[1..]);
      assert forall i :: 1 <= i < |s| ==> s[i] == s[1..][i - 1];
      if s[0] >= rest then s[0] else rest
  }

  /** The smallest reading: at most every reading, and one of them. */
  function Min(s: seq<real>): (m: real)
    requires |s| > 0
    ensures forall i :: 0 <= i < |s| ==> m <= s[i]
    ensures exists i :: 0 <= i < |s| && s[i] == m
  {
    if |s| == 1 then s[0]
    else
      var rest := Min(s[1..]);
      assert forall i :: 1 <= i < |s| ==> s[i] == s[1..][i - 1];
      if s[0] <= rest then s[0] else rest
  }

  /** Every reading equals every other. */
  predicate Constant(s: seq<real>)
  {
    forall i, k :: 0 <= i < |s| && 0 <= k < |s| ==> s[i] == s[k]
  }

  /** Real multiplication, kept behind a function so that facts about a square
      are proved once, about two independent factors. */
  function Product(a: real, b: real): real
  {
    a * b
  }

  /** The squared distance of every reading from `m`. */
  function SquaredDeviations(s: seq<real>, m: real): (d: seq<real>)
    ensures |d| == |s|
    ensures forall i :: 0 <= i < |s| ==> d[i] == Product(s[i] - m, s[i] - m)
  {
    seq(|s|, i requires 0 <= i < |s| => Product(s[i] - m, s[i] - m))
  }

  /** Population variance: the mean squared deviation from the mean. */
  function Variance(s: seq<real>): (v: real)
    requires |s| > 0
    ensures v >= 0.0
  {
    var d := SquaredDeviations(s, Mean(s));
    DeviationsNonNegative(s, Mean(s));
    SumAtLeast(d, 0.0);
    Sum(d) / (|s| as real)
  }

  lemma ProductPositive(a: real, b: real)
    requires (a > 0.0 && b > 0.0) || (a < 0.0 && b < 0.0)
    ensures Product(a, b) > 0.0
  {
  }

  lemma ProductZero(a: real, b: real)
    requires a == 0.0
    ensures Product(a, b) == 0.0
  {
  }

  lemma DeviationsNonNegative(s: seq<real>, m: real)
    ensures forall i :: 0 <= i < |s| ==> SquaredDeviations(s, m)[i] >= 0.0
  {
    forall i | 0 <= i < |s| ensures SquaredDeviations(s, m)[i] >= 0.0 {
      if s[i] != m { ProductPositive(s[i] - m, s[i] - m); } else { ProductZero(s[i] - m, s[i] - m); }
    }
  }

  lemma {:induction false} SumAtMost(s: seq<real>, b: real)
    requires forall i :: 0 <= i < |s| ==> s[i] <= b
    ensures Sum(s) <= Product(|s| as real, b)
  {
    if s != [] {
      SumAtMost(s[1..], b);
      ProductStep((|s| - 1) as real, b);
    }
  }

  lemma {:induction false} SumAtLeast(s: seq<real>, b: real)
    requires forall i :: 0 <= i < |s| ==> b <= s[i]
    ensures Product(|s| as real, b) <= Sum(s)
  {
    if s != [] {
      SumAtLeast(s[1..], b);
      ProductStep((|s| - 1) as real, b);
    }
  }

  /** Subtracting `c` from every reading lowers the sum by `c` once per reading. */
  lemma {:induction false} SumShifted(s: seq<real>, c: real)
    ensures Sum(seq(|s|, i requires 0 <= i < |s| => s[i] - c)) == Sum(s) - Product(|s| as real, c)
  {
    var t := seq(|s|, i requires 0 <= i < |s| => s[i] - c);
    if s != [] {
      var t' := seq(|s| - 1, i requires 0 <= i < |s| - 1 => s[1..][i] - c);
      assert t[1..] == t';
      SumShifted(s[1..], c);
      ProductStep((|s| - 1) as real, c);
    }
  }

  /** A sum of non-negative readings is zero only when every reading is zero. */
  lemma {:induction false} SumZeroOnlyIfAllZero(s: seq<real>)
    requires forall i :: 0 <= i < |s| ==> 0.0 <= s[i]
    requires Sum(s) == 0.0
    ensures forall i :: 0 <= i < |s| ==> s[i] == 0.0
  {
    if s != [] {
      SumAtLeast(s[1..], 0.0);
      SumZeroOnlyIfAllZero(s[1..]);
      assert forall i :: 1 <= i < |s| ==> s[i] == s[1..][i - 1];
    }
  }

  lemma ProductStep(a: real, b: real)
    ensures Product(a + 1.0, b) == Product(a, b) + b
  {
  }

  lemma QuotientBounds(a: real, n: real, lo: real, hi: real)
    requires n > 0.0 && Product(n, lo) <= a <= Product(n, hi)
    ensures lo <= a / n <= hi
  {
    assert (a / n) * n == a;
  }

  /** The mean lies between the smallest and the largest reading. */
  lemma MeanBetweenMinAndMax(s: seq<real>)
    requires |s| > 0
    ensures Min(s) <= Mean(s) <= Max(s)
  {
    var lo, hi := Min(s), Max(s);
    SumAtMost(s, hi);
    SumAtLeast(s, lo);
    QuotientBounds(Sum(s), |s| as real, lo, hi);
  }

  /** A constant sequence has that constant as its mean. */
  lemma MeanOfConstant(s: seq<real>, c: real)
    requires |s| > 0
    requires forall i :: 0 <= i < |s| ==> s[i] == c
    ensures Mean(s) == c
  {
    SumAtMost(s, c);
    SumAtLeast(s, c);
  }

  /** The deviations from the mean cancel out: the mean is the balance point. */
  lemma DeviationsFromMeanCancel(s: seq<real>)
    requires |s| > 0
    ensures Sum(seq(|s|, i requires 0 <= i < |s| => s[i] - Mean(s))) == 0.0
  {
    SumShifted(s, Mean(s));
    assert Product(|s| as real, Mean(s)) == Sum(s);
  }

  /** The variance is zero exactly when all readings are equal. */
  lemma VarianceZeroIffConstant(s: seq<real>)
    requires |s| > 0
    ensures Variance(s) == 0.0 <==> Constant(s)
  {
    var m := Mean(s);
    var d := SquaredDeviations(s, m);
    DeviationsNonNegative(s, m);
    if Variance(s) == 0.0 {
      assert Sum(d) == Product(Variance(s), |s| as real);
      SumZeroOnlyIfAllZero(d);
      forall i | 0 <= i < |s| ensures s[i] == m {
        if s[i] != m { ProductPositive(s[i] - m, s[i] - m); }
      }
    }
    if Constant(s) {
      MeanOfConstant(s, s[0]);
      forall i | 0 <= i < |s| ensures d[i] == 0.0 {
        ProductZero(s[i] - m, s[i] - m);
      }
      SumAtMost(d, 0.0);
    }
  }
}
