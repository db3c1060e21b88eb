/**
 Directional persistence: net travel over total travel across a window of closes.
 */
module Efficiency {
  import opened Common

  const MIN_WINDOW_BARS := 20

  /** The closes that are present. */
  function Present(closes: seq<Option<real>>): seq<real> {
    if closes == [] then []
    else
      var init, c := closes[..|closes| - 1], closes[|closes| - 1];
      if c.Some? then Present(init) + [c.value] else Present(init)
  }

  /** The distance walked from index i to index j. */
  function Travel(xs: seq<real>, i: nat, j: nat): (t: real)
    requires i <= j < |xs|
    ensures t >= 0.0
  {
    if i == j then 0.0 else Travel(xs, i, j - 1) + Abs(xs[j] - xs[j - 1])
  }

  function Net(xs: seq<real>): real
    requires xs != []
  {
    Abs(xs[|xs| - 1] - xs[0])
  }

  function Total(xs: seq<real>): real
    requires xs != []
  {
    Travel(xs, 0, |xs| - 1)
  }

  predicate Measurable(xs: seq<real>) {
    |xs| >= MIN_WINDOW_BARS && Total(xs) > 0.0
  }

  /** Net over total, clamped; None when nothing was walked. */
  function Ratio(net: real, total: real): Option<real> {
    if total <= 0.0 then None else Some(RealMax(0.0, RealMin(1.0, net / total)))
  }

  function EfficiencyOf(xs: seq<real>): Option<real> {
    if |xs| < MIN_WINDOW_BARS then None else Ratio(Net(xs), Total(xs))
  }

  function Efficiency(closes: seq<Option<real>>): Option<real> {
    EfficiencyOf(Present(closes))
  }

  // --- Travel -----------------------------------------------------------------------------------

  lemma {:induction false} TravelSplit(xs: seq<real>, i: nat, j: nat, k: nat)
    requires i <= j <= k < |xs|
    ensures Travel(xs, i, k) == Travel(xs, i, j) + Travel(xs, j, k)
  {
    if j < k {
      TravelSplit(xs, i, j, k - 1);
    }
  }

  /** A straight line is the shortest way. */
  lemma {:induction false} TravelAtLeastNet(xs: seq<real>, i: nat, j: nat)
    requires i <= j < |xs|
    ensures Abs(xs[j] - xs[i]) <= Travel(xs, i, j)
  {
    if i < j {
      TravelAtLeastNet(xs, i, j - 1);
    }
  }

  ghost predicate Rising(xs: seq<real>, j: nat)
    requires j < |xs|
  {
    forall k :: 0 < k <= j ==> xs[k - 1] <= xs[k]
  }

  ghost predicate Falling(xs: seq<real>, j: nat)
    requires j < |xs|
  {
    forall k :: 0 < k <= j ==> xs[k - 1] >= xs[k]
  }

  lemma {:induction false} TravelIsRiseIff(xs: seq<real>, j: nat)
    requires j < |xs|
    ensures Travel(xs, 0, j) == xs[j] - xs[0] <==> Rising(xs, j)
    ensures Travel(xs, 0, j) == xs[0] - xs[j] <==> Falling(xs, j)
  {
    if 0 < j {
      TravelIsRiseIff(xs, j - 1);
      TravelAtLeastNet(xs, 0, j - 1);
    }
  }

  lemma {:induction false} DivBounds(n: real, t: real)
    requires 0.0 <= n <= t && 0.0 < t
    ensures 0.0 <= n / t <= 1.0
    ensures n / t == 1.0 <==> n == t
    ensures n / t == 0.0 <==> n == 0.0
  {
    assert n / t * t == n;
  }

  /** The clamps never act; the reading is 1 exactly on monotone closes and 0 exactly when the ends agree. */
  lemma {:induction false} EfficiencyExact(xs: seq<real>)
    requires Measurable(xs)
    ensures EfficiencyOf(xs) == Some(Net(xs) / Total(xs))
    ensures 0.0 <= EfficiencyOf(xs).value <= 1.0
    ensures EfficiencyOf(xs) == Some(1.0) <==> Rising(xs, |xs| - 1) || Falling(xs, |xs| - 1)
    ensures EfficiencyOf(xs) == Some(0.0) <==> xs[0] == xs[|xs| - 1]
  {
    TravelAtLeastNet(xs, 0, |xs| - 1);
    TravelIsRiseIff(xs, |xs| - 1);
    DivBounds(Net(xs), Total(xs));
  }

  /** There is a reading exactly for twenty closes or more that are not all equal. */
  lemma {:induction false} MeasurableIff(xs: seq<real>)
    ensures EfficiencyOf(xs).Some? <==> Measurable(xs)
    ensures Measurable(xs) <==> |xs| >= 20 && exists k :: 0 < k < |xs| && xs[k] != xs[k - 1]
  {
    if |xs| >= 20 {
      StillIffNoTravel(xs, |xs| - 1);
    }
  }

  lemma {:induction false} StillIffNoTravel(xs: seq<real>, j: nat)
    requires j < |xs|
    ensures Travel(xs, 0, j) > 0.0 <==> exists k :: 0 < k <= j && xs[k] != xs[k - 1]
  {
    if 0 < j {
      StillIffNoTravel(xs, j - 1);
    }
  }

  // --- Reversal and affine maps -----------------------------------------------------------------

  function Reversed(xs: seq<real>): (ys: seq<real>)
    ensures |ys| == |xs| && forall i :: 0 <= i < |ys| ==> ys[i] == xs[|xs| - 1 - i]
  {
    seq(|xs|, i requires 0 <= i < |xs| => xs[|xs| - 1 - i])
  }

  lemma {:induction false} TravelReversed(xs: seq<real>, i: nat, j: nat)
    requires i <= j < |xs|
    ensures Travel(Reversed(xs), i, j) == Travel(xs, |xs| - 1 - j, |xs| - 1 - i)
  {
    var n := |xs| - 1;
    if i < j {
      TravelReversed(xs, i, j - 1);
      TravelSplit(xs, n - j, n - j + 1, n - i);
      assert Travel(xs, n - j, n - j) == 0.0;
    }
  }

  lemma {:induction false} EfficiencyReversed(xs: seq<real>)
    ensures EfficiencyOf(Reversed(xs)) == EfficiencyOf(xs)
  {
    if xs != [] {
      TravelReversed(xs, 0, |xs| - 1);
    }
  }

  function Affine(xs: seq<real>, a: real, b: real): (ys: seq<real>)
    ensures |ys| == |xs| && forall i :: 0 <= i < |ys| ==> ys[i] == a * xs[i] + b
  {
    seq(|xs|, i requires 0 <= i < |xs| => a * xs[i] + b)
  }

  lemma {:induction false} AbsScales(a: real, x: real, y: real, b: real)
    ensures Abs((a * x + b) - (a * y + b)) == Abs(a) * Abs(x - y)
  {
    var d := x - y;
    assert (a * x + b) - (a * y + b) == a * d by {
      Distributes(a, d, y);
      assert d + y == x;
    }
    AbsProduct(a, d);
  }

  lemma {:induction false} AbsProduct(a: real, d: real)
    ensures Abs(a * d) == Abs(a) * Abs(d)
  {
    NonNegativeProduct(Abs(a), Abs(d));
    assert (-a) * d == -(a * d) && a * (-d) == -(a * d) && (-a) * (-d) == a * d;
  }

  lemma {:induction false} NonNegativeProduct(p: real, q: real)
    requires p >= 0.0 && q >= 0.0
    ensures p * q >= 0.0
  {
  }

  /** Scaling every step by an additive map scales the distance walked. */
  lemma {:induction false} TravelScales(xs: seq<real>, ys: seq<real>, scale: real -> real, j: nat)
    requires |ys| == |xs| && j < |xs| && scale(0.0) == 0.0
    requires forall s, t :: scale(s + t) == scale(s) + scale(t)
    requires forall i :: 0 < i < |xs| ==> Abs(ys[i] - ys[i - 1]) == scale(Abs(xs[i] - xs[i - 1]))
    ensures Travel(ys, 0, j) == scale(Travel(xs, 0, j))
  {
    if 0 < j {
      TravelScales(xs, ys, scale, j - 1);
    }
  }

  lemma {:induction false} AffineTravel(xs: seq<real>, a: real, b: real, j: nat)
    requires j < |xs|
    ensures Travel(Affine(xs, a, b), 0, j) == Scale(Abs(a))(Travel(xs, 0, j))
  {
    var ys := Affine(xs, a, b);
    forall i | 0 < i < |xs| ensures Abs(ys[i] - ys[i - 1]) == Scale(Abs(a))(Abs(xs[i] - xs[i - 1])) {
      AbsScales(a, xs[i], xs[i - 1], b);
    }
    ScaleAdditive(Abs(a));
    TravelScales(xs, ys, Scale(Abs(a)), j);
  }

  lemma {:induction false} AffineNet(xs: seq<real>, a: real, b: real)
    requires xs != []
    ensures Net(Affine(xs, a, b)) == Scale(Abs(a))(Net(xs))
  {
    AbsScales(a, xs[|xs| - 1], xs[0], b);
  }

  lemma {:induction false} RatioScales(k: real, n: real, t: real)
    requires k > 0.0 && t >= 0.0
    ensures Ratio(Scale(k)(n), Scale(k)(t)) == Ratio(n, t)
  {
    assert Scale(k)(n) == k * n && Scale(k)(t) == k * t;
    if t > 0.0 {
      SameQuotient(k, n, t);
    }
  }

  /** No change of unit, origin or sign of the price moves the reading. */
  lemma {:induction false} EfficiencyAffine(xs: seq<real>, a: real, b: real)
    requires a != 0.0
    ensures EfficiencyOf(Affine(xs, a, b)) == EfficiencyOf(xs)
  {
    if xs != [] {
      AffineTravel(xs, a, b, |xs| - 1);
      AffineNet(xs, a, b);
      RatioScales(Abs(a), Net(xs), Total(xs));
    }
  }

  // --- Deleting interior closes -----------------------------------------------------------------

  /** A choice of closes that keeps both ends. */
  ghost predicate KeepsEnds(keep: seq<nat>, n: nat) {
    && keep != [] && keep[0] == 0 && keep[|keep| - 1] == n - 1
    && (forall i :: 0 <= i < |keep| ==> keep[i] < n)
    && forall i, j :: 0 <= i < j < |keep| ==> keep[i] < keep[j]
  }

  function Select(xs: seq<real>, keep: seq<nat>): (ys: seq<real>)
    requires forall i :: 0 <= i < |keep| ==> keep[i] < |xs|
    ensures |ys| == |keep| && forall i :: 0 <= i < |ys| ==> ys[i] == xs[keep[i]]
  {
    seq(|keep|, i requires 0 <= i < |keep| => xs[keep[i]])
  }

  lemma {:induction false} SelectTravelsLess(xs: seq<real>, keep: seq<nat>, m: nat)
    requires KeepsEnds(keep, |xs|) && m < |keep|
    ensures Travel(Select(xs, keep), 0, m) <= Travel(xs, 0, keep[m])
  {
    if 0 < m {
      SelectTravelsLess(xs, keep, m - 1);
      TravelAtLeastNet(xs, keep[m - 1], keep[m]);
      TravelSplit(xs, 0, keep[m - 1], keep[m]);
    }
  }

  lemma {:induction false} SmallerDenominator(n: real, s: real, t: real)
    requires 0.0 <= n && 0.0 < s <= t
    ensures n / t <= n / s
  {
    var q := n / t;
    assert q * t == n && 0.0 <= q;
    assert q * s <= q * t;
    assert n / s * s == n;
    assert (n / s - q) * s >= 0.0;
  }

  /** Leaving out interior closes never lowers the reading while it stays measurable. */
  lemma {:induction false} DeletionNeverLowers(xs: seq<real>, keep: seq<nat>)
    requires KeepsEnds(keep, |xs|) && Measurable(xs) && Measurable(Select(xs, keep))
    ensures EfficiencyOf(xs).value <= EfficiencyOf(Select(xs, keep)).value
  {
    var ys := Select(xs, keep);
    SelectTravelsLess(xs, keep, |keep| - 1);
    EfficiencyExact(xs);
    EfficiencyExact(ys);
    SmallerDenominator(Net(xs), Total(ys), Total(xs));
  }

  /** Missing closes are skipped, wherever they stand. */
  lemma {:induction false} PresentConcat(a: seq<Option<real>>, b: seq<Option<real>>)
    ensures Present(a + b) == Present(a) + Present(b)
    decreases |b|
  {
    if b == [] {
      assert a + b == a;
    } else {
      var init := b[..|b| - 1];
      assert (a + b)[..|a + b| - 1] == a + init;
      PresentConcat(a, init);
    }
  }

  lemma {:induction false} MissingCloseIgnored(a: seq<Option<real>>, b: seq<Option<real>>)
    ensures Efficiency(a + [None] + b) == Efficiency(a + b)
  {
    PresentConcat(a + [None], b);
    PresentConcat(a, [None]);
    PresentConcat(a, b);
    assert Present([None]) == [];
  }
}
