/** Vocabulary shared by the modules of the model. */
module Common {

  datatype Option<+T> = None | Some(value: T)

  function Max(a: int, b: int): int {
    if a < b then b else a
  }

  function Abs(x: real): real {
    if x < 0.0 then -x else x
  }

  function RealMax(a: real, b: real): real {
    if a < b then b else a
  }

  function RealMin(a: real, b: real): real {
    if a < b then a else b
  }

  lemma {:induction false} MulMonotone(a: int, b: int, width: int)
    requires 0 <= width && a <= b
    ensures a * width <= b * width
  {
    assert 0 <= (b - a) * width;
  }

  lemma {:induction false} DivFloors(a: nat, width: int)
    requires 1 <= width
    ensures 0 <= a / width && a / width * width <= a < a / width * width + width
  {
    assert a == a / width * width + a % width;
  }

  lemma {:induction false} QuotientsOrdered(p: int, q: int, a: int, b: int, width: int)
    requires 1 <= width && p * width <= a <= b < q * width + width
    ensures p <= q
  {
    assert (q + 1) * width == q * width + width;
    if q + 1 <= p {
      MulMonotone(q + 1, p, width);
    }
  }

  lemma {:induction false} AtMostProduct(q: nat, width: int)
    requires 1 <= width
    ensures q <= q * width
  {
    assert q * width == q + q * (width - 1);
  }

  /** Division by a positive width is monotone and does not grow a natural number. */
  lemma {:induction false} DivMonotone(a: nat, b: nat, width: int)
    requires a <= b && 1 <= width
    ensures 0 <= a / width <= b / width <= b
  {
    var p, q := a / width, b / width;
    DivFloors(a, width);
    DivFloors(b, width);
    QuotientsOrdered(p, q, a, b, width);
    AtMostProduct(q, width);
  }

  /** Multiplication by a fixed factor, as a map. */
  function Scale(k: real): real -> real {
    (x: real) => k * x
  }

  lemma {:induction false} Distributes(k: real, s: real, t: real)
    ensures k * (s + t) == k * s + k * t
  {
  }

  lemma {:induction false} ScaleSum(k: real, s: real, t: real)
    ensures Scale(k)(s + t) == Scale(k)(s) + Scale(k)(t)
  {
    Distributes(k, s, t);
  }

  lemma {:induction false} ScaleAdditive(k: real)
    ensures Scale(k)(0.0) == 0.0
    ensures forall s, t :: Scale(k)(s + t) == Scale(k)(s) + Scale(k)(t)
  {
    forall s, t ensures Scale(k)(s + t) == Scale(k)(s) + Scale(k)(t) {
      ScaleSum(k, s, t);
    }
  }

  /** A common positive factor cancels. */
  lemma {:induction false} SameQuotient(k: real, n: real, t: real)
    requires k > 0.0 && t > 0.0
    ensures k * t > 0.0 && (k * n) / (k * t) == n / t
  {
    assert n == n / t * t;
    assert k * n == (n / t) * (k * t);
  }
}
