/** Facts about products of reals, each small enough for the solver. */
module RealArithmetic {

  function Square(x: real): real {
    x * x
  }

  function Abs(x: real): real {
    if x < 0.0 then -x else x
  }

  /** A product under a name, so that a proof can leave it unopened. */
  function Times(a: real, b: real): real {
    a * b
  }

  lemma ProductPositive(a: real, b: real)
    requires a > 0.0 && b > 0.0
    ensures a * b > 0.0
  {
  }

  lemma ProductNotNegative(a: real, b: real)
    requires a >= 0.0 && b >= 0.0
    ensures a * b >= 0.0
  {
  }

  lemma ProductOrder(c: real, a: real, b: real)
    requires c >= 0.0 && a <= b
    ensures c * a <= c * b
  {
    ProductNotNegative(c, b - a);
    assert c * (b - a) == c * b - c * a;
  }

  lemma ScaleOrder(x: real, y: real, d: real)
    requires d > 0.0
    ensures x > y <==> x * d > y * d
  {
    assert (x - y) * d == x * d - y * d;
    if x > y {
      ProductPositive(x - y, d);
    } else {
      ProductNotNegative(y - x, d);
      assert (y - x) * d == y * d - x * d;
    }
  }

  lemma SquareOfNegation(x: real, y: real)
    requires y == -x
    ensures Square(y) == Square(x)
  {
  }

  lemma TimesPositive(a: real, b: real)
    requires a > 0.0 && b > 0.0
    ensures Times(a, b) > 0.0
  {
  }

  lemma SquareIsTimes(x: real, y: real)
    requires x == y
    ensures Square(x) == Times(x, y)
  {
  }

  lemma SquareOfPositive(x: real)
    requires x > 0.0
    ensures Square(x) > 0.0
  {
    var y := x;
    hide Square, Times;
    TimesPositive(x, y);
    SquareIsTimes(x, y);
  }

  lemma SquareSign(x: real)
    ensures Square(x) >= 0.0
    ensures x != 0.0 ==> Square(x) > 0.0
    ensures Square(-x) == Square(x)
  {
    hide Square;
    var y := -x;
    SquareOfNegation(x, y);
    if x > 0.0 {
      SquareOfPositive(x);
    } else if x < 0.0 {
      SquareOfPositive(y);
    } else {
      SquareOfZero(x);
    }
  }

  lemma SquareOfZero(x: real)
    requires x == 0.0
    ensures Square(x) == 0.0
  {
  }

  lemma NegativeFactor(k: real, x: real)
    requires k > 0.0
    ensures x < 0.0 ==> k * x < 0.0
  {
  }

  lemma FactorNotNegative(k: real, x: real)
    requires k > 0.0 && k * x >= 0.0
    ensures x >= 0.0
  {
    NegativeFactor(k, x);
  }

  lemma DifferenceOfSquares(a: real, b: real)
    ensures Square(a) - Square(b) == (a - b) * (a + b)
  {
  }

  lemma SquareOrder(a: real, t: real)
    requires a >= 0.0 && t >= 0.0
    ensures a > t <==> Square(a) > Square(t)
  {
    DifferenceOfSquares(a, t);
    hide Square;
    if a > t {
      ProductPositive(a - t, a + t);
    } else {
      ProductNotNegative(t - a, a + t);
      assert (t - a) * (a + t) == -((a - t) * (a + t));
    }
  }

  lemma SquareOfProduct(a: real, b: real)
    ensures Square(a * b) == Square(a) * Square(b)
  {
    assert a * b * (a * b) == (a * a) * (b * b);
  }

  function Sum(values: seq<real>): real {
    if values == [] then 0.0 else Sum(values[..|values| - 1]) + values[|values| - 1]
  }
}
