/** The few facts of real arithmetic that the solver needs spelt out. */
module Reals {

  function Square(x: real): real { x * x }

  function Abs(x: real): real { if x < 0.0 then -x else x }

  function Min(x: real, y: real): real { if x < y then x else y }

  function Max(x: real, y: real): real { if x > y then x else y }

  lemma SquareOfNegated(x: real)
    ensures Square(-x) == Square(x)
  {}

  function Product(x: real, y: real): real { x * y }

  lemma ProductSign(x: real, y: real)
    requires x > 0.0 && y > 0.0
    ensures Product(x, y) > 0.0
  {}

  lemma SquareIsProduct(x: real)
    ensures Square(x) == Product(x, x)
  {}

  lemma SquarePositive(x: real)
    requires x > 0.0
    ensures Square(x) > 0.0
  {
    hide Square, Product;
    SquareIsProduct(x);
    ProductSign(x, x);
  }

  lemma SquareOfZero()
    ensures Square(0.0) == 0.0
  {}

  lemma SquareSign(x: real)
    ensures Square(x) >= 0.0
    ensures Square(x) == 0.0 <==> x == 0.0
  {
    hide Square;
    if x > 0.0 {
      SquarePositive(x);
    } else if x < 0.0 {
      SquarePositive(-x);
      SquareOfNegated(x);
    } else {
      SquareOfZero();
    }
  }

  lemma ProductPositive(x: real, y: real)
    requires x > 0.0 && y > 0.0
    ensures x * y > 0.0
  {}

  lemma ProductNonNegative(x: real, y: real)
    requires x >= 0.0 && y >= 0.0
    ensures x * y >= 0.0
  {}

  lemma ProductMonotone(x: real, y: real, z: real)
    requires x <= y && z >= 0.0
    ensures x * z <= y * z
    ensures z * x <= z * y
  {
    ProductNonNegative(y - x, z);
    assert (y - x) * z == y * z - x * z;
  }

  lemma SquareOrder(a: real, b: real)
    requires b >= 0.0 && Square(a) <= Square(b)
    ensures a <= b
  {
    if a > b { LargerSquare(b, a - b); }
  }

  lemma LargerSquare(b: real, t: real)
    requires b >= 0.0 && t > 0.0
    ensures Square(b + t) > Square(b)
  {
    hide Square;
    ProductNonNegative(b, t);
    SquareSign(t);
    SquareOfSum(b, t);
  }

  lemma SquareOfSum(b: real, t: real)
    ensures Square(b + t) == Square(b) + 2.0 * (b * t) + Square(t)
  {}
}
