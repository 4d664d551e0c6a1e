/** The signed square sign(d)·d² that every error function of the arm, the
    head and the simulations is built from: it keeps the direction of the
    difference d and grows with its square. */
module SquareError {

  /** `np.sign` on a float that is not NaN. */
  function Sign(x: real): real
  {
    if x > 0.0 then 1.0 else if x < 0.0 then -1.0 else 0.0
  }

  /** `np.abs`. */
  function Abs(x: real): (a: real)
    ensures a >= 0.0 && (a == x || a == -x)
  {
    if x < 0.0 then -x else x
  }

  /** `d ** 2`. */
  function Square(d: real): real
  {
    d * d
  }

  /** `np.sign(d) * d ** 2`: zero only at zero, with the sign of d and the
      magnitude d². */
  function SignedSquare(d: real): (r: real)
    ensures r == 0.0 <==> d == 0.0
    ensures r > 0.0 <==> d > 0.0
    ensures r < 0.0 <==> d < 0.0
    ensures Abs(r) == Square(d)
  {
    SquarePositive(d);
    Sign(d) * Square(d)
  }

  /** Only zero squares to zero. */
  lemma SquarePositive(d: real)
    ensures d != 0.0 ==> Square(d) > 0.0
  {
    if d > 0.0 {
      calc {
        Square(d);
      ==
        d * d;
      >
        0.0 * d;
      ==
        0.0;
      }
    } else if d < 0.0 {
      calc {
        Square(d);
      ==
        (-d) * (-d);
      >
        0.0 * (-d);
      ==
        0.0;
      }
    }
  }

  /** Scaling `np.sign(d) * d ** 2` by a sensitivity k scales the signed
      square: a non-zero k keeps it zero exactly at zero, a positive k
      keeps its sign. */
  lemma ScaledSignedSquare(k: real, d: real)
    ensures k * Sign(d) * Square(d) == k * SignedSquare(d)
    ensures k != 0.0 ==> (k * SignedSquare(d) == 0.0 <==> d == 0.0)
    ensures k > 0.0 ==> (k * SignedSquare(d) > 0.0 <==> d > 0.0) && (k * SignedSquare(d) < 0.0 <==> d < 0.0)
  {
    var s := SignedSquare(d);
    ProductZero(k, s);
    if d > 0.0 {
      assert k * Sign(d) == k;
    } else if d < 0.0 {
      assert k * Sign(d) == -k;
      assert -k * Square(d) == k * -Square(d);
    }
    if k > 0.0 && s > 0.0 {
      assert k * s > 0.0 * s;
    } else if k > 0.0 && s < 0.0 {
      assert k * (-s) > 0.0 * (-s);
    }
  }

  /** `k * np.sign(d) * d ** 2`: the error along one axis with sensitivity k. */
  function ScaledError(k: real, d: real): (r: real)
    ensures r == k * SignedSquare(d)
    ensures k != 0.0 ==> (r == 0.0 <==> d == 0.0)
    ensures k > 0.0 ==> (r > 0.0 <==> d > 0.0) && (r < 0.0 <==> d < 0.0)
  {
    ScaledSignedSquare(k, d);
    k * Sign(d) * Square(d)
  }

  /** A product vanishes exactly when a factor does. */
  lemma ProductZero(a: real, b: real)
    ensures a * b == 0.0 <==> a == 0.0 || b == 0.0
  {
    if a != 0.0 && b != 0.0 {
      assert (a * b) / a == b;
    }
  }

  /** Squaring forgets the direction of a difference. */
  lemma SquareOfNegation(d: real)
    ensures Square(-d) == Square(d)
  {
  }

  /** Reversing the difference negates the signed square. */
  lemma SignedSquareOdd(d: real)
    ensures SignedSquare(-d) == -SignedSquare(d)
  {
  }

  /** A larger difference gives a larger correction: the signed square is
      strictly increasing, hence one-to-one. */
  lemma SignedSquareIncreasing(a: real, b: real)
    requires a < b
    ensures SignedSquare(a) < SignedSquare(b)
  {
    if 0.0 < a {
      SquareLess(a, b);
      assert SignedSquare(a) == Square(a) && SignedSquare(b) == Square(b);
    } else if b < 0.0 {
      SquareLess(-b, -a);
      SquareOfNegation(a);
      SquareOfNegation(b);
      assert SignedSquare(a) == -Square(a) && SignedSquare(b) == -Square(b);
    }
  }

  /** Squaring is strictly increasing on positive numbers. */
  lemma SquareLess(a: real, b: real)
    requires 0.0 < a < b
    ensures Square(a) < Square(b)
  {
    PositiveProduct(a, b - a);
    PositiveProduct(b, b - a);
    assert a * b - a * a == a * (b - a);
    assert b * b - a * b == b * (b - a);
  }

  lemma PositiveProduct(x: real, y: real)
    requires x > 0.0 && y > 0.0
    ensures x * y > 0.0
  {
    assert x * y > 0.0 * y;
  }

  lemma SignedSquareInjective(a: real, b: real)
    requires SignedSquare(a) == SignedSquare(b)
    ensures a == b
  {
    if a < b {
      SignedSquareIncreasing(a, b);
    } else if b < a {
      SignedSquareIncreasing(b, a);
    }
  }
}
