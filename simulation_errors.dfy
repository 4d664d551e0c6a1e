/** simulations/2dof_with_finger.py: the two-axis reaching error, the
    finger error and the inhibition of the finger controller. */
module TwoDofWithFinger {
  import opened SquareError

  /** `error(x, x_sensitivity, y_sensitivity)` with target (x[0], x[1]) and
      current position (x[2], x[3]): one scaled signed square per axis. */
  function Error(x: seq<real>, xSensitivity: real := 1.0, ySensitivity: real := 1.0): (r: (real, real))
    requires |x| >= 4
    ensures r.0 == xSensitivity * SignedSquare(x[0] - x[2])
    ensures r.1 == ySensitivity * SignedSquare(x[1] - x[3])
    ensures xSensitivity != 0.0 ==> (r.0 == 0.0 <==> x[0] == x[2])
    ensures ySensitivity != 0.0 ==> (r.1 == 0.0 <==> x[1] == x[3])
    ensures xSensitivity > 0.0 ==> (r.0 > 0.0 <==> x[0] > x[2]) && (r.0 < 0.0 <==> x[0] < x[2])
    ensures ySensitivity > 0.0 ==> (r.1 > 0.0 <==> x[1] > x[3]) && (r.1 < 0.0 <==> x[1] < x[3])
  {
    (ScaledError(xSensitivity, x[0] - x[2]), ScaledError(ySensitivity, x[1] - x[3]))
  }

  /** The default sensitivities leave the signed squares unscaled. */
  lemma DefaultSensitivities(x: seq<real>)
    requires |x| >= 4
    ensures Error(x) == (SignedSquare(x[0] - x[2]), SignedSquare(x[1] - x[3]))
  {
  }

  /** Each component depends on its own axis only. */
  lemma AxesIndependent(x: seq<real>, y: seq<real>, xSensitivity: real, ySensitivity: real)
    requires |x| >= 4 && |y| >= 4
    ensures x[0] == y[0] && x[2] == y[2] ==> Error(x, xSensitivity, ySensitivity).0 == Error(y, xSensitivity, ySensitivity).0
    ensures x[1] == y[1] && x[3] == y[3] ==> Error(x, xSensitivity, ySensitivity).1 == Error(y, xSensitivity, ySensitivity).1
  {
  }

  /** `f_error(x)` with x[0] current and x[1] target. */
  function FError(x: seq<real>): (r: real)
    requires |x| >= 2
    ensures r == SignedSquare(x[1] - x[0])
    ensures r == 0.0 <==> x[0] == x[1]
  {
    SquareOfNegation(x[1] - x[0]);
    Sign(x[1] - x[0]) * Square(x[0] - x[1])
  }

  /** `inhibit(x)`: |2·x[0]|, whatever the other entries. */
  function Inhibit(x: seq<real>): (r: real)
    requires |x| >= 1
    ensures r >= 0.0
    ensures r == 0.0 <==> x[0] == 0.0
    ensures r == 2.0 * Abs(x[0])
  {
    Abs(x[0] * 2.0)
  }
}

/** simulations/2dof.py: the two-axis reaching error alone. */
module TwoDof {
  import opened SquareError

  /** `error(x, x_sensitivity, y_sensitivity)`, as in the finger variant. */
  function Error(x: seq<real>, xSensitivity: real := 1.0, ySensitivity: real := 1.0): (r: (real, real))
    requires |x| >= 4
    ensures r.0 == xSensitivity * SignedSquare(x[0] - x[2])
    ensures r.1 == ySensitivity * SignedSquare(x[1] - x[3])
    ensures xSensitivity != 0.0 ==> (r.0 == 0.0 <==> x[0] == x[2])
    ensures ySensitivity != 0.0 ==> (r.1 == 0.0 <==> x[1] == x[3])
  {
    (ScaledError(xSensitivity, x[0] - x[2]), ScaledError(ySensitivity, x[1] - x[3]))
  }

  /** Each component depends on its own axis only, and the defaults leave
      the signed squares unscaled. */
  lemma AxesIndependent(x: seq<real>, y: seq<real>, xSensitivity: real, ySensitivity: real)
    requires |x| >= 4 && |y| >= 4
    ensures x[0] == y[0] && x[2] == y[2] ==> Error(x, xSensitivity, ySensitivity).0 == Error(y, xSensitivity, ySensitivity).0
    ensures x[1] == y[1] && x[3] == y[3] ==> Error(x, xSensitivity, ySensitivity).1 == Error(y, xSensitivity, ySensitivity).1
    ensures Error(x) == (SignedSquare(x[0] - x[2]), SignedSquare(x[1] - x[3]))
  {
  }
}

/** simulations/1dof_with_finger.py: the one-joint error and the
    inhibition of the finger controller. */
module OneDofWithFinger {
  import opened SquareError

  /** `error(x)` with x[0] the current angle and x[1] the target. */
  function Error(x: seq<real>): (r: real)
    requires |x| >= 2
    ensures r == SignedSquare(x[1] - x[0])
    ensures r == 0.0 <==> x[0] == x[1]
    ensures r > 0.0 <==> x[1] > x[0]
    ensures Abs(r) == Square(x[1] - x[0])
  {
    SquareOfNegation(x[1] - x[0]);
    Sign(x[1] - x[0]) * Square(x[0] - x[1])
  }

  /** Swapping current and target negates the error. */
  lemma ErrorSwap(a: real, b: real)
    ensures Error([b, a]) == -Error([a, b])
  {
    SquareOfNegation(a - b);
  }

  /** `inhibit(x)`: |2·x[0]|. */
  function Inhibit(x: seq<real>): (r: real)
    requires |x| >= 1
    ensures r >= 0.0
    ensures r == 0.0 <==> x[0] == 0.0
  {
    Abs(x[0] * 2.0)
  }
}

/** simulations/1dof.py: the one-joint error. */
module OneDof {
  import opened SquareError

  /** `error(x)` with x[0] the current angle and x[1] the target. */
  function Error(x: seq<real>): (r: real)
    requires |x| >= 2
    ensures r == SignedSquare(x[1] - x[0])
    ensures r > 0.0 <==> x[1] > x[0]
    ensures r < 0.0 <==> x[1] < x[0]
  {
    SquareOfNegation(x[1] - x[0]);
    Sign(x[1] - x[0]) * Square(x[0] - x[1])
  }

  /** A target further above the current angle gives a larger error. */
  lemma ErrorIncreasesWithTarget(current: real, t1: real, t2: real)
    requires t1 < t2
    ensures Error([current, t1]) < Error([current, t2])
  {
    SignedSquareIncreasing(t1 - current, t2 - current);
  }
}

/** Simulations/1dof.py ("1dof -- square error(v4)"): the one-joint error
    written without parentheses around the square, which `**` binds
    before `*`. */
module OneDofSquareError {
  import opened SquareError

  function Error(x: seq<real>): (r: real)
    requires |x| >= 2
    ensures r == SignedSquare(x[1] - x[0])
    ensures r == 0.0 <==> x[0] == x[1]
    ensures Abs(r) == Square(x[0] - x[1])
  {
    SquareOfNegation(x[1] - x[0]);
    Sign(x[1] - x[0]) * Square(x[0] - x[1])
  }

  /** Swapping current and target negates the error. */
  lemma ErrorSwap(a: real, b: real)
    ensures Error([b, a]) == -Error([a, b])
  {
    assert a - b == -(b - a);
    SignedSquareOdd(b - a);
  }
}
