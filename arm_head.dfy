/** robot_control/arm.py: the two error functions that drive the arm's
    joints, and the checks on the positions an Arm is built with. */
module ArmControl {
  import opened Wrappers
  import opened SquareError
  import opened PositionChecks

  /** `_alpha_error((target, current))`: positive when the target angle is
      above the current one, with the squared difference as magnitude. */
  function AlphaError(x: seq<real>): (r: real)
    requires |x| == 2
    ensures r == SignedSquare(x[0] - x[1])
    ensures r == 0.0 <==> x[0] == x[1]
    ensures r > 0.0 <==> x[0] > x[1]
  {
    var target, current := x[0], x[1];
    Sign(target - current) * Square(target - current)
  }

  /** `_beta_error((target, current))`: the same square, with the sign of
      current − target, so it always points the other way. */
  function BetaError(x: seq<real>): (r: real)
    requires |x| == 2
    ensures r == -AlphaError(x)
    ensures r == 0.0 <==> x[0] == x[1]
    ensures r > 0.0 <==> x[1] > x[0]
  {
    var target, current := x[0], x[1];
    SquareOfNegation(target - current);
    SignedSquareOdd(target - current);
    Sign(current - target) * Square(target - current)
  }

  /** Swapping target and current negates both error functions. */
  lemma ErrorsSwap(target: real, current: real)
    ensures AlphaError([current, target]) == -AlphaError([target, current])
    ensures BetaError([current, target]) == -BetaError([target, current])
  {
    assert current - target == -(target - current);
    SignedSquareOdd(target - current);
  }

  /** The joint whose position vector triggered a warning. */
  datatype Joint = Shoulder | Elbow | Hand

  function JointIndex(j: Joint): nat
  {
    match j
    case Shoulder => 0
    case Elbow => 1
    case Hand => 2
  }

  /** The warnings issued, in order, and the AssertionError that stopped
      the constructor, if any. */
  datatype Validation = Validation(warnings: seq<Joint>, error: Option<Error>)

  /** The checks in `Arm.__init__`: shoulder, elbow and hand in turn, each
      asserted to have three components and then compared with
      `length_radius`.  A failed assertion stops the constructor, after the
      warnings of the positions checked before it. */
  function ValidatePositions(shoulder: seq<real>, elbow: seq<real>, hand: seq<real>,
                             lengthRadius: real := DefaultLengthRadius): (v: Validation)
    ensures v.error.Some? <==> |shoulder| != 3 || |elbow| != 3 || |hand| != 3
    ensures v.error.Some? ==> v.error.value == AssertionError
    ensures Shoulder in v.warnings <==> |shoulder| == 3 && !InRadius(shoulder, lengthRadius)
    ensures Elbow in v.warnings <==> |shoulder| == 3 && |elbow| == 3 && !InRadius(elbow, lengthRadius)
    ensures Hand in v.warnings <==>
      |shoulder| == 3 && |elbow| == 3 && |hand| == 3 && !InRadius(hand, lengthRadius)
    ensures forall i, j | 0 <= i < j < |v.warnings| :: JointIndex(v.warnings[i]) < JointIndex(v.warnings[j])
  {
    match CheckVector(shoulder, lengthRadius)
    case Rejected => Validation([], Some(AssertionError))
    case Accepted(ws) =>
      var w1 := if ws then [Shoulder] else [];
      match CheckVector(elbow, lengthRadius)
      case Rejected => Validation(w1, Some(AssertionError))
      case Accepted(we) =>
        var w2 := w1 + if we then [Elbow] else [];
        match CheckVector(hand, lengthRadius)
        case Rejected => Validation(w2, Some(AssertionError))
        case Accepted(wh) => Validation(w2 + if wh then [Hand] else [], None)
  }

  /** Three-component positions inside the radius pass silently. */
  lemma InRangeArmIsQuiet(shoulder: seq<real>, elbow: seq<real>, hand: seq<real>, lengthRadius: real)
    requires |shoulder| == 3 && |elbow| == 3 && |hand| == 3
    requires InRadius(shoulder, lengthRadius) && InRadius(elbow, lengthRadius) && InRadius(hand, lengthRadius)
    ensures ValidatePositions(shoulder, elbow, hand, lengthRadius) == Validation([], None)
  {
  }
}

/** robot_control/head.py: the error functions of the head and the eyes,
    and the check on the lip offset a Head is built with. */
module HeadControl {
  import opened Wrappers
  import opened SquareError
  import opened PositionChecks

  /** `h_error(x)` with x[0] the current orientation and x[1] the target:
      the signed square of target − current. */
  function HError(x: seq<real>): (r: real)
    requires |x| >= 2
    ensures r == SignedSquare(x[1] - x[0])
    ensures r == 0.0 <==> x[0] == x[1]
    ensures r > 0.0 <==> x[1] > x[0]
  {
    SquareOfNegation(x[1] - x[0]);
    Sign(x[1] - x[0]) * Square(x[0] - x[1])
  }

  /** `e_error(x)` with target (x[0], x[1]), current eye position (x[2],
      x[3]) and head position x[4]: the horizontal target is taken
      relative to the head, the vertical one is not. */
  function EError(x: seq<real>): (r: (real, real))
    requires |x| >= 5
    ensures r.0 == 0.0 <==> x[0] - x[4] == x[2]
    ensures r.1 == 0.0 <==> x[1] == x[3]
    ensures r.0 > 0.0 <==> x[0] - x[4] > x[2]
    ensures r.1 > 0.0 <==> x[1] > x[3]
  {
    var adjustedTarget := x[0] - x[4];
    (SignedSquare(adjustedTarget - x[2]), SignedSquare(x[1] - x[3]))
  }

  /** The vertical component ignores the head position and the horizontal
      entries; the horizontal one ignores the vertical entries. */
  lemma EErrorAxesIndependent(x: seq<real>, y: seq<real>)
    requires |x| >= 5 && |y| >= 5
    ensures x[1] == y[1] && x[3] == y[3] ==> EError(x).1 == EError(y).1
    ensures x[0] == y[0] && x[2] == y[2] && x[4] == y[4] ==> EError(x).0 == EError(y).0
  {
  }

  /** Moving the head and the horizontal target together leaves the
      horizontal error unchanged. */
  lemma EErrorFollowsHead(x: seq<real>, shift: real)
    requires |x| >= 5
    ensures EError(x[0 := x[0] + shift][4 := x[4] + shift]) == EError(x)
  {
    var y := x[0 := x[0] + shift][4 := x[4] + shift];
    assert y[0] - y[4] - y[2] == x[0] - x[4] - x[2];
  }

  /** The lip-offset check in `Head.__init__`: AssertionError unless it
      has three components, then a warning when a component lies outside
      `length_radius`. */
  function ValidateLipOffset(offset: seq<real>, lengthRadius: real := DefaultLengthRadius): (r: Result<bool>)
    ensures r.Err? <==> |offset| != 3
    ensures r.Err? ==> r.error == AssertionError
    ensures r.Ok? ==> (r.value <==> exists i | 0 <= i < 3 :: offset[i] < -lengthRadius || offset[i] > lengthRadius)
  {
    match CheckVector(offset, lengthRadius)
    case Rejected => Err(AssertionError)
    case Accepted(warned) => Ok(warned)
  }
}
