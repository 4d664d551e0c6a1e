/** The bounds check that the arm and the head apply to each position they
    are built with: the vector must have three components (an `assert`),
    and a warning is issued when a component lies outside the radius the
    length ensembles can represent. */
module PositionChecks {

  /** The default `length_radius` of Arm and Head. */
  const DefaultLengthRadius: real := 1.2

  /** `all(-radius <= x <= radius for x in p)`. */
  predicate InRadius(p: seq<real>, radius: real)
  {
    forall i | 0 <= i < |p| :: -radius <= p[i] <= radius
  }

  /** The outcome of checking one vector: the size assertion failed, or it
      held and a warning was or was not issued. */
  datatype Checked = Rejected | Accepted(warned: bool)

  function CheckVector(p: seq<real>, radius: real): (c: Checked)
    ensures c.Rejected? <==> |p| != 3
    ensures c.Accepted? ==>
      (c.warned <==> exists i | 0 <= i < |p| :: p[i] < -radius || p[i] > radius)
  {
    if |p| != 3 then Rejected else Accepted(!InRadius(p, radius))
  }

  /** A vector that passes with some radius passes with any larger one. */
  lemma LargerRadiusIsQuiet(p: seq<real>, radius: real, larger: real)
    requires radius <= larger
    requires CheckVector(p, radius) == Accepted(false)
    ensures CheckVector(p, larger) == Accepted(false)
  {
    assert InRadius(p, radius);
  }
}
