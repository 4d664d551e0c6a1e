/** robot_utils/cross_product.py: a × b as the 3×3 skew matrix of a,
    wired from the components of a, times b as a 3×1 column, on the
    MatrixMultiplication network. */
module CrossProduct {
  import opened Wrappers
  import opened MatrixRouting
  import opened MatrixNetwork
  import UtilsMatrixMultiplication

  /** One connection from a component of in_A to one slot of the
      multiplier's in_A, with its weight. */
  datatype Tap = Tap(src: nat, dst: nat, weight: real)

  /** The connection table of the constructor, in its order. */
  const Taps: seq<Tap> := [
    Tap(0, 0, 0.0), Tap(0, 4, 0.0), Tap(0, 8, 0.0),
    Tap(0, 7, 1.0), Tap(0, 5, -1.0),
    Tap(1, 2, 1.0), Tap(1, 6, -1.0),
    Tap(2, 3, 1.0), Tap(2, 1, -1.0)]

  /** Sum of the contributions of the first n taps into slot s, since
      connections into the same input are added. */
  function Drive(taps: seq<Tap>, a: seq<real>, s: nat, n: nat): real
    requires n <= |taps|
    requires forall t | 0 <= t < |taps| :: taps[t].src < |a|
  {
    if n == 0 then 0.0
    else Drive(taps, a, s, n - 1) + (if taps[n - 1].dst == s then taps[n - 1].weight * a[taps[n - 1].src] else 0.0)
  }

  /** A slot fed by a single tap t0 receives that tap's weighted component. */
  lemma {:induction false} DriveSingle(taps: seq<Tap>, a: seq<real>, s: nat, n: nat, t0: nat)
    requires n <= |taps| && t0 < |taps|
    requires forall t | 0 <= t < |taps| :: taps[t].src < |a|
    requires forall t | 0 <= t < |taps| :: taps[t].dst == s ==> t == t0
    requires taps[t0].dst == s
    ensures Drive(taps, a, s, n) == if t0 < n then taps[t0].weight * a[taps[t0].src] else 0.0
  {
    if n > 0 {
      DriveSingle(taps, a, s, n - 1, t0);
    }
  }

  /** What the multiplier's in_A receives: the flattened 3×3 operand. */
  function Skew(a: seq<real>): (m: seq<real>)
    requires |a| == 3
    ensures |m| == 9
  {
    seq(9, s requires 0 <= s => Drive(Taps, a, s, |Taps|))
  }

  /** For each slot, the one tap that feeds it. */
  const Feeder: seq<nat> := [0, 8, 5, 7, 1, 4, 6, 3, 2]

  /** The operand is [[0, -a2, a1], [a2, 0, -a0], [-a1, a0, 0]]:
      zero on slots 0, 4 and 8 and the signed components elsewhere. */
  lemma SkewEntries(a: seq<real>)
    requires |a| == 3
    ensures Skew(a) == [0.0, -a[2], a[1], a[2], 0.0, -a[0], -a[1], a[0], 0.0]
  {
    var m := Skew(a);
    var expected := [0.0, -a[2], a[1], a[2], 0.0, -a[0], -a[1], a[0], 0.0];
    forall s | 0 <= s < 9
      ensures m[s] == expected[s]
    {
      DriveSingle(Taps, a, s, |Taps|, Feeder[s]);
    }
  }

  /** The operand matrix M satisfies Mᵀ = −M. */
  lemma SkewSymmetric(a: seq<real>, r: nat, c: nat)
    requires |a| == 3 && r < 3 && c < 3
    ensures Skew(a)[c + 3 * r] == -Skew(a)[r + 3 * c]
  {
    SkewEntries(a);
  }

  /** The standard three-dimensional cross product. */
  function Cross(a: seq<real>, b: seq<real>): (c: seq<real>)
    requires |a| == 3 && |b| == 3
    ensures |c| == 3
  {
    [a[1] * b[2] - a[2] * b[1], a[2] * b[0] - a[0] * b[2], a[0] * b[1] - a[1] * b[0]]
  }

  /** The network: 3-wide input and output nodes around a 3×3 times 3×1
      multiplier. */
  datatype CrossNet = CrossNet(inA: nat, inB: nat, multiplier: Wiring, output: nat)

  method Build() returns (net: CrossNet)
    ensures net.inA == 3 && net.inB == 3 && net.output == 3
    ensures Wires(net.multiplier, 3, 3, 1)
  {
    var vector := ZeroMatrix(3, 1);
    var r := UtilsMatrixMultiplication.Build(Eye(3), vector);
    net := CrossNet(Size(vector), Size(vector), r.value, Size(vector));
  }

  /** The value of the output node when a drives in_A and b drives in_B. */
  function Value(net: CrossNet, a: seq<real>, b: seq<real>): seq<real>
    requires |a| == 3 && Fits(net.multiplier, Skew(a), b)
  {
    Output(net.multiplier, Skew(a), b)
  }

  /** The network computes a × b. */
  lemma ComputesCross(net: CrossNet, a: seq<real>, b: seq<real>)
    requires Wires(net.multiplier, 3, 3, 1) && |a| == 3 && |b| == 3
    ensures Fits(net.multiplier, Skew(a), b)
    ensures Value(net, a, b) == Cross(a, b)
  {
    SkewEntries(a);
    var am := [[0.0, -a[2], a[1]], [a[2], 0.0, -a[0]], [-a[1], a[0], 0.0]];
    var bm := [[b[0]], [b[1]], [b[2]]];
    FlattenThreeRows(am[0], am[1], am[2]);
    FlattenThreeRows(bm[0], bm[1], bm[2]);
    assert Flatten(am) == Skew(a);
    assert Flatten(bm) == b;
    WiredProduct(net.multiplier, am, bm, 3, 3, 1);
    SkewTimesColumn(a, b, am, bm);
  }

  /** The skew matrix of a times b as a column is a × b. */
  lemma SkewTimesColumn(a: seq<real>, b: seq<real>, am: seq<seq<real>>, bm: seq<seq<real>>)
    requires |a| == 3 && |b| == 3
    requires am == [[0.0, -a[2], a[1]], [a[2], 0.0, -a[0]], [-a[1], a[0], 0.0]]
    requires bm == [[b[0]], [b[1]], [b[2]]]
    ensures IsMatrix(am, 3, 3) && IsMatrix(bm, 3, 1)
    ensures Flatten(Times(am, bm, 3, 3, 1)) == Cross(a, b)
  {
    var out := Flatten(Times(am, bm, 3, 3, 1));
    TimesAt(am, bm, 3, 3, 1, 0, 0);
    TimesAt(am, bm, 3, 3, 1, 1, 0);
    TimesAt(am, bm, 3, 3, 1, 2, 0);
    RowTimesColumnThree(am, bm, 0, 0);
    RowTimesColumnThree(am, bm, 1, 0);
    RowTimesColumnThree(am, bm, 2, 0);
    assert out[0] == a[1] * b[2] - a[2] * b[1] by {
      assert out[0] == 0.0 * b[0] + -a[2] * b[1] + a[1] * b[2];
    }
    assert out[1] == a[2] * b[0] - a[0] * b[2] by {
      assert out[1] == a[2] * b[0] + 0.0 * b[1] + -a[0] * b[2];
    }
    assert out[2] == a[0] * b[1] - a[1] * b[0] by {
      assert out[2] == -a[1] * b[0] + a[0] * b[1] + 0.0 * b[2];
    }
    assert out == [out[0], out[1], out[2]];
  }

  /** Swapping the inputs negates the output. */
  lemma AntiCommutes(net: CrossNet, a: seq<real>, b: seq<real>)
    requires Wires(net.multiplier, 3, 3, 1) && |a| == 3 && |b| == 3
    ensures Fits(net.multiplier, Skew(a), b) && Fits(net.multiplier, Skew(b), a)
    ensures forall i | 0 <= i < 3 :: Value(net, b, a)[i] == -Value(net, a, b)[i]
  {
    ComputesCross(net, a, b);
    ComputesCross(net, b, a);
  }

  /** A vector crossed with itself gives zero. */
  lemma SelfIsZero(net: CrossNet, a: seq<real>)
    requires Wires(net.multiplier, 3, 3, 1) && |a| == 3
    ensures Fits(net.multiplier, Skew(a), a)
    ensures Value(net, a, a) == [0.0, 0.0, 0.0]
  {
    ComputesCross(net, a, a);
  }
}

/** robot_utils/dot_product.py: the components of A and B interleaved into
    two-dimensional multiplier ensembles, the products summed into one
    ensemble. */
module DotProduct {
  import opened MatrixRouting

  /** The constructor's parameters and the sizes and transforms it wires. */
  datatype DotNet = DotNet(
    neurons: nat, radius: real, dimensions: nat,
    inA: nat, inB: nat,
    multiplierNeurons: nat, multiplierEnsembles: nat,
    adderNeurons: nat, output: nat,
    routeA: seq<seq<real>>,  // in_A into multiplier.input[arange(dimensions) * 2]
    routeB: seq<seq<real>>,  // in_B into multiplier.input[arange(dimensions) * 2 + 1]
    sum: seq<seq<real>>)     // [[1] * prod.size_out]

  /** Slot s of the multiplier takes component d of A when s = 2d. */
  function SlotRouteA(n: nat): (m: seq<seq<real>>)
    ensures |m| == 2 * n && forall s | 0 <= s < |m| :: |m[s]| == n
  {
    seq(2 * n, s requires 0 <= s => seq(n, d requires 0 <= d => if s == 2 * d then 1.0 else 0.0))
  }

  /** Slot s of the multiplier takes component d of B when s = 2d + 1. */
  function SlotRouteB(n: nat): (m: seq<seq<real>>)
    ensures |m| == 2 * n && forall s | 0 <= s < |m| :: |m[s]| == n
  {
    seq(2 * n, s requires 0 <= s => seq(n, d requires 0 <= d => if s == 2 * d + 1 then 1.0 else 0.0))
  }

  function Build(neurons: nat := 100, radius: real := 1.0, dimensions: nat := 2): (net: DotNet)
    ensures net.inA == dimensions && net.inB == dimensions && net.output == 1
    ensures net.multiplierEnsembles == dimensions && net.multiplierNeurons == 2 * neurons
    ensures |net.sum| == 1 && |net.sum[0]| == dimensions
  {
    DotNet(neurons, radius, dimensions, dimensions, dimensions, 2 * neurons, dimensions, neurons, 1,
           SlotRouteA(dimensions), SlotRouteB(dimensions), [seq(dimensions, _ => 1.0)])
  }

  /** The multiplier's input when a and b drive in_A and in_B. */
  function Interleaved(net: DotNet, a: seq<real>, b: seq<real>): (x: seq<real>)
    requires net == Build(net.neurons, net.radius, net.dimensions)
    requires |a| == net.dimensions && |b| == net.dimensions
    ensures |x| == 2 * net.dimensions
  {
    Add(Apply(net.routeA, a), Apply(net.routeB, b))
  }

  /** The value the adder settles on. */
  function Value(net: DotNet, a: seq<real>, b: seq<real>): (y: seq<real>)
    requires net == Build(net.neurons, net.radius, net.dimensions)
    requires |a| == net.dimensions && |b| == net.dimensions
    ensures |y| == 1
  {
    Apply(net.sum, CellProducts(Interleaved(net, a, b), net.dimensions))
  }

  /** Every multiplier slot receives exactly one input: slot 2d holds a[d]
      and slot 2d + 1 holds b[d]. */
  lemma InterleavedSlots(net: DotNet, a: seq<real>, b: seq<real>, d: nat)
    requires net == Build(net.neurons, net.radius, net.dimensions)
    requires |a| == net.dimensions && |b| == net.dimensions && d < net.dimensions
    ensures Interleaved(net, a, b)[2 * d] == a[d]
    ensures Interleaved(net, a, b)[2 * d + 1] == b[d]
  {
    var n := net.dimensions;
    ApplyAt(net.routeA, a, 2 * d);
    ApplyAt(net.routeB, b, 2 * d);
    ApplyAt(net.routeA, a, 2 * d + 1);
    ApplyAt(net.routeB, b, 2 * d + 1);
    AddAt(Apply(net.routeA, a), Apply(net.routeB, b), 2 * d);
    AddAt(Apply(net.routeA, a), Apply(net.routeB, b), 2 * d + 1);
    UnitRow(net.routeA[2 * d], a, n, d);
    UnitRow(net.routeB[2 * d], b, n, n);
    UnitRow(net.routeA[2 * d + 1], a, n, n);
    UnitRow(net.routeB[2 * d + 1], b, n, d);
  }

  /** Σ_{d < n} a[d]·b[d], the reference dot product. */
  function Dot(a: seq<real>, b: seq<real>, n: nat): real
    requires n <= |a| && n <= |b|
  {
    if n == 0 then 0.0 else Dot(a, b, n - 1) + a[n - 1] * b[n - 1]
  }

  /** Summing a stretch of ones over the products. */
  lemma {:induction false} SumOfProducts(ones: seq<real>, p: seq<real>, a: seq<real>, b: seq<real>, n: nat)
    requires n <= |ones| && n <= |p| && n <= |a| && n <= |b|
    requires forall d | 0 <= d < n :: ones[d] == 1.0 && p[d] == a[d] * b[d]
    ensures DotTo(ones, p, n) == Dot(a, b, n)
  {
    if n > 0 {
      SumOfProducts(ones, p, a, b, n - 1);
    }
  }

  /** Cells that hold (a[d], b[d]) decode a[d]·b[d]. */
  lemma PairedProducts(x: seq<real>, a: seq<real>, b: seq<real>, n: nat)
    requires |x| == 2 * n && n <= |a| && n <= |b|
    requires forall d | 0 <= d < n :: x[2 * d] == a[d] && x[2 * d + 1] == b[d]
    ensures forall d | 0 <= d < n :: CellProducts(x, n)[d] == a[d] * b[d]
  {
    forall d | 0 <= d < n
      ensures CellProducts(x, n)[d] == a[d] * b[d]
    {
      assert x[2 * d .. 2 * d + 2] == [x[2 * d], x[2 * d + 1]];
    }
  }

  /** The network computes Σ a[d]·b[d]. */
  lemma ComputesDot(net: DotNet, a: seq<real>, b: seq<real>)
    requires net == Build(net.neurons, net.radius, net.dimensions)
    requires |a| == net.dimensions && |b| == net.dimensions
    ensures Value(net, a, b) == [Dot(a, b, net.dimensions)]
  {
    var n := net.dimensions;
    var x := Interleaved(net, a, b);
    forall d | 0 <= d < n
      ensures x[2 * d] == a[d] && x[2 * d + 1] == b[d]
    {
      InterleavedSlots(net, a, b, d);
    }
    PairedProducts(x, a, b, n);
    SumOfProducts(net.sum[0], CellProducts(x, n), a, b, n);
    ApplyAt(net.sum, CellProducts(x, n), 0);
  }

  /** The reference dot product is symmetric. */
  lemma {:induction false} DotSymmetric(a: seq<real>, b: seq<real>, n: nat)
    requires n <= |a| && n <= |b|
    ensures Dot(a, b, n) == Dot(b, a, n)
  {
    if n > 0 {
      DotSymmetric(a, b, n - 1);
    }
  }

  /** Swapping the inputs leaves the output unchanged. */
  lemma Symmetric(net: DotNet, a: seq<real>, b: seq<real>)
    requires net == Build(net.neurons, net.radius, net.dimensions)
    requires |a| == net.dimensions && |b| == net.dimensions
    ensures Value(net, a, b) == Value(net, b, a)
  {
    ComputesDot(net, a, b);
    ComputesDot(net, b, a);
    DotSymmetric(a, b, net.dimensions);
  }
}

/** robot_utils/vector_difference.py: A weighted +1 and B weighted −1
    into an ensemble array S of doubled radius. */
module VectorDifference {

  datatype DiffNet = DiffNet(
    dimensions: nat, radius: real,
    inA: nat, inB: nat, sEnsembles: nat, sRadius: real, output: nat,
    weightA: seq<real>,   // [1.] * dimensions
    weightB: seq<real>)   // [-1.] * dimensions

  function Build(dimensions: nat, radius: real := 1.0): (net: DiffNet)
    ensures net.inA == dimensions && net.inB == dimensions && net.output == dimensions
    ensures net.sEnsembles == dimensions && net.sRadius == 2.0 * radius
    ensures |net.weightA| == dimensions && |net.weightB| == dimensions
  {
    DiffNet(dimensions, radius, dimensions, dimensions, dimensions, 2.0 * radius, dimensions,
            seq(dimensions, _ => 1.0), seq(dimensions, _ => -1.0))
  }

  /** The value of S (and of the output node): both element-wise weighted
      connections summed. */
  function Value(net: DiffNet, a: seq<real>, b: seq<real>): (s: seq<real>)
    requires |net.weightA| == |net.weightB| == |a| == |b|
    ensures |s| == |a|
  {
    seq(|a|, i requires 0 <= i < |a| => net.weightA[i] * a[i] + net.weightB[i] * b[i])
  }

  /** The output is A − B, the vector pointing from B to A: adding it to
      B gives back A. */
  lemma ComputesDifference(net: DiffNet, a: seq<real>, b: seq<real>)
    requires net == Build(net.dimensions, net.radius) && |a| == net.dimensions && |b| == net.dimensions
    ensures forall i | 0 <= i < |a| :: Value(net, a, b)[i] == a[i] - b[i]
    ensures forall i | 0 <= i < |a| :: b[i] + Value(net, a, b)[i] == a[i]
  {
  }

  /** Equal inputs give the zero vector. */
  lemma EqualInputs(net: DiffNet, a: seq<real>)
    requires net == Build(net.dimensions, net.radius) && |a| == net.dimensions
    ensures forall i | 0 <= i < |a| :: Value(net, a, a)[i] == 0.0
  {
    ComputesDifference(net, a, a);
  }

  /** Inputs within [−r, r] give a difference within [−2r, 2r], the
      radius of S. */
  lemma WithinDoubledRadius(net: DiffNet, a: seq<real>, b: seq<real>)
    requires net == Build(net.dimensions, net.radius) && |a| == net.dimensions && |b| == net.dimensions
    requires forall i | 0 <= i < |a| :: -net.radius <= a[i] <= net.radius && -net.radius <= b[i] <= net.radius
    ensures forall i | 0 <= i < |a| :: -net.sRadius <= Value(net, a, b)[i] <= net.sRadius
  {
    ComputesDifference(net, a, b);
  }
}
