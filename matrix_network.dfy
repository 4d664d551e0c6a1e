/** The matrix-product network as a value: the sizes of its nodes and
    ensemble arrays and its three transforms, together with the function
    the wired network computes on the flattened inputs of A and B.  Both
    copies of the MatrixMultiplication network and the two scripts that
    inline it build one of these. */
module MatrixNetwork {
  import opened Wrappers
  import opened MatrixRouting

  /** A two-dimensional numpy array: its shape and its rows. */
  datatype Matrix = Matrix(rows: nat, cols: nat, elems: seq<seq<real>>)

  ghost predicate WellFormed(m: Matrix)
  {
    IsMatrix(m.elems, m.rows, m.cols)
  }

  /** numpy's `size`. */
  function Size(m: Matrix): nat { m.rows * m.cols }

  /** `np.eye(n)`. */
  function Eye(n: nat): (m: Matrix)
    ensures WellFormed(m) && m.rows == n && m.cols == n
  {
    Matrix(n, n, seq(n, i requires 0 <= i => seq(n, j requires 0 <= j => if i == j then 1.0 else 0.0)))
  }

  /** `np.zeros((rows, cols))`. */
  function ZeroMatrix(rows: nat, cols: nat): (m: Matrix)
    ensures WellFormed(m) && m.rows == rows && m.cols == cols
  {
    Matrix(rows, cols, seq(rows, i requires 0 <= i => seq(cols, j requires 0 <= j => 0.0)))
  }

  /** What a constructed network consists of. */
  datatype Wiring = Wiring(
    inA: nat,                 // size_in of the node that receives A
    inB: nat,                 // size_in of the node that receives B
    pairs: nat,               // number of two-dimensional ensembles in C
    outEnsembles: nat,        // number of ensembles in D
    output: Option<nat>,      // size_in of the output node, if there is one
    transformA: seq<seq<real>>,
    transformB: seq<seq<real>>,
    transformC: seq<seq<real>>)

  /** w is the network for a D1×D2 times D2×D3 product. */
  ghost predicate Wires(w: Wiring, d1: nat, d2: nat, d3: nat)
  {
    && w.inA == d1 * d2 && w.inB == d2 * d3
    && w.pairs == Pairs(d1, d2, d3) && w.outEnsembles == d1 * d3
    && w.transformA == TransformA(d1, d2, d3)
    && w.transformB == TransformB(d1, d2, d3)
    && w.transformC == TransformC(d1 * d3, Pairs(d1, d2, d3), d2)
  }

  /** The transforms fit inputs x and y and each other. */
  ghost predicate Fits(w: Wiring, x: seq<real>, y: seq<real>)
  {
    && |w.transformA| == |w.transformB| == 2 * w.pairs
    && (forall r | 0 <= r < |w.transformA| :: |w.transformA[r]| == |x|)
    && (forall r | 0 <= r < |w.transformB| :: |w.transformB[r]| == |y|)
    && (forall r | 0 <= r < |w.transformC| :: |w.transformC[r]| == w.pairs)
  }

  /** The value D settles on when x drives A and y drives B: both routed
      connections summed into C, `product` decoded from every cell, and
      the products summed into D by transform_c. */
  function Output(w: Wiring, x: seq<real>, y: seq<real>): (out: seq<real>)
    requires Fits(w, x, y)
    ensures |out| == |w.transformC|
  {
    Apply(w.transformC, CellProducts(Add(Apply(w.transformA, x), Apply(w.transformB, y)), w.pairs))
  }

  /** A network wired for D1×D2 times D2×D3 computes the row-major
      product of the matrices that drive it. */
  lemma WiredProduct(w: Wiring, am: seq<seq<real>>, bm: seq<seq<real>>, d1: nat, d2: nat, d3: nat)
    requires Wires(w, d1, d2, d3) && IsMatrix(am, d1, d2) && IsMatrix(bm, d2, d3)
    ensures Fits(w, Flatten(am), Flatten(bm))
    ensures Output(w, Flatten(am), Flatten(bm)) == Flatten(Times(am, bm, d1, d2, d3))
  {
    NetworkComputesProduct(d1, d2, d3, am, bm);
    assert Output(w, Flatten(am), Flatten(bm)) == Network(d1, d2, d3, Flatten(am), Flatten(bm));
  }

  /** Flattening a three-row matrix concatenates its rows. */
  lemma FlattenThreeRows(x: seq<real>, y: seq<real>, z: seq<real>)
    ensures Flatten([x, y, z]) == x + y + z
  {
    assert [z][1..] == [];
    assert Flatten([z]) == z + [] == z;
    assert [y, z][1..] == [z];
    assert Flatten([y, z]) == y + z;
    assert [x, y, z][1..] == [y, z];
  }

  /** A three-term row-by-column sum written out. */
  lemma RowTimesColumnThree(am: seq<seq<real>>, bm: seq<seq<real>>, i: nat, k: nat)
    requires i < |am| && 3 <= |am[i]| && 3 <= |bm|
    requires forall j | 0 <= j < 3 :: k < |bm[j]|
    ensures RowTimesColumn(am, bm, i, k, 3) == am[i][0] * bm[0][k] + am[i][1] * bm[1][k] + am[i][2] * bm[2][k]
  {
    assert RowTimesColumn(am, bm, i, k, 1) == am[i][0] * bm[0][k];
  }

  /** The rows of a two-dimensional array. */
  function Rows(m: array2<real>): (s: seq<seq<real>>)
    reads m
    ensures |s| == m.Length0
    ensures forall r | 0 <= r < |s| :: |s[r]| == m.Length1 && forall c | 0 <= c < |s[r]| :: s[r][c] == m[r, c]
  {
    seq(m.Length0, r requires 0 <= r < m.Length0 reads m =>
      seq(m.Length1, c requires 0 <= c < m.Length1 reads m => m[r, c]))
  }

  /** An array that agrees with t entry by entry has t as its rows. */
  lemma RowsMatch(m: array2<real>, t: seq<seq<real>>)
    requires m.Length0 == |t|
    requires forall r | 0 <= r < |t| :: |t[r]| == m.Length1
    requires forall r, c | 0 <= r < m.Length0 && 0 <= c < m.Length1 :: m[r, c] == t[r][c]
    ensures Rows(m) == t
  {
    var s := Rows(m);
    forall r | 0 <= r < |t|
      ensures s[r] == t[r]
    {
    }
  }

  /** The three construction loops, for a D1×D2 times D2×D3 product. */
  method BuildTransforms(d1: nat, d2: nat, d3: nat) returns (ta: seq<seq<real>>, tb: seq<seq<real>>, tc: seq<seq<real>>)
    ensures ta == TransformA(d1, d2, d3) && tb == TransformB(d1, d2, d3)
    ensures tc == TransformC(d1 * d3, Pairs(d1, d2, d3), d2)
  {
    var a, b := BuildTransformsAB(d1, d2, d3);
    Regroup(d1, d2, d3);
    Regroup(d1, d3, d2);
    var c := BuildTransformC(d1 * d3, Pairs(d1, d2, d3), d2);
    RowsMatch(a, TransformA(d1, d2, d3));
    RowsMatch(b, TransformB(d1, d2, d3));
    RowsMatch(c, TransformC(d1 * d3, Pairs(d1, d2, d3), d2));
    ta, tb, tc := Rows(a), Rows(b), Rows(c);
  }
}
