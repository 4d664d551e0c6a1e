/** simulations/computing_elbow_position.py: the matrix-product wiring
    inlined at module level for Ry·Rx, both 3×3, with a hard-coded
    9×27 summing transform. */
module ComputingElbowPosition {
  import opened Wrappers
  import opened MatrixRouting
  import opened MatrixNetwork

  /** `rotation_mat`: the identity, used only for its shape. */
  const RotationMat: Matrix := Eye(3)

  /** The script's loops: transformA and transformB sized by rotation_mat,
      transformC a 9×27 zero array whose column i goes to row i // 3. */
  method Wire() returns (w: Wiring)
    ensures Wires(w, 3, 3, 3) && w.output == None
  {
    var n := RotationMat.rows;
    var a, b := BuildTransformsAB(RotationMat.rows, RotationMat.cols, RotationMat.cols);
    var c := BuildTransformC(9, 27, n);
    RowsMatch(a, TransformA(3, 3, 3));
    RowsMatch(b, TransformB(3, 3, 3));
    RowsMatch(c, TransformC(9, 27, 3));
    w := Wiring(Size(RotationMat), Size(RotationMat), Size(RotationMat) * RotationMat.cols,
                RotationMat.rows * RotationMat.cols, None, Rows(a), Rows(b), Rows(c));
  }

  /** Ry feeds the first slots and Rx the second, so D holds Ry·Rx in
      row-major order (and not Rx·Ry). */
  lemma ElbowRotation(w: Wiring, ry: seq<seq<real>>, rx: seq<seq<real>>)
    requires Wires(w, 3, 3, 3) && IsMatrix(ry, 3, 3) && IsMatrix(rx, 3, 3)
    ensures Fits(w, Flatten(ry), Flatten(rx))
    ensures Output(w, Flatten(ry), Flatten(rx)) == Flatten(Times(ry, rx, 3, 3, 3))
  {
    WiredProduct(w, ry, rx, 3, 3, 3);
  }
}

/** simulations/compute_target_position.py: the same wiring for a 1×2
    times 2×2 product, whose summing transform is Bmat.size wide. */
module ComputeTargetPosition {
  import opened Wrappers
  import opened MatrixRouting
  import opened MatrixNetwork

  /** `Amat` and `Bmat`; only their shapes are used. */
  const Amat: Matrix := Matrix(1, 2, [[0.5, -0.5]])
  const Bmat: Matrix := Matrix(2, 2, [[0.58, -1.0], [0.7, 0.1]])

  /** The script's loops: transformA and transformB sized from Amat and
      Bmat, transformC with D.dimensions rows and Bmat.size columns. */
  method Wire() returns (w: Wiring)
    ensures Wires(w, 1, 2, 2) && w.output == None
  {
    var a, b := BuildTransformsAB(Amat.rows, Amat.cols, Bmat.cols);
    var c := BuildTransformC(Amat.rows * Bmat.cols, Size(Bmat), Bmat.rows);
    RowsMatch(a, TransformA(1, 2, 2));
    RowsMatch(b, TransformB(1, 2, 2));
    RowsMatch(c, TransformC(2, 4, 2));
    w := Wiring(Size(Amat), Size(Bmat), Size(Amat) * Bmat.cols, Amat.rows * Bmat.cols, None,
                Rows(a), Rows(b), Rows(c));
  }

  /** A summing transform only B.size wide covers all D1·D2·D3 products
      exactly when A has a single row. */
  lemma BSizeWideSum(d1: nat, d2: nat, d3: nat)
    requires d1 > 0 && d2 > 0 && d3 > 0
    ensures TransformC(d1 * d3, d2 * d3, d2) == TransformC(d1 * d3, Pairs(d1, d2, d3), d2) <==> d1 == 1
  {
    if d1 > 1 {
      MulMonotone(2, d1, d2 * d3);
      assert d1 * (d2 * d3) == Pairs(d1, d2, d3);
      MulMonotone(1, d1, d3);
      assert |TransformC(d1 * d3, d2 * d3, d2)[0]| != |TransformC(d1 * d3, Pairs(d1, d2, d3), d2)[0]|;
    }
  }

  /** D[k] = A[0][0]·B[0][k] + A[0][1]·B[1][k]. */
  lemma TargetEntries(w: Wiring, am: seq<seq<real>>, bm: seq<seq<real>>)
    requires Wires(w, 1, 2, 2) && IsMatrix(am, 1, 2) && IsMatrix(bm, 2, 2)
    ensures Fits(w, Flatten(am), Flatten(bm))
    ensures |Output(w, Flatten(am), Flatten(bm))| == 2
    ensures forall k | 0 <= k < 2 ::
      Output(w, Flatten(am), Flatten(bm))[k] == am[0][0] * bm[0][k] + am[0][1] * bm[1][k]
  {
    WiredProduct(w, am, bm, 1, 2, 2);
    RowTimesSquare(am, bm);
  }

  /** The flattened 1×2 times 2×2 product, entry by entry. */
  lemma RowTimesSquare(am: seq<seq<real>>, bm: seq<seq<real>>)
    requires IsMatrix(am, 1, 2) && IsMatrix(bm, 2, 2)
    ensures |Flatten(Times(am, bm, 1, 2, 2))| == 2
    ensures forall k | 0 <= k < 2 ::
      Flatten(Times(am, bm, 1, 2, 2))[k] == am[0][0] * bm[0][k] + am[0][1] * bm[1][k]
  {
    forall k | 0 <= k < 2
      ensures Flatten(Times(am, bm, 1, 2, 2))[k] == am[0][0] * bm[0][k] + am[0][1] * bm[1][k]
    {
      TimesAt(am, bm, 1, 2, 2, 0, k);
      assert RowTimesColumn(am, bm, 0, k, 1) == am[0][0] * bm[0][k];
    }
  }
}
