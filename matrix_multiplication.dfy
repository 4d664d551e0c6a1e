/** robot_utils/matrix_multiplication.py: the MatrixMultiplication network
    with default operands and an output node. */
module UtilsMatrixMultiplication {
  import opened Wrappers
  import opened MatrixRouting
  import opened MatrixNetwork

  /** Constructing the network: the dimension check, then the sizes of
      in_A, in_B, C, D and the output node, then the three transforms.
      Only the shapes of the operands matter; their entries arrive later
      through in_A and in_B. */
  method Build(matrixA: Matrix := Eye(3), matrixB: Matrix := ZeroMatrix(3, 1)) returns (r: Result<Wiring>)
    requires WellFormed(matrixA) && WellFormed(matrixB)
    ensures r.Err? <==> matrixA.cols != matrixB.rows
    ensures r.Err? ==> r.error == ArithmeticError
    ensures r.Ok? ==> Wires(r.value, matrixA.rows, matrixA.cols, matrixB.cols)
    ensures r.Ok? ==> r.value.output == Some(matrixA.rows * matrixB.cols)
  {
    if matrixA.cols != matrixB.rows {
      return Err(ArithmeticError);
    }
    var ta, tb, tc := BuildTransforms(matrixA.rows, matrixA.cols, matrixB.cols);
    var outWidth := matrixA.rows * matrixB.cols;
    r := Ok(Wiring(Size(matrixA), Size(matrixB), Size(matrixA) * matrixB.cols, outWidth, Some(outWidth), ta, tb, tc));
  }

  /** A zero column contributes nothing to any row. */
  lemma {:induction false} ZeroColumn(am: seq<seq<real>>, bm: seq<seq<real>>, i: nat, k: nat, n: nat)
    requires i < |am| && n <= |am[i]| && n <= |bm|
    requires forall j | 0 <= j < n :: k < |bm[j]| && bm[j][k] == 0.0
    ensures RowTimesColumn(am, bm, i, k, n) == 0.0
  {
    if n > 0 {
      ZeroColumn(am, bm, i, k, n - 1);
    }
  }

  /** With the default operands the network is 3×3 times 3×1, and driven
      by them it outputs the zero 3-vector. */
  lemma DefaultOutput(w: Wiring)
    requires Wires(w, 3, 3, 1)
    ensures Fits(w, Flatten(Eye(3).elems), Flatten(ZeroMatrix(3, 1).elems))
    ensures Output(w, Flatten(Eye(3).elems), Flatten(ZeroMatrix(3, 1).elems)) == [0.0, 0.0, 0.0]
  {
    var am, bm := Eye(3).elems, ZeroMatrix(3, 1).elems;
    WiredProduct(w, am, bm, 3, 3, 1);
    var p := Times(am, bm, 3, 3, 1);
    forall i | 0 <= i < 3
      ensures Flatten(p)[i] == 0.0
    {
      ZeroColumn(am, bm, i, 0, 3);
      FlattenAt(p, 3, 1, i, 0);
    }
  }
}

/** robot_models/matrix_multiplication.py: the older copy, with both
    operands required and no output node. */
module ModelsMatrixMultiplication {
  import opened Wrappers
  import opened MatrixRouting
  import opened MatrixNetwork

  /** Constructing the network: the dimension check, then the sizes of
      in_A, in_B, C and D and the three transforms; the result is only
      available in D. */
  method Build(matrixA: Matrix, matrixB: Matrix) returns (r: Result<Wiring>)
    requires WellFormed(matrixA) && WellFormed(matrixB)
    ensures r.Err? <==> matrixA.cols != matrixB.rows
    ensures r.Err? ==> r.error == ArithmeticError
    ensures r.Ok? ==> Wires(r.value, matrixA.rows, matrixA.cols, matrixB.cols) && r.value.output == None
  {
    if matrixA.cols != matrixB.rows {
      return Err(ArithmeticError);
    }
    var ta, tb, tc := BuildTransforms(matrixA.rows, matrixA.cols, matrixB.cols);
    r := Ok(Wiring(Size(matrixA), Size(matrixB), Size(matrixA) * matrixB.cols, matrixA.rows * matrixB.cols, None, ta, tb, tc));
  }
}
