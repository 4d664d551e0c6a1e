/** The index arithmetic behind the neural matrix product.

    A D1×D2 matrix A and a D2×D3 matrix B arrive flattened in row-major
    order.  An ensemble array C holds D1·D2·D3 two-slot cells; cell
    tmp = j + k·D2 + i·D2·D3 receives A[i][j] in its first slot and B[j][k]
    in its second.  Each cell decodes the product of its two slots, and a
    last transform sums the D2 products that belong to output entry
    (i, k) into row i·D3 + k of D.  This module builds the three 0/1
    transforms in place, exactly as the constructor's loops do, and proves
    that routing, pairwise product and summing give the row-major A·B. */
module MatrixRouting {

  // ---------------------------------------------------------------------
  // Integer division facts
  // ---------------------------------------------------------------------

  /** Multiplying by a non-negative factor keeps the order. */
  lemma MulMonotone(a: int, b: int, c: int)
    requires a <= b && c >= 0
    ensures a * c <= b * c
  {
    assert b * c - a * c == (b - a) * c;
  }

  /** Multiplication distributes over a sum on the left. */
  lemma Distribute(a: int, b: int, c: int)
    ensures (a + b) * c == a * c + b * c
  {
  }

  /** Products of three factors can be regrouped and reordered. */
  lemma Regroup(a: int, b: int, c: int)
    ensures c * a * b == a * b * c
    ensures a * b * c == a * (c * b)
    ensures a * (b * c) == a * b * c
  {
  }

  /** A product with a zero factor is zero. */
  lemma ZeroFactor(a: int, b: int)
    ensures a == 0 || b == 0 ==> a * b == 0
  {
  }

  /** Python's floor division t // d on naturals, by repeated subtraction. */
  function Div(t: nat, d: nat): nat
    requires d > 0
    decreases t
  {
    if t < d then 0 else 1 + Div(t - d, d)
  }

  /** Python's remainder t % d on naturals, by repeated subtraction. */
  function Mod(t: nat, d: nat): (m: nat)
    requires d > 0
    ensures m < d
    decreases t
  {
    if t < d then t else Mod(t - d, d)
  }

  /** Quotient and remainder recombine to t, and the remainder is below d. */
  lemma {:induction false} DivMod(t: nat, d: nat)
    requires d > 0
    ensures t == Div(t, d) * d + Mod(t, d) && Mod(t, d) < d
  {
    if t >= d {
      DivMod(t - d, d);
      Distribute(Div(t - d, d), 1, d);
    }
  }

  /** A quotient by d3 scaled by d2 is a quotient by d2·d3. */
  lemma ScaleDigits(u: int, v: int, k: int, d2: int, d3: int)
    requires u == v * d3 + k
    ensures u * d2 == v * (d2 * d3) + k * d2
  {
    Distribute(v * d3, k, d2);
    assert v * d3 * d2 == v * (d2 * d3);
  }

  /** Division is determined by quotient and remainder. */
  lemma {:induction false} DivModUnique(t: nat, d: nat, q: int, r: int)
    requires d > 0 && 0 <= r < d && t == q * d + r
    ensures Div(t, d) == q && Mod(t, d) == r
    decreases t
  {
    if q < 0 {
      MulMonotone(q, -1, d);
    } else if q > 0 {
      MulMonotone(1, q, d);
      Distribute(q - 1, 1, d);
      DivModUnique(t - d, d, q - 1, r);
    }
  }

  /** If 0 <= a < n and 0 <= b < m then a + b·n stays below n·m. */
  lemma MixedRadixBound(a: int, b: int, n: int, m: int)
    requires 0 <= a < n && 0 <= b < m
    ensures 0 <= a + b * n < n * m && n * m == m * n
  {
    MulMonotone(0, b, n);
    MulMonotone(b + 1, m, n);
    Distribute(b, 1, n);
  }

  // ---------------------------------------------------------------------
  // Product cells: the tmp index of the source
  // ---------------------------------------------------------------------

  /** Number of two-slot product cells: A.size · B.shape[1]. */
  function Pairs(d1: nat, d2: nat, d3: nat): nat { d1 * d2 * d3 }

  /** The cell that multiplies A[i][j] by B[j][k]. */
  function Slot(d2: nat, d3: nat, i: nat, j: nat, k: nat): nat
  {
    j + k * d2 + i * (d2 * d3)
  }

  /** Row-major index of A[i][j] in the flattened A. */
  function IndexA(d2: nat, i: nat, j: nat): nat { j + i * d2 }

  /** Row-major index of B[j][k] in the flattened B. */
  function IndexB(d3: nat, j: nat, k: nat): nat { k + j * d3 }

  datatype Triple = Triple(i: nat, j: nat, k: nat)

  /** Recovers (i, j, k) from a cell index. */
  function Decompose(d2: nat, d3: nat, t: nat): (x: Triple)
    requires d2 > 0 && d3 > 0
    ensures x.j < d2 && x.k < d3
  {
    Triple(Div(Div(t, d2), d3), Mod(t, d2), Mod(Div(t, d2), d3))
  }

  /** Every loop triple lands inside the D1·D2·D3 cells. */
  lemma SlotInRange(d1: nat, d2: nat, d3: nat, i: nat, j: nat, k: nat)
    requires i < d1 && j < d2 && k < d3
    ensures Slot(d2, d3, i, j, k) < Pairs(d1, d2, d3)
  {
    MixedRadixBound(j, k, d2, d3);
    MixedRadixBound(j + k * d2, i, d2 * d3, d1);
    assert d2 * d3 * d1 == d1 * d2 * d3;
  }

  /** Decompose undoes Slot: no two loop triples share a cell. */
  lemma DecomposeSlot(d2: nat, d3: nat, i: nat, j: nat, k: nat)
    requires j < d2 && k < d3
    ensures Decompose(d2, d3, Slot(d2, d3, i, j, k)) == Triple(i, j, k)
  {
    MulMonotone(0, i, d3);
    Distribute(k, i * d3, d2);
    Regroup(i, d3, d2);
    DivModUnique(Slot(d2, d3, i, j, k), d2, k + i * d3, j);
    DivModUnique(k + i * d3, d3, i, k);
  }

  /** Slot undoes Decompose on every cell: each cell is reached by a triple. */
  lemma SlotDecompose(d1: nat, d2: nat, d3: nat, t: nat)
    requires t < Pairs(d1, d2, d3)
    ensures d2 > 0 && d3 > 0
    ensures var x := Decompose(d2, d3, t);
      x.i < d1 && Slot(d2, d3, x.i, x.j, x.k) == t
  {
    ZeroFactor(d1, d2);
    ZeroFactor(d1 * d2, d3);
    DivMod(t, d2);
    DivMod(Div(t, d2), d3);
    ScaleDigits(Div(t, d2), Div(Div(t, d2), d3), Mod(Div(t, d2), d3), d2, d3);
    MulMonotone(0, Mod(Div(t, d2), d3), d2);
    if Div(Div(t, d2), d3) >= d1 {
      MulMonotone(d1, Div(Div(t, d2), d3), d2 * d3);
      Regroup(d1, d2, d3);
    }
  }

  // ---------------------------------------------------------------------
  // The three transforms, entry by entry
  // ---------------------------------------------------------------------

  /** Row r of C's input is the first slot of a cell that is really used. */
  predicate FirstSlot(d1: nat, d2: nat, d3: nat, r: nat)
  {
    d2 > 0 && d3 > 0 && Mod(r, 2) == 0 && Div(r, 2) < Pairs(d1, d2, d3)
  }

  /** Row r of C's input is the second slot of a cell that is really used. */
  predicate SecondSlot(d1: nat, d2: nat, d3: nat, r: nat)
  {
    d2 > 0 && d3 > 0 && Mod(r, 2) == 1 && Div(r, 2) < Pairs(d1, d2, d3)
  }

  /** Column of A routed into the first slot of cell t. */
  function ColumnA(d2: nat, d3: nat, t: nat): nat
    requires d2 > 0 && d3 > 0
  {
    var x := Decompose(d2, d3, t); IndexA(d2, x.i, x.j)
  }

  /** Column of B routed into the second slot of cell t. */
  function ColumnB(d2: nat, d3: nat, t: nat): nat
    requires d2 > 0 && d3 > 0
  {
    var x := Decompose(d2, d3, t); IndexB(d3, x.j, x.k)
  }

  /** transform_a[r][c]: one 1 per even row, in the column of A[i][j]. */
  function EntryA(d1: nat, d2: nat, d3: nat, r: nat, c: nat): real
  {
    if FirstSlot(d1, d2, d3, r) && c == ColumnA(d2, d3, Div(r, 2)) then 1.0 else 0.0
  }

  /** transform_b[r][c]: one 1 per odd row, in the column of B[j][k]. */
  function EntryB(d1: nat, d2: nat, d3: nat, r: nat, c: nat): real
  {
    if SecondSlot(d1, d2, d3, r) && c == ColumnB(d2, d3, Div(r, 2)) then 1.0 else 0.0
  }

  /** transform_c[r][c]: column c is summed into row c // div. */
  function EntryC(div: nat, r: nat, c: nat): real
  {
    if div > 0 && Div(c, div) == r then 1.0 else 0.0
  }

  /** The routing columns stay inside A's and B's flattened sizes. */
  lemma ColumnsInRange(d1: nat, d2: nat, d3: nat, t: nat)
    requires t < Pairs(d1, d2, d3)
    ensures d2 > 0 && d3 > 0
    ensures ColumnA(d2, d3, t) < d1 * d2 && ColumnB(d2, d3, t) < d2 * d3
  {
    SlotDecompose(d1, d2, d3, t);
    var x := Decompose(d2, d3, t);
    MixedRadixBound(x.j, x.i, d2, d1);
    MixedRadixBound(x.k, x.j, d3, d2);
    assert d2 * d1 == d1 * d2 && d3 * d2 == d2 * d3;
  }

  /** Each used cell's first-slot row of transform_a holds exactly one 1,
      at the row-major position of A[i][j], and the cell is the one the
      loop assigns to (i, j, k). */
  lemma TransformARow(d1: nat, d2: nat, d3: nat, i: nat, j: nat, k: nat, c: nat)
    requires i < d1 && j < d2 && k < d3
    ensures var r := 2 * Slot(d2, d3, i, j, k);
      EntryA(d1, d2, d3, r, c) == (if c == IndexA(d2, i, j) then 1.0 else 0.0)
      && EntryA(d1, d2, d3, r + 1, c) == 0.0
  {
    SlotInRange(d1, d2, d3, i, j, k);
    DecomposeSlot(d2, d3, i, j, k);
    DivModUnique(2 * Slot(d2, d3, i, j, k), 2, Slot(d2, d3, i, j, k), 0);
    DivModUnique(2 * Slot(d2, d3, i, j, k) + 1, 2, Slot(d2, d3, i, j, k), 1);
  }

  /** The same for transform_b: the 1 sits in the second slot, at B[j][k]. */
  lemma TransformBRow(d1: nat, d2: nat, d3: nat, i: nat, j: nat, k: nat, c: nat)
    requires i < d1 && j < d2 && k < d3
    ensures var r := 2 * Slot(d2, d3, i, j, k);
      EntryB(d1, d2, d3, r + 1, c) == (if c == IndexB(d3, j, k) then 1.0 else 0.0)
      && EntryB(d1, d2, d3, r, c) == 0.0
  {
    SlotInRange(d1, d2, d3, i, j, k);
    DecomposeSlot(d2, d3, i, j, k);
    DivModUnique(2 * Slot(d2, d3, i, j, k), 2, Slot(d2, d3, i, j, k), 0);
    DivModUnique(2 * Slot(d2, d3, i, j, k) + 1, 2, Slot(d2, d3, i, j, k), 1);
  }

  // ---------------------------------------------------------------------
  // Building the transforms in place
  // ---------------------------------------------------------------------

  /** Lexicographic "visited before (i, j, k)" for the triple loop. */
  predicate Before(x: Triple, i: nat, j: nat, k: nat)
  {
    x.i < i || (x.i == i && (x.j < j || (x.j == j && x.k < k)))
  }

  /** Entry (r, c) of transform_a once the loops have passed (i, j, k). */
  function PartialA(d1: nat, d2: nat, d3: nat, i: nat, j: nat, k: nat, r: nat, c: nat): real
  {
    if FirstSlot(d1, d2, d3, r) && Before(Decompose(d2, d3, Div(r, 2)), i, j, k)
    then EntryA(d1, d2, d3, r, c) else 0.0
  }

  /** Entry (r, c) of transform_b once the loops have passed (i, j, k). */
  function PartialB(d1: nat, d2: nat, d3: nat, i: nat, j: nat, k: nat, r: nat, c: nat): real
  {
    if SecondSlot(d1, d2, d3, r) && Before(Decompose(d2, d3, Div(r, 2)), i, j, k)
    then EntryB(d1, d2, d3, r, c) else 0.0
  }

  /** One iteration of the inner loop adds exactly the two writes of (i, j, k). */
  lemma PartialStep(d1: nat, d2: nat, d3: nat, i: nat, j: nat, k: nat, r: nat, c: nat)
    requires i < d1 && j < d2 && k < d3
    ensures var s := Slot(d2, d3, i, j, k);
      PartialA(d1, d2, d3, i, j, k + 1, r, c)
        == (if r == 2 * s && c == IndexA(d2, i, j) then 1.0 else PartialA(d1, d2, d3, i, j, k, r, c))
      && PartialB(d1, d2, d3, i, j, k + 1, r, c)
        == (if r == 2 * s + 1 && c == IndexB(d3, j, k) then 1.0 else PartialB(d1, d2, d3, i, j, k, r, c))
  {
    var s := Slot(d2, d3, i, j, k);
    SlotInRange(d1, d2, d3, i, j, k);
    DecomposeSlot(d2, d3, i, j, k);
    DivMod(r, 2);
    DivModUnique(2 * Slot(d2, d3, i, j, k), 2, Slot(d2, d3, i, j, k), 0);
    DivModUnique(2 * Slot(d2, d3, i, j, k) + 1, 2, Slot(d2, d3, i, j, k), 1);
    if Div(r, 2) < Pairs(d1, d2, d3) {
      SlotDecompose(d1, d2, d3, Div(r, 2));
    }
  }

  /** Leaving the inner loop (k = D3) is entering the next j. */
  lemma PartialNextJ(d1: nat, d2: nat, d3: nat, i: nat, j: nat, r: nat, c: nat)
    requires d2 > 0 && d3 > 0
    ensures PartialA(d1, d2, d3, i, j, d3, r, c) == PartialA(d1, d2, d3, i, j + 1, 0, r, c)
    ensures PartialB(d1, d2, d3, i, j, d3, r, c) == PartialB(d1, d2, d3, i, j + 1, 0, r, c)
  {
  }

  /** Leaving the middle loop (j = D2) is entering the next i. */
  lemma PartialNextI(d1: nat, d2: nat, d3: nat, i: nat, r: nat, c: nat)
    ensures PartialA(d1, d2, d3, i, d2, 0, r, c) == PartialA(d1, d2, d3, i + 1, 0, 0, r, c)
    ensures PartialB(d1, d2, d3, i, d2, 0, r, c) == PartialB(d1, d2, d3, i + 1, 0, 0, r, c)
  {
  }

  /** After the outer loop (i = D1) every used cell has been visited. */
  lemma PartialDone(d1: nat, d2: nat, d3: nat, r: nat, c: nat)
    ensures PartialA(d1, d2, d3, d1, 0, 0, r, c) == EntryA(d1, d2, d3, r, c)
    ensures PartialB(d1, d2, d3, d1, 0, 0, r, c) == EntryB(d1, d2, d3, r, c)
  {
    if Div(r, 2) < Pairs(d1, d2, d3) {
      SlotDecompose(d1, d2, d3, Div(r, 2));
    }
  }

  /** Allocates a rows×cols array of zeros (np.zeros). */
  method Zeros(rows: nat, cols: nat) returns (m: array2<real>)
    ensures fresh(m) && m.Length0 == rows && m.Length1 == cols
    ensures forall r, c | 0 <= r < rows && 0 <= c < cols :: m[r, c] == 0.0
  {
    m := new real[rows, cols]((_, _) => 0.0);
  }

  /** transform_a and transform_b hold what the loops have written
      before reaching (i, j, k). */
  ghost predicate Reached(ta: array2<real>, tb: array2<real>, d1: nat, d2: nat, d3: nat, i: nat, j: nat, k: nat)
    reads ta, tb
  {
    && ta.Length0 == 2 * Pairs(d1, d2, d3) && ta.Length1 == d1 * d2
    && tb.Length0 == 2 * Pairs(d1, d2, d3) && tb.Length1 == d2 * d3
    && (forall r, c | 0 <= r < ta.Length0 && 0 <= c < ta.Length1 :: ta[r, c] == PartialA(d1, d2, d3, i, j, k, r, c))
    && (forall r, c | 0 <= r < tb.Length0 && 0 <= c < tb.Length1 :: tb[r, c] == PartialB(d1, d2, d3, i, j, k, r, c))
  }

  /** Body of the innermost loop: the two writes for cell tmp. */
  method RouteCell(ta: array2<real>, tb: array2<real>, d1: nat, d2: nat, d3: nat, i: nat, j: nat, k: nat)
    requires ta != tb && i < d1 && j < d2 && k < d3
    requires Reached(ta, tb, d1, d2, d3, i, j, k)
    modifies ta, tb
    ensures Reached(ta, tb, d1, d2, d3, i, j, k + 1)
  {
    var tmp := j + k * d2 + i * (d2 * d3);
    SlotInRange(d1, d2, d3, i, j, k);
    ColumnsInRange(d1, d2, d3, tmp);
    DecomposeSlot(d2, d3, i, j, k);
    ta[tmp * 2, j + i * d2] := 1.0;
    tb[tmp * 2 + 1, k + j * d3] := 1.0;
    forall r, c | 0 <= r < ta.Length0 && 0 <= c < ta.Length1
      ensures ta[r, c] == PartialA(d1, d2, d3, i, j, k + 1, r, c)
    {
      PartialStep(d1, d2, d3, i, j, k, r, c);
    }
    forall r, c | 0 <= r < tb.Length0 && 0 <= c < tb.Length1
      ensures tb[r, c] == PartialB(d1, d2, d3, i, j, k + 1, r, c)
    {
      PartialStep(d1, d2, d3, i, j, k, r, c);
    }
  }

  /** The k loop for one (i, j). */
  method RouteColumn(ta: array2<real>, tb: array2<real>, d1: nat, d2: nat, d3: nat, i: nat, j: nat)
    requires ta != tb && i < d1 && j < d2
    requires Reached(ta, tb, d1, d2, d3, i, j, 0)
    modifies ta, tb
    ensures Reached(ta, tb, d1, d2, d3, i, j + 1, 0)
  {
    var k := 0;
    while k < d3
      invariant 0 <= k <= d3
      invariant Reached(ta, tb, d1, d2, d3, i, j, k)
    {
      RouteCell(ta, tb, d1, d2, d3, i, j, k);
      k := k + 1;
    }
    forall r, c | 0 <= r < ta.Length0 && 0 <= c < ta.Length1
      ensures ta[r, c] == PartialA(d1, d2, d3, i, j + 1, 0, r, c)
    {
      PartialNextJ(d1, d2, d3, i, j, r, c);
    }
    forall r, c | 0 <= r < tb.Length0 && 0 <= c < tb.Length1
      ensures tb[r, c] == PartialB(d1, d2, d3, i, j + 1, 0, r, c)
    {
      PartialNextJ(d1, d2, d3, i, j, r, c);
    }
  }

  /** The j loop for one row i of A. */
  method RouteRow(ta: array2<real>, tb: array2<real>, d1: nat, d2: nat, d3: nat, i: nat)
    requires ta != tb && i < d1
    requires Reached(ta, tb, d1, d2, d3, i, 0, 0)
    modifies ta, tb
    ensures Reached(ta, tb, d1, d2, d3, i + 1, 0, 0)
  {
    var j := 0;
    while j < d2
      invariant 0 <= j <= d2
      invariant Reached(ta, tb, d1, d2, d3, i, j, 0)
    {
      RouteColumn(ta, tb, d1, d2, d3, i, j);
      j := j + 1;
    }
    forall r, c | 0 <= r < ta.Length0 && 0 <= c < ta.Length1
      ensures ta[r, c] == PartialA(d1, d2, d3, i + 1, 0, 0, r, c)
    {
      PartialNextI(d1, d2, d3, i, r, c);
    }
    forall r, c | 0 <= r < tb.Length0 && 0 <= c < tb.Length1
      ensures tb[r, c] == PartialB(d1, d2, d3, i + 1, 0, 0, r, c)
    {
      PartialNextI(d1, d2, d3, i, r, c);
    }
  }

  /** The triple loop that fills transform_a and transform_b, starting
      from two zero arrays of C.dimensions rows. */
  method BuildTransformsAB(d1: nat, d2: nat, d3: nat) returns (ta: array2<real>, tb: array2<real>)
    ensures fresh(ta) && fresh(tb) && ta != tb
    ensures ta.Length0 == 2 * Pairs(d1, d2, d3) && ta.Length1 == d1 * d2
    ensures tb.Length0 == 2 * Pairs(d1, d2, d3) && tb.Length1 == d2 * d3
    ensures forall r, c | 0 <= r < ta.Length0 && 0 <= c < ta.Length1 :: ta[r, c] == EntryA(d1, d2, d3, r, c)
    ensures forall r, c | 0 <= r < tb.Length0 && 0 <= c < tb.Length1 :: tb[r, c] == EntryB(d1, d2, d3, r, c)
  {
    ta := Zeros(2 * Pairs(d1, d2, d3), d1 * d2);
    tb := Zeros(2 * Pairs(d1, d2, d3), d2 * d3);
    var i := 0;
    while i < d1
      invariant 0 <= i <= d1
      invariant Reached(ta, tb, d1, d2, d3, i, 0, 0)
    {
      RouteRow(ta, tb, d1, d2, d3, i);
      i := i + 1;
    }
    forall r, c | 0 <= r < ta.Length0 && 0 <= c < ta.Length1
      ensures ta[r, c] == EntryA(d1, d2, d3, r, c)
    {
      PartialDone(d1, d2, d3, r, c);
    }
    forall r, c | 0 <= r < tb.Length0 && 0 <= c < tb.Length1
      ensures tb[r, c] == EntryB(d1, d2, d3, r, c)
    {
      PartialDone(d1, d2, d3, r, c);
    }
  }

  /** The single loop that fills transform_c: column p goes to row p // div.
      The callers size the array so that p // div is always a row. */
  method BuildTransformC(rows: nat, cols: nat, div: nat) returns (tc: array2<real>)
    requires div > 0 || cols == 0
    requires cols <= rows * div
    ensures fresh(tc) && tc.Length0 == rows && tc.Length1 == cols
    ensures forall r, c | 0 <= r < rows && 0 <= c < cols :: tc[r, c] == EntryC(div, r, c)
  {
    tc := Zeros(rows, cols);
    for p := 0 to cols
      invariant forall r, c | 0 <= r < rows && 0 <= c < cols ::
        tc[r, c] == if c < p then EntryC(div, r, c) else 0.0
    {
      DivMod(p, div);
      if Div(p, div) >= rows {
        MulMonotone(rows, Div(p, div), div);
      }
      tc[Div(p, div), p] := 1.0;
    }
  }

  // ---------------------------------------------------------------------
  // What the network computes with these transforms
  // ---------------------------------------------------------------------

  /** Σ_{c < n} u[c]·v[c]: one row of a transform applied to a vector. */
  function DotTo(u: seq<real>, v: seq<real>, n: nat): real
    requires n <= |u| && n <= |v|
  {
    if n == 0 then 0.0 else DotTo(u, v, n - 1) + u[n - 1] * v[n - 1]
  }

  /** A connection's `transform` applied to the vector it carries. */
  function Apply(m: seq<seq<real>>, v: seq<real>): (w: seq<real>)
    requires forall r | 0 <= r < |m| :: |m[r]| == |v|
    ensures |w| == |m|
  {
    if m == [] then [] else [DotTo(m[0], v, |v|)] + Apply(m[1..], v)
  }

  /** Two connections into the same input are summed. */
  function Add(u: seq<real>, v: seq<real>): (w: seq<real>)
    requires |u| == |v|
    ensures |w| == |u|
  {
    seq(|u|, x requires 0 <= x < |u| => u[x] + v[x])
  }

  /** transform_a as a C.dimensions × A.size matrix. */
  function TransformA(d1: nat, d2: nat, d3: nat): (m: seq<seq<real>>)
    ensures |m| == 2 * Pairs(d1, d2, d3)
    ensures forall r | 0 <= r < |m| :: |m[r]| == d1 * d2
  {
    seq(2 * Pairs(d1, d2, d3), r requires 0 <= r => seq(d1 * d2, c requires 0 <= c => EntryA(d1, d2, d3, r, c)))
  }

  /** transform_b as a C.dimensions × B.size matrix. */
  function TransformB(d1: nat, d2: nat, d3: nat): (m: seq<seq<real>>)
    ensures |m| == 2 * Pairs(d1, d2, d3)
    ensures forall r | 0 <= r < |m| :: |m[r]| == d2 * d3
  {
    seq(2 * Pairs(d1, d2, d3), r requires 0 <= r => seq(d2 * d3, c requires 0 <= c => EntryB(d1, d2, d3, r, c)))
  }

  /** transform_c as a rows × cols matrix. */
  function TransformC(rows: nat, cols: nat, div: nat): (m: seq<seq<real>>)
    ensures |m| == rows
    ensures forall r | 0 <= r < |m| :: |m[r]| == cols
  {
    seq(rows, r requires 0 <= r => seq(cols, c requires 0 <= c => EntryC(div, r, c)))
  }

  /** The function each two-dimensional cell of C decodes. */
  function Product(x: seq<real>): real
    requires |x| >= 2
  {
    x[0] * x[1]
  }

  /** C's "product" output: one product per cell. */
  function CellProducts(c: seq<real>, n: nat): (p: seq<real>)
    requires 2 * n <= |c|
    ensures |p| == n
  {
    seq(n, t requires 0 <= t < n => Product(c[2 * t .. 2 * t + 2]))
  }

  /** Value of D for flattened inputs a (D1·D2 entries) and b (D2·D3 entries):
      route into C, multiply within each cell, sum into D. */
  function Network(d1: nat, d2: nat, d3: nat, a: seq<real>, b: seq<real>): (out: seq<real>)
    requires |a| == d1 * d2 && |b| == d2 * d3
    ensures |out| == d1 * d3
  {
    Apply(TransformC(d1 * d3, Pairs(d1, d2, d3), d2), Cells(d1, d2, d3, a, b))
  }

  /** Input of C: both routed connections summed. */
  function Routed(d1: nat, d2: nat, d3: nat, a: seq<real>, b: seq<real>): (c: seq<real>)
    requires |a| == d1 * d2 && |b| == d2 * d3
    ensures |c| == 2 * Pairs(d1, d2, d3)
  {
    Add(Apply(TransformA(d1, d2, d3), a), Apply(TransformB(d1, d2, d3), b))
  }

  /** Output of C: the product decoded in every cell. */
  function Cells(d1: nat, d2: nat, d3: nat, a: seq<real>, b: seq<real>): (p: seq<real>)
    requires |a| == d1 * d2 && |b| == d2 * d3
    ensures |p| == Pairs(d1, d2, d3)
  {
    CellProducts(Routed(d1, d2, d3, a, b), Pairs(d1, d2, d3))
  }

  // Reference definitions: matrices as rows, and their product.

  /** m is a rows × cols matrix. */
  ghost predicate IsMatrix(m: seq<seq<real>>, rows: nat, cols: nat)
  {
    |m| == rows && forall r | 0 <= r < rows :: |m[r]| == cols
  }

  /** Row-major flattening (numpy's ravel). */
  function Flatten(m: seq<seq<real>>): seq<real>
  {
    if m == [] then [] else m[0] + Flatten(m[1..])
  }

  /** Σ_{j < n} A[i][j]·B[j][k]. */
  function RowTimesColumn(am: seq<seq<real>>, bm: seq<seq<real>>, i: nat, k: nat, n: nat): real
    requires i < |am| && n <= |am[i]| && n <= |bm|
    requires forall j | 0 <= j < n :: k < |bm[j]|
  {
    if n == 0 then 0.0
    else RowTimesColumn(am, bm, i, k, n - 1) + am[i][n - 1] * bm[n - 1][k]
  }

  /** The matrix product A·B of a D1×D2 and a D2×D3 matrix. */
  function Times(am: seq<seq<real>>, bm: seq<seq<real>>, d1: nat, d2: nat, d3: nat): (p: seq<seq<real>>)
    requires IsMatrix(am, d1, d2) && IsMatrix(bm, d2, d3)
    ensures IsMatrix(p, d1, d3)
  {
    seq(d1, i requires 0 <= i < d1 =>
      seq(d3, k requires 0 <= k < d3 => RowTimesColumn(am, bm, i, k, d2)))
  }

  /** Flattening lays row i out at offset i·cols. */
  lemma {:induction false} FlattenAt(m: seq<seq<real>>, rows: nat, cols: nat, i: nat, j: nat)
    requires IsMatrix(m, rows, cols) && i < rows && j < cols
    ensures |Flatten(m)| == rows * cols
    ensures j + i * cols < rows * cols && Flatten(m)[j + i * cols] == m[i][j]
  {
    FlattenLength(m, rows, cols);
    MixedRadixBound(j, i, cols, rows);
    assert cols * rows == rows * cols;
    if i > 0 {
      FlattenAt(m[1..], rows - 1, cols, i - 1, j);
      assert j + i * cols == cols + (j + (i - 1) * cols);
    }
  }

  lemma {:induction false} FlattenLength(m: seq<seq<real>>, rows: nat, cols: nat)
    requires IsMatrix(m, rows, cols)
    ensures |Flatten(m)| == rows * cols
  {
    if rows > 0 {
      FlattenLength(m[1..], rows - 1, cols);
      assert rows * cols == cols + (rows - 1) * cols;
    }
  }

  /** A row with a single 1 at column c0 picks out v[c0]. */
  lemma {:induction false} UnitRow(u: seq<real>, v: seq<real>, n: nat, c0: nat)
    requires n <= |u| && n <= |v|
    requires forall c | 0 <= c < |u| :: u[c] == if c == c0 then 1.0 else 0.0
    ensures DotTo(u, v, n) == if c0 < n then v[c0] else 0.0
  {
    if n > 0 {
      UnitRow(u, v, n - 1, c0);
    }
  }

  /** Σ_{lo <= c < n} v[c]. */
  function SumFrom(v: seq<real>, lo: nat, n: nat): real
    requires n <= |v|
  {
    if n <= lo then 0.0 else SumFrom(v, lo, n - 1) + v[n - 1]
  }

  /** One more element at the top of the range. */
  lemma SumFromStep(v: seq<real>, lo: nat, n: nat)
    requires lo < n <= |v|
    ensures SumFrom(v, lo, n) == SumFrom(v, lo, n - 1) + v[n - 1]
  {
  }

  /** A row of 1s on [lo, hi) sums that stretch of v. */
  lemma {:induction false} BlockRow(u: seq<real>, v: seq<real>, n: nat, lo: nat, hi: nat)
    requires n <= |u| && n <= |v|
    requires forall c | 0 <= c < |u| :: u[c] == if lo <= c < hi then 1.0 else 0.0
    ensures DotTo(u, v, n) == SumFrom(v, lo, if n <= hi then n else hi)
  {
    if n > 0 {
      BlockRow(u, v, n - 1, lo, hi);
    }
  }

  /** Row q of transform_c selects columns q·div .. q·div + div - 1. */
  lemma RowOfC(div: nat, q: nat, c: nat)
    requires div > 0
    ensures EntryC(div, q, c) == if q * div <= c < q * div + div then 1.0 else 0.0
  {
    if q * div <= c < q * div + div {
      DivModUnique(c, div, q, c - q * div);
    } else if Div(c, div) == q {
      DivMod(c, div);
    }
  }

  /** Entry x of a sum of two connections. */
  lemma AddAt(u: seq<real>, v: seq<real>, x: nat)
    requires |u| == |v| && x < |u|
    ensures Add(u, v)[x] == u[x] + v[x]
  {
  }

  /** Entry r of a transform applied to a vector is row r dotted with it. */
  lemma {:induction false} ApplyAt(m: seq<seq<real>>, v: seq<real>, r: nat)
    requires forall r' | 0 <= r' < |m| :: |m[r']| == |v|
    requires r < |m|
    ensures Apply(m, v)[r] == DotTo(m[r], v, |v|)
  {
    if r > 0 {
      ApplyAt(m[1..], v, r - 1);
    }
  }

  /** The first-slot row of cell t in transform_a has its 1 at ColumnA(t),
      and the same row of transform_b is all zeros. */
  lemma FirstSlotRows(d1: nat, d2: nat, d3: nat, t: nat)
    requires t < Pairs(d1, d2, d3)
    ensures d2 > 0 && d3 > 0 && ColumnA(d2, d3, t) < d1 * d2
    ensures forall c | 0 <= c < d1 * d2 ::
      TransformA(d1, d2, d3)[2 * t][c] == if c == ColumnA(d2, d3, t) then 1.0 else 0.0
    ensures forall c | 0 <= c < d2 * d3 :: TransformB(d1, d2, d3)[2 * t][c] == 0.0
  {
    ColumnsInRange(d1, d2, d3, t);
    DivModUnique(2 * t, 2, t, 0);
    assert FirstSlot(d1, d2, d3, 2 * t) && !SecondSlot(d1, d2, d3, 2 * t);
  }

  /** The second-slot row of cell t in transform_b has its 1 at
      ColumnB(t), and the same row of transform_a is all zeros. */
  lemma SecondSlotRows(d1: nat, d2: nat, d3: nat, t: nat, r: nat)
    requires t < Pairs(d1, d2, d3) && r == 2 * t + 1
    ensures d2 > 0 && d3 > 0 && ColumnB(d2, d3, t) < d2 * d3
    ensures forall c | 0 <= c < d2 * d3 ::
      TransformB(d1, d2, d3)[r][c] == if c == ColumnB(d2, d3, t) then 1.0 else 0.0
    ensures forall c | 0 <= c < d1 * d2 :: TransformA(d1, d2, d3)[r][c] == 0.0
  {
    ColumnsInRange(d1, d2, d3, t);
    DivModUnique(r, 2, t, 1);
    assert SecondSlot(d1, d2, d3, r) && !FirstSlot(d1, d2, d3, r);
  }

  /** The first slot of cell t receives A's entry ColumnA(t) and nothing from B. */
  lemma RoutedFirst(d1: nat, d2: nat, d3: nat, a: seq<real>, b: seq<real>, t: nat)
    requires |a| == d1 * d2 && |b| == d2 * d3 && t < Pairs(d1, d2, d3)
    ensures d2 > 0 && d3 > 0 && ColumnA(d2, d3, t) < |a|
    ensures Routed(d1, d2, d3, a, b)[2 * t] == a[ColumnA(d2, d3, t)]
  {
    FirstSlotRows(d1, d2, d3, t);
    var ta, tb := TransformA(d1, d2, d3), TransformB(d1, d2, d3);
    UnitRow(ta[2 * t], a, |a|, ColumnA(d2, d3, t));
    UnitRow(tb[2 * t], b, |b|, |b|);
    ApplyAt(ta, a, 2 * t);
    ApplyAt(tb, b, 2 * t);
    AddAt(Apply(ta, a), Apply(tb, b), 2 * t);
  }

  /** The second slot of cell t receives B's entry ColumnB(t) and nothing from A. */
  lemma RoutedSecond(d1: nat, d2: nat, d3: nat, a: seq<real>, b: seq<real>, t: nat)
    requires |a| == d1 * d2 && |b| == d2 * d3 && t < Pairs(d1, d2, d3)
    ensures d2 > 0 && d3 > 0 && ColumnB(d2, d3, t) < |b|
    ensures Routed(d1, d2, d3, a, b)[2 * t + 1] == b[ColumnB(d2, d3, t)]
  {
    SecondSlotRows(d1, d2, d3, t, 2 * t + 1);
    var ta, tb := TransformA(d1, d2, d3), TransformB(d1, d2, d3);
    UnitRow(ta[2 * t + 1], a, |a|, |a|);
    UnitRow(tb[2 * t + 1], b, |b|, ColumnB(d2, d3, t));
    ApplyAt(ta, a, 2 * t + 1);
    ApplyAt(tb, b, 2 * t + 1);
    AddAt(Apply(ta, a), Apply(tb, b), 2 * t + 1);
  }

  /** Cell t of a vector of slot pairs holds the product of its two slots. */
  lemma ProductsAt(c: seq<real>, n: nat, t: nat)
    requires 2 * n <= |c| && t < n
    ensures CellProducts(c, n)[t] == c[2 * t] * c[2 * t + 1]
  {
    assert c[2 * t .. 2 * t + 2] == [c[2 * t], c[2 * t + 1]];
  }

  /** Cell t of `cells` holds A's entry ColumnA(t) times B's entry ColumnB(t). */
  ghost predicate ColumnProduct(cells: seq<real>, d2: nat, d3: nat, a: seq<real>, b: seq<real>, t: nat)
  {
    d2 > 0 && d3 > 0 && t < |cells| && ColumnA(d2, d3, t) < |a| && ColumnB(d2, d3, t) < |b|
    && cells[t] == a[ColumnA(d2, d3, t)] * b[ColumnB(d2, d3, t)]
  }

  /** Every cell of `cells` holds the product of the A and B entries routed to it. */
  ghost predicate ColumnProducts(cells: seq<real>, d1: nat, d2: nat, d3: nat, a: seq<real>, b: seq<real>)
  {
    |cells| == Pairs(d1, d2, d3) && forall t: nat | t < |cells| :: ColumnProduct(cells, d2, d3, a, b, t)
  }

  /** Cell t of C multiplies A's entry ColumnA(t) by B's entry ColumnB(t). */
  lemma CellAt(d1: nat, d2: nat, d3: nat, a: seq<real>, b: seq<real>, t: nat)
    requires |a| == d1 * d2 && |b| == d2 * d3 && t < Pairs(d1, d2, d3)
    ensures ColumnProduct(Cells(d1, d2, d3, a, b), d2, d3, a, b, t)
  {
    RoutedFirst(d1, d2, d3, a, b, t);
    RoutedSecond(d1, d2, d3, a, b, t);
    CellOfSlots(Routed(d1, d2, d3, a, b), Pairs(d1, d2, d3), t, a[ColumnA(d2, d3, t)], b[ColumnB(d2, d3, t)]);
    assert Cells(d1, d2, d3, a, b) == CellProducts(Routed(d1, d2, d3, a, b), Pairs(d1, d2, d3));
  }

  /** A cell whose two slots hold x and y decodes x·y. */
  lemma CellOfSlots(c: seq<real>, n: nat, t: nat, x: real, y: real)
    requires 2 * n <= |c| && t < n
    requires c[2 * t] == x && c[2 * t + 1] == y
    ensures CellProducts(c, n)[t] == x * y
  {
    ProductsAt(c, n, t);
  }

  /** C's output holds, in every cell, the product of its routed entries. */
  lemma CellsColumnProducts(d1: nat, d2: nat, d3: nat, a: seq<real>, b: seq<real>)
    requires |a| == d1 * d2 && |b| == d2 * d3
    ensures ColumnProducts(Cells(d1, d2, d3, a, b), d1, d2, d3, a, b)
  {
    forall t: nat | t < Pairs(d1, d2, d3)
      ensures ColumnProduct(Cells(d1, d2, d3, a, b), d2, d3, a, b, t)
    {
      CellAt(d1, d2, d3, a, b, t);
    }
  }

  /** The routing columns of the cell of (i, j, k) are the row-major
      positions of A[i][j] and B[j][k]. */
  lemma ColumnsAtSlot(d2: nat, d3: nat, i: nat, j: nat, k: nat)
    requires j < d2 && k < d3
    ensures ColumnA(d2, d3, Slot(d2, d3, i, j, k)) == IndexA(d2, i, j)
    ensures ColumnB(d2, d3, Slot(d2, d3, i, j, k)) == IndexB(d3, j, k)
  {
    DecomposeSlot(d2, d3, i, j, k);
  }

  /** The two slots of cell Slot(i, j, k) hold A[i][j] and B[j][k], so the
      cell's product is A[i][j]·B[j][k]. */
  lemma CellProductAt(d1: nat, d2: nat, d3: nat, a: seq<real>, b: seq<real>, cells: seq<real>, i: nat, j: nat, k: nat)
    requires ColumnProducts(cells, d1, d2, d3, a, b)
    requires i < d1 && j < d2 && k < d3
    ensures TripleProduct(cells, d2, d3, a, b, i, j, k)
  {
    SlotInRange(d1, d2, d3, i, j, k);
    ColumnsAtSlot(d2, d3, i, j, k);
    assert ColumnProduct(cells, d2, d3, a, b, Slot(d2, d3, i, j, k));
  }

  /** The cell of loop triple (i, j, k) holds a[IndexA(i, j)]·b[IndexB(j, k)]. */
  ghost predicate TripleProduct(cells: seq<real>, d2: nat, d3: nat, a: seq<real>, b: seq<real>, i: nat, j: nat, k: nat)
  {
    Slot(d2, d3, i, j, k) < |cells| && IndexA(d2, i, j) < |a| && IndexB(d3, j, k) < |b|
    && cells[Slot(d2, d3, i, j, k)] == a[IndexA(d2, i, j)] * b[IndexB(d3, j, k)]
  }

  /** Every loop triple's cell holds its product. */
  ghost predicate HoldsProducts(cells: seq<real>, d1: nat, d2: nat, d3: nat, a: seq<real>, b: seq<real>)
  {
    forall i: nat, j: nat, k: nat | i < d1 && j < d2 && k < d3 :: TripleProduct(cells, d2, d3, a, b, i, j, k)
  }

  /** Read by loop triple, the routed products are A[i][j]·B[j][k]. */
  lemma CellsHoldProducts(d1: nat, d2: nat, d3: nat, a: seq<real>, b: seq<real>, cells: seq<real>)
    requires ColumnProducts(cells, d1, d2, d3, a, b)
    ensures HoldsProducts(cells, d1, d2, d3, a, b)
  {
    forall i: nat, j: nat, k: nat | i < d1 && j < d2 && k < d3
      ensures TripleProduct(cells, d2, d3, a, b, i, j, k)
    {
      CellProductAt(d1, d2, d3, a, b, cells, i, j, k);
    }
  }

  /** Output row q = i·D3 + k collects the cells q·D2 .. q·D2 + D2 - 1,
      which are the cells of (i, 0, k) .. (i, D2 - 1, k). */
  lemma OutputBlock(d1: nat, d2: nat, d3: nat, i: nat, j: nat, k: nat)
    requires i < d1 && j < d2 && k < d3
    ensures 0 <= (k + i * d3) * d2
    ensures (k + i * d3) * d2 + d2 <= Pairs(d1, d2, d3)
    ensures (k + i * d3) * d2 + j == Slot(d2, d3, i, j, k)
  {
    MulMonotone(0, k + i * d3, d2);
    MixedRadixBound(k, i, d3, d1);
    MulMonotone(k + i * d3 + 1, d3 * d1, d2);
    Distribute(k + i * d3, 1, d2);
    Distribute(k, i * d3, d2);
    Regroup(d1, d2, d3);
    Regroup(i, d3, d2);
  }

  /** Summing a stretch of products A[i][j]·B[j][k], j < m, gives the
      (i, k) entry of A·B restricted to the first m terms. */
  lemma {:induction false} BlockSum(cells: seq<real>, lo: nat, am: seq<seq<real>>, bm: seq<seq<real>>,
                                    i: nat, k: nat, m: nat)
    requires lo + m <= |cells|
    requires i < |am| && m <= |am[i]| && m <= |bm|
    requires forall j | 0 <= j < m :: k < |bm[j]| && cells[lo + j] == am[i][j] * bm[j][k]
    ensures SumFrom(cells, lo, lo + m) == RowTimesColumn(am, bm, i, k, m)
  {
    if m > 0 {
      BlockSum(cells, lo, am, bm, i, k, m - 1);
      SumFromStep(cells, lo, lo + m);
    }
  }

  /** Cell j of the block summed into output row i·D3 + k holds
      A[i][j]·B[j][k]. */
  lemma BlockCell(d1: nat, d2: nat, d3: nat, am: seq<seq<real>>, bm: seq<seq<real>>, a: seq<real>, b: seq<real>,
                  cells: seq<real>, i: nat, j: nat, k: nat)
    requires RowMajor(a, am, d1, d2) && RowMajor(b, bm, d2, d3)
    requires HoldsProducts(cells, d1, d2, d3, a, b)
    requires i < d1 && j < d2 && k < d3
    ensures 0 <= (k + i * d3) * d2 && (k + i * d3) * d2 + j < |cells|
    ensures cells[(k + i * d3) * d2 + j] == am[i][j] * bm[j][k]
  {
    OutputBlock(d1, d2, d3, i, j, k);
    SlotHoldsProduct(d1, d2, d3, am, bm, a, b, cells, i, j, k);
    SameEntry(cells, (k + i * d3) * d2 + j, Slot(d2, d3, i, j, k));
  }

  /** Slot (i, j, k) of the cells holds A[i][j]·B[j][k], read from the matrices themselves. */
  lemma SlotHoldsProduct(d1: nat, d2: nat, d3: nat, am: seq<seq<real>>, bm: seq<seq<real>>, a: seq<real>, b: seq<real>,
                         cells: seq<real>, i: nat, j: nat, k: nat)
    requires RowMajor(a, am, d1, d2) && RowMajor(b, bm, d2, d3)
    requires HoldsProducts(cells, d1, d2, d3, a, b)
    requires i < d1 && j < d2 && k < d3
    ensures Slot(d2, d3, i, j, k) < |cells|
    ensures cells[Slot(d2, d3, i, j, k)] == am[i][j] * bm[j][k]
  {
    assert TripleProduct(cells, d2, d3, a, b, i, j, k);
    assert IndexB(d3, j, k) == IndexA(d3, j, k);
    ProductChain(cells[Slot(d2, d3, i, j, k)], a[IndexA(d2, i, j)], b[IndexB(d3, j, k)], am[i][j], bm[j][k]);
  }

  /** A product keeps its value when its factors are replaced by equal ones. */
  lemma ProductChain(c: real, x: real, y: real, x': real, y': real)
    requires c == x * y && x == x' && y == y'
    ensures c == x' * y'
  {
  }

  /** a lays the rows×cols matrix m out in row-major order. */
  ghost predicate RowMajor(a: seq<real>, m: seq<seq<real>>, rows: nat, cols: nat)
  {
    IsMatrix(m, rows, cols) && |a| == rows * cols
    && forall i: nat, j: nat | i < rows && j < cols :: IndexA(cols, i, j) < |a| && a[IndexA(cols, i, j)] == m[i][j]
  }

  /** Flatten lays a matrix out in row-major order. */
  lemma FlattenRowMajor(m: seq<seq<real>>, rows: nat, cols: nat)
    requires IsMatrix(m, rows, cols)
    ensures RowMajor(Flatten(m), m, rows, cols)
  {
    FlattenLength(m, rows, cols);
    forall i: nat, j: nat | i < rows && j < cols
      ensures IndexA(cols, i, j) < |Flatten(m)| && Flatten(m)[IndexA(cols, i, j)] == m[i][j]
    {
      FlattenAt(m, rows, cols, i, j);
    }
  }

  /** Equal positions hold equal entries. */
  lemma SameEntry(s: seq<real>, x: int, y: int)
    requires 0 <= x < |s| && x == y
    ensures s[x] == s[y]
  {
  }

  /** The cells summed into output row i·D3 + k hold A[i][j]·B[j][k]. */
  lemma BlockCells(d1: nat, d2: nat, d3: nat, am: seq<seq<real>>, bm: seq<seq<real>>, a: seq<real>, b: seq<real>,
                   cells: seq<real>, i: nat, k: nat)
    requires RowMajor(a, am, d1, d2) && RowMajor(b, bm, d2, d3)
    requires |cells| == Pairs(d1, d2, d3) && HoldsProducts(cells, d1, d2, d3, a, b)
    requires i < d1 && k < d3
    ensures 0 <= (k + i * d3) * d2 && (k + i * d3) * d2 + d2 <= |cells|
    ensures forall j | 0 <= j < d2 :: cells[(k + i * d3) * d2 + j] == am[i][j] * bm[j][k]
  {
    MulMonotone(0, k + i * d3, d2);
    if d2 > 0 {
      OutputBlock(d1, d2, d3, i, 0, k);
    } else {
      MulMonotone(k + i * d3, k + i * d3, 0);
    }
    forall j | 0 <= j < d2
      ensures cells[(k + i * d3) * d2 + j] == am[i][j] * bm[j][k]
    {
      BlockCell(d1, d2, d3, am, bm, a, b, cells, i, j, k);
    }
  }

  /** Routing with transform_a/transform_b, taking `product` of every
      cell and summing with transform_c gives the row-major product A·B. */
  lemma NetworkComputesProduct(d1: nat, d2: nat, d3: nat, am: seq<seq<real>>, bm: seq<seq<real>>)
    requires IsMatrix(am, d1, d2) && IsMatrix(bm, d2, d3)
    ensures |Flatten(am)| == d1 * d2 && |Flatten(bm)| == d2 * d3
    ensures Network(d1, d2, d3, Flatten(am), Flatten(bm)) == Flatten(Times(am, bm, d1, d2, d3))
  {
    FlattenLength(am, d1, d2);
    FlattenLength(bm, d2, d3);
    var a, b := Flatten(am), Flatten(bm);
    var out := Network(d1, d2, d3, a, b);
    var ref := Flatten(Times(am, bm, d1, d2, d3));
    FlattenLength(Times(am, bm, d1, d2, d3), d1, d3);
    forall q | 0 <= q < d1 * d3
      ensures out[q] == ref[q]
    {
      var i, k := OutputIndex(d1, d3, q);
      OutputEntry(d1, d2, d3, am, bm, i, k);
      TimesAt(am, bm, d1, d2, d3, i, k);
    }
  }

  /** Entry i·D3 + k of the flattened product is Σ_j A[i][j]·B[j][k]. */
  lemma TimesAt(am: seq<seq<real>>, bm: seq<seq<real>>, d1: nat, d2: nat, d3: nat, i: nat, k: nat)
    requires IsMatrix(am, d1, d2) && IsMatrix(bm, d2, d3) && i < d1 && k < d3
    ensures |Flatten(Times(am, bm, d1, d2, d3))| == d1 * d3 && k + i * d3 < d1 * d3
    ensures Flatten(Times(am, bm, d1, d2, d3))[k + i * d3] == RowTimesColumn(am, bm, i, k, d2)
  {
    var p := Times(am, bm, d1, d2, d3);
    FlattenAt(p, d1, d3, i, k);
    assert p[i][k] == RowTimesColumn(am, bm, i, k, d2);
  }

  /** Row q of D sums the D2 cells q·D2 .. q·D2 + D2 - 1. */
  lemma SummedRow(d1: nat, d2: nat, d3: nat, cells: seq<real>, q: nat)
    requires |cells| == Pairs(d1, d2, d3) && q < d1 * d3
    ensures q * d2 + d2 <= |cells|
    ensures Apply(TransformC(d1 * d3, Pairs(d1, d2, d3), d2), cells)[q] == SumFrom(cells, q * d2, q * d2 + d2)
  {
    RowBound(d1, d2, d3, q);
    ApplyAt(TransformC(d1 * d3, Pairs(d1, d2, d3), d2), cells, q);
    SelectBlock(TransformC(d1 * d3, Pairs(d1, d2, d3), d2)[q], cells, q, d2);
  }

  /** The block of output row q ends inside the cells. */
  lemma RowBound(d1: nat, d2: nat, d3: nat, q: nat)
    requires q < d1 * d3
    ensures q * d2 + d2 <= Pairs(d1, d2, d3)
  {
    MulMonotone(q + 1, d1 * d3, d2);
    Distribute(q, 1, d2);
    Regroup(d1, d2, d3);
    Regroup(d1, d3, d2);
  }

  /** A row of transform_c picks out and sums its block of cells. */
  lemma SelectBlock(row: seq<real>, cells: seq<real>, q: nat, div: nat)
    requires |row| == |cells| && q * div + div <= |cells|
    requires forall x | 0 <= x < |row| :: row[x] == EntryC(div, q, x)
    ensures DotTo(row, cells, |cells|) == SumFrom(cells, q * div, q * div + div)
  {
    ZeroFactor(q, div);
    forall x | 0 <= x < |row|
      ensures row[x] == if q * div <= x < q * div + div then 1.0 else 0.0
    {
      if div > 0 {
        RowOfC(div, q, x);
      }
    }
    BlockRow(row, cells, |cells|, q * div, q * div + div);
  }

  /** Output entry q of a D1×D3 result is (q // D3, q % D3). */
  lemma OutputIndex(d1: nat, d3: nat, q: nat) returns (i: nat, k: nat)
    requires q < d1 * d3
    ensures i < d1 && k < d3 && q == k + i * d3
  {
    i, k := Div(q, d3), Mod(q, d3);
    DivMod(q, d3);
    if i >= d1 {
      MulMonotone(d1, i, d3);
    }
  }

  /** Output q of the network is the sum of its block of cells. */
  lemma NetworkEntry(d1: nat, d2: nat, d3: nat, a: seq<real>, b: seq<real>, q: nat)
    requires |a| == d1 * d2 && |b| == d2 * d3 && q < d1 * d3
    ensures q * d2 + d2 <= Pairs(d1, d2, d3)
    ensures Network(d1, d2, d3, a, b)[q] == SumFrom(Cells(d1, d2, d3, a, b), q * d2, q * d2 + d2)
  {
    SummedRow(d1, d2, d3, Cells(d1, d2, d3, a, b), q);
  }

  /** Output i·D3 + k of the network is entry (i, k) of A·B. */
  lemma OutputEntry(d1: nat, d2: nat, d3: nat, am: seq<seq<real>>, bm: seq<seq<real>>, i: nat, k: nat)
    requires IsMatrix(am, d1, d2) && IsMatrix(bm, d2, d3) && i < d1 && k < d3
    ensures ProductAtOutput(d1, d2, d3, am, bm, Flatten(am), Flatten(bm), i, k)
  {
    FlattenRowMajor(am, d1, d2);
    FlattenRowMajor(bm, d2, d3);
    RowMajorEntry(d1, d2, d3, am, bm, Flatten(am), Flatten(bm), i, k);
  }

  /** Output i·D3 + k of the network on inputs a, b is entry (i, k) of A·B. */
  ghost predicate ProductAtOutput(d1: nat, d2: nat, d3: nat, am: seq<seq<real>>, bm: seq<seq<real>>, a: seq<real>, b: seq<real>,
                                  i: nat, k: nat)
  {
    |a| == d1 * d2 && |b| == d2 * d3 && IsMatrix(am, d1, d2) && IsMatrix(bm, d2, d3) && i < d1 && k < d3
    && k + i * d3 < d1 * d3
    && Network(d1, d2, d3, a, b)[k + i * d3] == RowTimesColumn(am, bm, i, k, d2)
  }

  /** The same for any row-major layouts a of A and b of B. */
  lemma RowMajorEntry(d1: nat, d2: nat, d3: nat, am: seq<seq<real>>, bm: seq<seq<real>>, a: seq<real>, b: seq<real>,
                      i: nat, k: nat)
    requires RowMajor(a, am, d1, d2) && RowMajor(b, bm, d2, d3) && i < d1 && k < d3
    ensures ProductAtOutput(d1, d2, d3, am, bm, a, b, i, k)
  {
    MixedRadixBound(k, i, d3, d1);
    CellsColumnProducts(d1, d2, d3, a, b);
    BlockEntry(d1, d2, d3, am, bm, a, b, Cells(d1, d2, d3, a, b), i, k);
    NetworkEntry(d1, d2, d3, a, b, k + i * d3);
  }

  /** The block of cells summed into output i·D3 + k adds up to entry (i, k) of A·B. */
  lemma BlockEntry(d1: nat, d2: nat, d3: nat, am: seq<seq<real>>, bm: seq<seq<real>>, a: seq<real>, b: seq<real>,
                   cells: seq<real>, i: nat, k: nat)
    requires RowMajor(a, am, d1, d2) && RowMajor(b, bm, d2, d3) && i < d1 && k < d3
    requires ColumnProducts(cells, d1, d2, d3, a, b)
    ensures 0 <= (k + i * d3) * d2 && (k + i * d3) * d2 + d2 <= |cells|
    ensures SumFrom(cells, (k + i * d3) * d2, (k + i * d3) * d2 + d2) == RowTimesColumn(am, bm, i, k, d2)
  {
    CellsHoldProducts(d1, d2, d3, a, b, cells);
    BlockCells(d1, d2, d3, am, bm, a, b, cells, i, k);
    BlockSum(cells, (k + i * d3) * d2, am, bm, i, k, d2);
  }
}
