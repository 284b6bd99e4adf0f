/**
  * calculate_derivative_of_constraint_vector of equations.cpp: the matrix
  * whose row r and column c hold the derivative of constraint c by the
  * unknown r of a pixel. The unknowns are the N alphas followed by the N
  * RGB colours; the constraints are those of ConstraintVector (three
  * colour constraints, then one alpha constraint per layer in refinement
  * or one for the composite alpha otherwise). Gray-layer constraints are
  * not part of this model.
  *
  * The layout of the matrix is stated over the list of the per-layer
  * derivatives (LayerJacobians), the derivative of the whole composite by
  * each layer's RGBA value.
  */
module ConstraintJacobians {
  import opened LinearAlgebra
  import opened CompOps
  import opened BlendModes
  import opened Compositing
  import opened Jacobians
  import opened ConstraintEnergy

  /**
    * The composite alpha stays nonzero from the second layer to the top:
    * every division of the chained derivatives of the whole stack is defined.
    */
  predicate StackAlphasNonzero(alphas: seq<real>, ops: seq<CompOp>)
    requires 1 <= |alphas| && |ops| == |alphas|
  {
    ChainAlphasNonzero(alphas, ops, 0, |alphas| - 1)
  }

  /** The chain from any layer up to the top then has nonzero alphas. */
  lemma StackChainAlphasNonzero(alphas: seq<real>, ops: seq<CompOp>, i: nat)
    requires 1 <= |alphas| && |ops| == |alphas| && i < |alphas|
    requires StackAlphasNonzero(alphas, ops)
    ensures ChainAlphasNonzero(alphas, ops, i, |alphas| - 1)
  {
  }

  /** The derivative of the composite of the whole stack by the RGBA value of each layer. */
  function LayerJacobians(alphas: seq<real>, colors: seq<real>, ops: seq<CompOp>, modes: seq<BlendMode>): (js: seq<Mat4>)
    requires WellFormedStack(alphas, colors, ops, modes) && StackAlphasNonzero(alphas, ops)
    ensures |js| == |alphas|
    ensures forall i :: 0 <= i < |js| ==> JacobianShape(js[i])
  {
    seq(|alphas|, i requires 0 <= i < |alphas| => KthJacobian(alphas, colors, ops, modes, i, |alphas| - 1))
  }

  /** i_th_derivative: the derivative of the whole composite by layer i. */
  method LayerJacobian(alphas: seq<real>, colors: seq<real>, ops: seq<CompOp>, modes: seq<BlendMode>, i: nat)
    returns (j: Mat4)
    requires WellFormedStack(alphas, colors, ops, modes) && StackAlphasNonzero(alphas, ops) && i < |alphas|
    ensures j == LayerJacobians(alphas, colors, ops, modes)[i]
  {
    StackChainAlphasNonzero(alphas, ops, i);
    j := KthJacobian(alphas, colors, ops, modes, i, |alphas| - 1);
  }

  /**
    * The row of the alpha of layer i, from the layer's derivative j: row 3
    * of j in the colour columns; then in refinement a 1 in the column of
    * layer i's own alpha constraint, and otherwise j's entry (3, 3) in the
    * composite-alpha column.
    */
  function AlphaRow(j: Mat4, i: nat, n: nat, useTargetAlphas: bool): (row: seq<real>)
    requires i < n
    ensures |row| == ConstraintCount(n, useTargetAlphas)
  {
    if useTargetAlphas then [j.r3.x, j.r3.y, j.r3.z] + seq(n, l requires 0 <= l < n => if l == i then 1.0 else 0.0)
    else [j.r3.x, j.r3.y, j.r3.z, j.r3.w]
  }

  /**
    * The row of channel rr of a layer's colour: row rr of j in the colour
    * columns; zero in the alpha columns in refinement, and otherwise j's
    * entry (rr, 3).
    */
  function ColorRow(j: Mat4, rr: nat, n: nat, useTargetAlphas: bool): (row: seq<real>)
    requires rr < 3
    ensures |row| == ConstraintCount(n, useTargetAlphas)
  {
    var r := j.Row(rr);
    if useTargetAlphas then [r.x, r.y, r.z] + Zeros(n) else [r.x, r.y, r.z, r.w]
  }

  /**
    * The derivative of the constraint vector from the per-layer derivatives
    * js: row i is the alpha row of layer i, rows N + 3 i .. N + 3 i + 2 its
    * colour rows.
    */
  function ConstraintJacobianOf(js: seq<Mat4>, useTargetAlphas: bool): (d: seq<seq<real>>)
    ensures |d| == 4 * |js|
    ensures forall r :: 0 <= r < |d| ==> |d[r]| == ConstraintCount(|js|, useTargetAlphas)
  {
    seq(4 * |js|, r requires 0 <= r < 4 * |js| => UnknownRow(js, useTargetAlphas, r))
  }

  /** Row r of ConstraintJacobianOf: the alpha row of layer r, or a colour row of layer (r - N) / 3. */
  function UnknownRow(js: seq<Mat4>, useTargetAlphas: bool, r: nat): (row: seq<real>)
    requires r < 4 * |js|
    ensures |row| == ConstraintCount(|js|, useTargetAlphas)
  {
    var n := |js|;
    if r < n then AlphaRow(js[r], r, n, useTargetAlphas) else ColorRow(js[(r - n) / 3], (r - n) % 3, n, useTargetAlphas)
  }

  /** calculate_derivative_of_constraint_vector without gray layers. */
  function ConstraintJacobian(alphas: seq<real>, colors: seq<real>, ops: seq<CompOp>, modes: seq<BlendMode>,
                              useTargetAlphas: bool): (d: seq<seq<real>>)
    requires WellFormedStack(alphas, colors, ops, modes) && StackAlphasNonzero(alphas, ops)
    ensures |d| == 4 * |alphas|
    ensures forall r :: 0 <= r < |d| ==> |d[r]| == ConstraintCount(|alphas|, useTargetAlphas)
  {
    ConstraintJacobianOf(LayerJacobians(alphas, colors, ops, modes), useTargetAlphas)
  }

  lemma AlphaRowAt(js: seq<Mat4>, useTargetAlphas: bool, i: nat)
    requires i < |js|
    ensures ConstraintJacobianOf(js, useTargetAlphas)[i] == AlphaRow(js[i], i, |js|, useTargetAlphas)
  {
  }

  lemma ColorRowAt(js: seq<Mat4>, useTargetAlphas: bool, i: nat, rr: nat)
    requires i < |js| && rr < 3
    ensures ConstraintJacobianOf(js, useTargetAlphas)[|js| + 3 * i + rr] == ColorRow(js[i], rr, |js|, useTargetAlphas)
  {
    var n := |js|;
    assert (n + 3 * i + rr - n) / 3 == i && (n + 3 * i + rr - n) % 3 == rr;
  }

  /**
    * In a colour row the colour block is diagonal and, outside refinement,
    * the composite-alpha column is zero, whenever the layer's derivative
    * has the shape of JacobianShape.
    */
  lemma ColorRowZeros(js: seq<Mat4>, useTargetAlphas: bool, i: nat, rr: nat)
    requires i < |js| && rr < 3 && JacobianShape(js[i])
    ensures var row := ConstraintJacobianOf(js, useTargetAlphas)[|js| + 3 * i + rr];
            forall c :: 0 <= c < 3 && c != rr ==> row[c] == 0.0
    ensures !useTargetAlphas ==> ConstraintJacobianOf(js, useTargetAlphas)[|js| + 3 * i + rr][3] == 0.0
  {
    ColorRowAt(js, useTargetAlphas, i, rr);
  }

  /** The three colour rows of layer i at once. */
  lemma ColorRowsAt(js: seq<Mat4>, useTargetAlphas: bool, i: nat)
    requires i < |js|
    ensures forall r :: |js| + 3 * i <= r < |js| + 3 * i + 3
              ==> ConstraintJacobianOf(js, useTargetAlphas)[r] == ColorRow(js[i], r - |js| - 3 * i, |js|, useTargetAlphas)
  {
    forall r | |js| + 3 * i <= r < |js| + 3 * i + 3
      ensures ConstraintJacobianOf(js, useTargetAlphas)[r] == ColorRow(js[i], r - |js| - 3 * i, |js|, useTargetAlphas)
    {
      ColorRowAt(js, useTargetAlphas, i, r - |js| - 3 * i);
    }
  }

  // ---------------------------------------------------------------------
  // What the entries mean
  // ---------------------------------------------------------------------

  /** The composite-alpha column holds the chain-rule slope of the composite alpha by each layer's alpha. */
  lemma CompositeAlphaColumnIsSlope(alphas: seq<real>, colors: seq<real>, ops: seq<CompOp>, modes: seq<BlendMode>,
                                    i: nat)
    requires WellFormedStack(alphas, colors, ops, modes) && StackAlphasNonzero(alphas, ops)
    requires i < |alphas|
    ensures ConstraintJacobian(alphas, colors, ops, modes, false)[i][3]
         == StackSlope(CompositeAlpha, AlphaSlopeBySource, AlphaSlopeByDestination, alphas, ops, i, |alphas| - 1)
  {
    var js := LayerJacobians(alphas, colors, ops, modes);
    AlphaRowAt(js, false, i);
    assert ConstraintJacobian(alphas, colors, ops, modes, false)[i][3] == js[i].r3.w;
    StackChainAlphasNonzero(alphas, ops, i);
    KthJacobianAlphaSlope(alphas, colors, ops, modes, i, |alphas| - 1);
  }

  /**
    * The composite-alpha column is exact: moving the alpha of layer i by t
    * moves the composite-alpha constraint by t times the entry of row i.
    */
  lemma CompositeAlphaColumnIsExact(alphas: seq<real>, colors: seq<real>, target: Vec3, ops: seq<CompOp>,
                                    modes: seq<BlendMode>, i: nat, t: real)
    requires WellFormedStack(alphas, colors, ops, modes) && StackAlphasNonzero(alphas, ops)
    requires i < |alphas|
    ensures ConstraintVector(alphas[i := alphas[i] + t], colors, target, ops, modes, false, [])[3]
         == ConstraintVector(alphas, colors, target, ops, modes, false, [])[3]
            + Product(t, ConstraintJacobian(alphas, colors, ops, modes, false)[i][3])
  {
    var moved := alphas[i := alphas[i] + t];
    CompositeAlphaConstraint(moved, colors, target, ops, modes);
    CompositeAlphaConstraint(alphas, colors, target, ops, modes);
    CompositeAlphaColumnIsSlope(alphas, colors, ops, modes, i);
    ChainAlphaSlopeIsExact(alphas, ops, i, |alphas| - 1, t);
  }

  /**
    * The composite alpha does not depend on any colour, and accordingly
    * the composite-alpha column is zero in every colour row.
    */
  lemma CompositeAlphaColumnOfColorRows(alphas: seq<real>, colors: seq<real>, colors2: seq<real>, target: Vec3,
                                        ops: seq<CompOp>, modes: seq<BlendMode>, i: nat, rr: nat)
    requires WellFormedStack(alphas, colors, ops, modes) && StackAlphasNonzero(alphas, ops)
    requires |colors2| == |colors| && i < |alphas| && rr < 3
    ensures ConstraintVector(alphas, colors2, target, ops, modes, false, [])[3]
         == ConstraintVector(alphas, colors, target, ops, modes, false, [])[3]
    ensures ConstraintJacobian(alphas, colors, ops, modes, false)[|alphas| + 3 * i + rr][3] == 0.0
  {
    CompositeAlphaConstraint(alphas, colors, target, ops, modes);
    CompositeAlphaConstraint(alphas, colors2, target, ops, modes);
    ColorRowZeros(LayerJacobians(alphas, colors, ops, modes), false, i, rr);
  }

  /**
    * In refinement the alpha constraints are the alphas minus their
    * targets: the column of layer l's constraint holds 1 in the row of
    * alpha l and 0 in every other row, and it is exact.
    */
  lemma TargetAlphaColumns(alphas: seq<real>, colors: seq<real>, target: Vec3, ops: seq<CompOp>,
                           modes: seq<BlendMode>, targetAlphas: seq<real>, i: nat, l: nat, t: real)
    requires WellFormedStack(alphas, colors, ops, modes) && StackAlphasNonzero(alphas, ops)
    requires |targetAlphas| == |alphas| && i < |alphas| && l < |alphas|
    ensures ConstraintJacobian(alphas, colors, ops, modes, true)[i][3 + l] == (if l == i then 1.0 else 0.0)
    ensures ConstraintVector(alphas[i := alphas[i] + t], colors, target, ops, modes, true, targetAlphas)[3 + l]
         == ConstraintVector(alphas, colors, target, ops, modes, true, targetAlphas)[3 + l]
            + t * ConstraintJacobian(alphas, colors, ops, modes, true)[i][3 + l]
  {
    AlphaRowAt(LayerJacobians(alphas, colors, ops, modes), true, i);
    TargetAlphaConstraint(alphas, colors, target, ops, modes, targetAlphas, l);
    TargetAlphaConstraint(alphas[i := alphas[i] + t], colors, target, ops, modes, targetAlphas, l);
  }

  /** ... and no alpha constraint depends on a colour, so their columns are zero in every colour row. */
  lemma TargetAlphaColumnsOfColorRows(alphas: seq<real>, colors: seq<real>, colors2: seq<real>, target: Vec3,
                                      ops: seq<CompOp>, modes: seq<BlendMode>, targetAlphas: seq<real>,
                                      i: nat, rr: nat, l: nat)
    requires WellFormedStack(alphas, colors, ops, modes) && StackAlphasNonzero(alphas, ops)
    requires |colors2| == |colors| && |targetAlphas| == |alphas| && i < |alphas| && rr < 3 && l < |alphas|
    ensures ConstraintVector(alphas, colors2, target, ops, modes, true, targetAlphas)[3 + l]
         == ConstraintVector(alphas, colors, target, ops, modes, true, targetAlphas)[3 + l]
    ensures ConstraintJacobian(alphas, colors, ops, modes, true)[|alphas| + 3 * i + rr][3 + l] == 0.0
  {
    TargetAlphaConstraint(alphas, colors, target, ops, modes, targetAlphas, l);
    TargetAlphaConstraint(alphas, colors2, target, ops, modes, targetAlphas, l);
    ColorRowAt(LayerJacobians(alphas, colors, ops, modes), true, i, rr);
  }

  /**
    * Separable blending: channel rr of a layer's colour only enters the
    * colour constraint of channel rr.
    */
  lemma ColorBlockDiagonal(alphas: seq<real>, colors: seq<real>, ops: seq<CompOp>, modes: seq<BlendMode>,
                           useTargetAlphas: bool, i: nat, rr: nat, c: nat)
    requires WellFormedStack(alphas, colors, ops, modes) && StackAlphasNonzero(alphas, ops)
    requires i < |alphas| && rr < 3 && c < 3 && c != rr
    ensures ConstraintJacobian(alphas, colors, ops, modes, useTargetAlphas)[|alphas| + 3 * i + rr][c] == 0.0
  {
    ColorRowZeros(LayerJacobians(alphas, colors, ops, modes), useTargetAlphas, i, rr);
  }

  /**
    * A lone background layer is its own composite: its colour rows are the
    * identity on the colour constraints and its alpha row is 1 on the alpha
    * constraint, in either mode.
    */
  lemma SingleLayerJacobian(alphas: seq<real>, colors: seq<real>, ops: seq<CompOp>, modes: seq<BlendMode>,
                            useTargetAlphas: bool)
    requires WellFormedStack(alphas, colors, ops, modes) && |alphas| == 1
    ensures StackAlphasNonzero(alphas, ops)
    ensures ConstraintJacobian(alphas, colors, ops, modes, useTargetAlphas)
         == [[0.0, 0.0, 0.0, 1.0], [1.0, 0.0, 0.0, 0.0], [0.0, 1.0, 0.0, 0.0], [0.0, 0.0, 1.0, 0.0]]
  {
    var js := LayerJacobians(alphas, colors, ops, modes);
    assert js[0] == Identity4();
    var d := ConstraintJacobianOf(js, useTargetAlphas);
    AlphaRowAt(js, useTargetAlphas, 0);
    ColorRowAt(js, useTargetAlphas, 0, 0);
    ColorRowAt(js, useTargetAlphas, 0, 1);
    ColorRowAt(js, useTargetAlphas, 0, 2);
    assert d[0] == [0.0, 0.0, 0.0, 1.0];
    assert d[1] == [1.0, 0.0, 0.0, 0.0];
    assert d[2] == [0.0, 1.0, 0.0, 0.0];
    assert d[3] == [0.0, 0.0, 1.0, 0.0];
  }

  // ---------------------------------------------------------------------
  // The matrix filled in place
  // ---------------------------------------------------------------------

  /** derivative.block<1, k>(r, 0) = vals: the first |vals| entries of row r. */
  method SetRowBlock(d: array2<real>, r: nat, vals: seq<real>)
    modifies d
    requires r < d.Length0 && |vals| <= d.Length1
    ensures forall c :: 0 <= c < |vals| ==> d[r, c] == vals[c]
    ensures forall r2, c :: 0 <= r2 < d.Length0 && 0 <= c < d.Length1 && (r2 != r || |vals| <= c)
              ==> d[r2, c] == old(d[r2, c])
  {
    for c := 0 to |vals|
      invariant forall c2 :: 0 <= c2 < c ==> d[r, c2] == vals[c2]
      invariant forall r2, c2 :: 0 <= r2 < d.Length0 && 0 <= c2 < d.Length1 && (r2 != r || c <= c2)
                  ==> d[r2, c2] == old(d[r2, c2])
    {
      d[r, c] := vals[c];
    }
  }

  /**
    * The body of the loop over the layers: layer i's derivative j = js[i]
    * written into its alpha row and its three colour rows, which are zero
    * before; afterwards those rows are the rows of ConstraintJacobianOf(js).
    */
  method WriteLayerRows(d: array2<real>, j: Mat4, ghost js: seq<Mat4>, i: nat, useTargetAlphas: bool)
    modifies d
    requires i < |js| && j == js[i]
    requires d.Length0 == 4 * |js| && d.Length1 == ConstraintCount(|js|, useTargetAlphas)
    requires forall r, c :: 0 <= r < d.Length0 && 0 <= c < d.Length1 && (r == i || |js| + 3 * i <= r < |js| + 3 * i + 3)
               ==> d[r, c] == 0.0
    ensures forall c :: 0 <= c < d.Length1 ==> d[i, c] == ConstraintJacobianOf(js, useTargetAlphas)[i][c]
    ensures forall r, c :: |js| + 3 * i <= r < |js| + 3 * i + 3 && 0 <= c < d.Length1
              ==> d[r, c] == ConstraintJacobianOf(js, useTargetAlphas)[r][c]
    ensures forall r, c :: 0 <= r < d.Length0 && 0 <= c < d.Length1 && r != i && !(|js| + 3 * i <= r < |js| + 3 * i + 3)
              ==> d[r, c] == old(d[r, c])
  {
    var n := d.Length0 / 4;
    if useTargetAlphas {
      SetRowBlock(d, i, [j.r3.x, j.r3.y, j.r3.z]);
      SetRowBlock(d, n + 3 * i, [j.r0.x, j.r0.y, j.r0.z]);
      SetRowBlock(d, n + 3 * i + 1, [j.r1.x, j.r1.y, j.r1.z]);
      SetRowBlock(d, n + 3 * i + 2, [j.r2.x, j.r2.y, j.r2.z]);
      d[i, 3 + i] := 1.0;
    } else {
      SetRowBlock(d, i, [j.r3.x, j.r3.y, j.r3.z, j.r3.w]);
      SetRowBlock(d, n + 3 * i, [j.r0.x, j.r0.y, j.r0.z, j.r0.w]);
      SetRowBlock(d, n + 3 * i + 1, [j.r1.x, j.r1.y, j.r1.z, j.r1.w]);
      SetRowBlock(d, n + 3 * i + 2, [j.r2.x, j.r2.y, j.r2.z, j.r2.w]);
    }
    AlphaRowAt(js, useTargetAlphas, i);
    ColorRowsAt(js, useTargetAlphas, i);
  }

  /**
    * calculate_derivative_of_constraint_vector: a zero matrix of 4 N rows
    * and one column per constraint, then the rows of each layer written
    * from the derivative of the whole composite by that layer.
    */
  method CalculateDerivativeOfConstraintVector(alphas: seq<real>, colors: seq<real>, ops: seq<CompOp>,
                                               modes: seq<BlendMode>, useTargetAlphas: bool)
    returns (d: array2<real>)
    requires WellFormedStack(alphas, colors, ops, modes) && StackAlphasNonzero(alphas, ops)
    ensures fresh(d)
    ensures d.Length0 == 4 * |alphas| && d.Length1 == ConstraintCount(|alphas|, useTargetAlphas)
    ensures forall r, c :: 0 <= r < d.Length0 && 0 <= c < d.Length1
              ==> d[r, c] == ConstraintJacobian(alphas, colors, ops, modes, useTargetAlphas)[r][c]
  {
    var n := |alphas|;
    var numAlphaConstraints := if useTargetAlphas then n else 1;
    d := new real[4 * n, 3 + numAlphaConstraints]((r, c) => 0.0);
    ghost var js := LayerJacobians(alphas, colors, ops, modes);
    ghost var spec := ConstraintJacobianOf(js, useTargetAlphas);
    for i := 0 to n
      invariant forall r, c :: 0 <= r < n && 0 <= c < d.Length1 ==> d[r, c] == (if r < i then spec[r][c] else 0.0)
      invariant forall r, c :: n <= r < 4 * n && 0 <= c < d.Length1
                  ==> d[r, c] == (if r < n + 3 * i then spec[r][c] else 0.0)
    {
      var j := LayerJacobian(alphas, colors, ops, modes, i);
      WriteLayerRows(d, j, js, i, useTargetAlphas);
    }
  }
}
