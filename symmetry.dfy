/** The cyclic axis symmetry the routine is written with: relabelling
    (x,y,z) -> (y,z,x) together with (a,b,c) -> (b,c,a). */
module CyclicSymmetry {
  import opened Balsara3dCoeff
  import opened Field

  /** The cell seen with its axes relabelled: the new x axis is the old y axis,
      the new y axis the old z axis, the new z axis the old x axis. Each face
      keeps its data; only the names of the axes change. */
  function RotateCell(d: CellData): CellData {
    CellData(
      d.Dy, d.Dz, d.Dx,
      d.Byp, d.DzByp, d.DxByp, d.Bym, d.DzBym, d.DxBym,
      d.Bzp, d.DyBzp, d.DxBzp, d.Bzm, d.DyBzm, d.DxBzm,
      d.Bxp, d.DyBxp, d.DzBxp, d.Bxm, d.DyBxm, d.DzBxm)
  }

  /** The coefficients under the same relabelling. */
  function RotateCoeffs(c: Coeffs): Coeffs {
    Coeffs(
      c.b0, c.by_, c.bz, c.bx, c.byy, c.byz, c.bxy,
      c.c0, c.cy, c.cz, c.cx, c.cyz, c.czz, c.cxz,
      c.a0, c.ay, c.az, c.ax, c.axy, c.axz, c.axx)
  }

  /** Three relabellings bring every axis back to its own name. */
  lemma RotateCellThrice(d: CellData)
    ensures RotateCell(RotateCell(RotateCell(d))) == d
  {
  }

  lemma RotateCoeffsThrice(c: Coeffs)
    ensures RotateCoeffs(RotateCoeffs(RotateCoeffs(c))) == c
  {
  }

  /** The routine commutes with the relabelling: reconstructing the relabelled
      cell gives the relabelled coefficients. */
  lemma CoeffCommutesWithRotation(d: CellData)
    requires NonzeroExtents(d)
    ensures NonzeroExtents(RotateCell(d))
    ensures Coeff(RotateCell(d)) == RotateCoeffs(Coeff(d))
  {
  }

  /** The relabelled coefficients describe the same field seen along the
      relabelled axes: the point (p, q, r) of the new frame is the point
      (x, y, z) = (r, p, q) of the old one, and each component is the old
      component along the same physical axis. */
  lemma RotatedField(c: Coeffs, p: real, q: real, r: real)
    ensures EvalBx(RotateCoeffs(c), p, q, r) == EvalBy(c, r, p, q)
    ensures EvalBy(RotateCoeffs(c), p, q, r) == EvalBz(c, r, p, q)
    ensures EvalBz(RotateCoeffs(c), p, q, r) == EvalBx(c, r, p, q)
  {
    assert p * r == r * p;
  }

  /** The divergence is a scalar: relabelling the axes does not change it. */
  lemma RotatedDivergence(c: Coeffs, p: real, q: real, r: real)
    ensures Divergence(RotateCoeffs(c), p, q, r) == Divergence(c, r, p, q)
  {
  }
}
