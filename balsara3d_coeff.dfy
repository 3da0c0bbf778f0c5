/** The coefficient routine of a divergence-free quadratic reconstruction in an
    axis-aligned hexahedral cell (after Balsara, 2004).

    Every quantity is a `real`: the routine is straight-line arithmetic, and the
    identities it is built on hold exactly over the reals. */
module Balsara3dCoeff {

  /** The 21 inputs, in the routine's parameter order: the three cell extents,
      then for each face its average normal field and the two tangential-variation
      terms (each a slope pre-multiplied by the extent it varies along). */
  datatype CellData = CellData(
    Dx: real, Dy: real, Dz: real,
    Bxp: real, DyBxp: real, DzBxp: real, Bxm: real, DyBxm: real, DzBxm: real,
    Byp: real, DxByp: real, DzByp: real, Bym: real, DxBym: real, DzBym: real,
    Bzp: real, DxBzp: real, DyBzp: real, Bzm: real, DxBzm: real, DyBzm: real)

  /** The 21 coefficients, in the order of the returned tuple:
        Bx = a0 + ax x + ay y + az z + axx x^2 + axy x y + axz x z
        By = b0 + bx x + by_ y + bz z + bxy x y + byy y^2 + byz y z
        Bz = c0 + cx x + cy y + cz z + cxz x z + cyz y z + czz z^2
      on the box -Dx/2 <= x <= Dx/2, -Dy/2 <= y <= Dy/2, -Dz/2 <= z <= Dz/2.
      (`by_` stands for the coefficient the routine calls `by`, a Dafny keyword.) */
  datatype Coeffs = Coeffs(
    a0: real, ax: real, ay: real, az: real, axx: real, axy: real, axz: real,
    b0: real, bx: real, by_: real, bz: real, bxy: real, byy: real, byz: real,
    c0: real, cx: real, cy: real, cz: real, cxz: real, cyz: real, czz: real)

  /** Every extent is a divisor of the routine. */
  predicate NonzeroExtents(d: CellData) {
    d.Dx != 0.0 && d.Dy != 0.0 && d.Dz != 0.0
  }

  /** The discrete divergence of the six face averages. */
  function FaceDivergence(d: CellData): real
    requires NonzeroExtents(d)
  {
    (d.Bxp - d.Bxm) / d.Dx + (d.Byp - d.Bym) / d.Dy + (d.Bzp - d.Bzm) / d.Dz
  }

  /** The four shapes of formula the routine is written with. */

  /** A central difference of two opposite-face values across extent D. */
  function Slope(p: real, m: real, D: real): real
    requires D != 0.0
  {
    (p - m) / D
  }

  /** The mean of two opposite-face values. */
  function Mean(p: real, m: real): real {
    0.5 * (p + m)
  }

  /** A self-curvature term from the two cross terms of the other families. */
  function Curvature(u: real, v: real): real {
    -0.5 * (u + v)
  }

  /** An offset: the mean of the two face averages, less the curvature's
      contribution at the faces. */
  function Offset(p: real, m: real, k: real, D: real): real {
    0.5 * (p + m) - 0.25 * k * (D * D)
  }

  /** The reconstruction. Its contract states the three identities the
      self-curvature terms are chosen for (each cancels the position-dependent
      part of one component of the divergence's gradient), and that what is left
      of the divergence is the discrete divergence of the face averages. */
  function Coeff(d: CellData): (c: Coeffs)
    requires NonzeroExtents(d)
    ensures 2.0 * c.axx + c.bxy + c.cxz == 0.0
    ensures c.axy + 2.0 * c.byy + c.cyz == 0.0
    ensures c.axz + c.byz + 2.0 * c.czz == 0.0
    ensures c.ax + c.by_ + c.cz == FaceDivergence(d)
  {
    // x family
    var ax := Slope(d.Bxp, d.Bxm, d.Dx);
    var ay := Mean(d.DyBxp / d.Dy, d.DyBxm / d.Dy);
    var az := Mean(d.DzBxp / d.Dz, d.DzBxm / d.Dz);
    var axy := Slope(d.DyBxp / d.Dy, d.DyBxm / d.Dy, d.Dx);
    var axz := Slope(d.DzBxp / d.Dz, d.DzBxm / d.Dz, d.Dx);
    // y family: the x family under (a,b,c,x,y,z) -> (b,c,a,y,z,x)
    var by_ := Slope(d.Byp, d.Bym, d.Dy);
    var bz := Mean(d.DzByp / d.Dz, d.DzBym / d.Dz);
    var bx := Mean(d.DxByp / d.Dx, d.DxBym / d.Dx);
    var byz := Slope(d.DzByp / d.Dz, d.DzBym / d.Dz, d.Dy);
    var bxy := Slope(d.DxByp / d.Dx, d.DxBym / d.Dx, d.Dy);
    // z family: the same relabelling once more
    var cz := Slope(d.Bzp, d.Bzm, d.Dz);
    var cx := Mean(d.DxBzp / d.Dx, d.DxBzm / d.Dx);
    var cy := Mean(d.DyBzp / d.Dy, d.DyBzm / d.Dy);
    var cxz := Slope(d.DxBzp / d.Dx, d.DxBzm / d.Dx, d.Dz);
    var cyz := Slope(d.DyBzp / d.Dy, d.DyBzm / d.Dy, d.Dz);
    // self-curvature ("cross-talk") terms
    var axx := Curvature(bxy, cxz);
    var byy := Curvature(cyz, axy);
    var czz := Curvature(axz, byz);
    // offsets
    var a0 := Offset(d.Bxp, d.Bxm, axx, d.Dx);
    var b0 := Offset(d.Byp, d.Bym, byy, d.Dy);
    var c0 := Offset(d.Bzp, d.Bzm, czz, d.Dz);
    Coeffs(a0, ax, ay, az, axx, axy, axz,
           b0, bx, by_, bz, bxy, byy, byz,
           c0, cx, cy, cz, cxz, cyz, czz)
  }

  /** The coefficients as the routine's positional 21-tuple. */
  function ToTuple(c: Coeffs): (t: seq<real>)
    ensures |t| == 21
  {
    [c.a0, c.ax, c.ay, c.az, c.axx, c.axy, c.axz,
     c.b0, c.bx, c.by_, c.bz, c.bxy, c.byy, c.byz,
     c.c0, c.cx, c.cy, c.cz, c.cxz, c.cyz, c.czz]
  }

  /** How a caller unpacks the positional 21-tuple. */
  function FromTuple(t: seq<real>): Coeffs
    requires |t| == 21
  {
    Coeffs(t[0], t[1], t[2], t[3], t[4], t[5], t[6],
           t[7], t[8], t[9], t[10], t[11], t[12], t[13],
           t[14], t[15], t[16], t[17], t[18], t[19], t[20])
  }

  /** Unpacking the returned tuple gives back every coefficient. */
  lemma FromTupleToTuple(c: Coeffs)
    ensures FromTuple(ToTuple(c)) == c
  {
  }

  /** Every 21-tuple is the tuple of exactly one set of coefficients. */
  lemma ToTupleFromTuple(t: seq<real>)
    requires |t| == 21
    ensures ToTuple(FromTuple(t)) == t
  {
    var u := ToTuple(FromTuple(t));
    assert forall k :: 0 <= k < 21 ==> u[k] == t[k];
  }
}
