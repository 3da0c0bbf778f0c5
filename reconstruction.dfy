/** What the coefficients promise about the field they describe: it reproduces
    the linear variation given on each face, its divergence is the same at every
    point, and a uniform cell gives a uniform field. */
module Reconstruction {
  import opened Balsara3dCoeff
  import opened Field

  /** A linear function of the two coordinates (u, w) in a face: value v at
      the face centre, slopes s along u and t along w. */
  function InFace(v: real, s: real, t: real, u: real, w: real): real {
    v + s * u + t * w
  }

  /** The linear variation of the normal field given on each face, as a function
      of the two in-face coordinates: the face average plus each
      tangential-variation term divided by the extent it varies along. */
  function XpFace(d: CellData, y: real, z: real): real
    requires NonzeroExtents(d)
  {
    InFace(d.Bxp, d.DyBxp / d.Dy, d.DzBxp / d.Dz, y, z)
  }

  function XmFace(d: CellData, y: real, z: real): real
    requires NonzeroExtents(d)
  {
    InFace(d.Bxm, d.DyBxm / d.Dy, d.DzBxm / d.Dz, y, z)
  }

  function YpFace(d: CellData, x: real, z: real): real
    requires NonzeroExtents(d)
  {
    InFace(d.Byp, d.DxByp / d.Dx, d.DzByp / d.Dz, x, z)
  }

  function YmFace(d: CellData, x: real, z: real): real
    requires NonzeroExtents(d)
  {
    InFace(d.Bym, d.DxBym / d.Dx, d.DzBym / d.Dz, x, z)
  }

  function ZpFace(d: CellData, x: real, y: real): real
    requires NonzeroExtents(d)
  {
    InFace(d.Bzp, d.DxBzp / d.Dx, d.DyBzp / d.Dy, x, y)
  }

  function ZmFace(d: CellData, x: real, y: real): real
    requires NonzeroExtents(d)
  {
    InFace(d.Bzm, d.DxBzm / d.Dx, d.DyBzm / d.Dy, x, y)
  }

  /** A pair of opposite-face equations: a part `u + w x` of one component,
      where x is the coordinate across the faces, takes the value p on the face
      x = h and m on the face x = -h. */
  predicate OppositeFaces(h: real, p: real, m: real, u: real, w: real) {
    u + w * h == p && u - w * h == m
  }

  /** The normal pair of a family: an offset a and a curvature k, which on the
      faces x = +-h contribute `a + k h^2`, and the normal slope w. */
  predicate NormalFaces(h: real, p: real, m: real, a: real, k: real, w: real) {
    OppositeFaces(h, p, m, a + k * (h * h), w)
  }

  /** The x-face equations: on each x face, the constant, y and z parts of Bx
      are the face average and the two slopes given there. */
  predicate XFaceEquations(d: CellData, c: Coeffs)
    requires NonzeroExtents(d)
  {
    && NormalFaces(d.Dx / 2.0, d.Bxp, d.Bxm, c.a0, c.axx, c.ax)
    && OppositeFaces(d.Dx / 2.0, d.DyBxp / d.Dy, d.DyBxm / d.Dy, c.ay, c.axy)
    && OppositeFaces(d.Dx / 2.0, d.DzBxp / d.Dz, d.DzBxm / d.Dz, c.az, c.axz)
  }

  /** The same for the y faces and By, and for the z faces and Bz. */
  predicate YFaceEquations(d: CellData, c: Coeffs)
    requires NonzeroExtents(d)
  {
    && NormalFaces(d.Dy / 2.0, d.Byp, d.Bym, c.b0, c.byy, c.by_)
    && OppositeFaces(d.Dy / 2.0, d.DzByp / d.Dz, d.DzBym / d.Dz, c.bz, c.byz)
    && OppositeFaces(d.Dy / 2.0, d.DxByp / d.Dx, d.DxBym / d.Dx, c.bx, c.bxy)
  }

  predicate ZFaceEquations(d: CellData, c: Coeffs)
    requires NonzeroExtents(d)
  {
    && NormalFaces(d.Dz / 2.0, d.Bzp, d.Bzm, c.c0, c.czz, c.cz)
    && OppositeFaces(d.Dz / 2.0, d.DxBzp / d.Dx, d.DxBzm / d.Dx, c.cx, c.cxz)
    && OppositeFaces(d.Dz / 2.0, d.DyBzp / d.Dy, d.DyBzm / d.Dy, c.cy, c.cyz)
  }

  /** Bx on the two x faces of the cell, as a linear function of y and z. */
  lemma BxOnXFaces(d: CellData, c: Coeffs, y: real, z: real)
    ensures EvalBx(c, d.Dx / 2.0, y, z)
            == InFace(c.a0 + c.axx * ((d.Dx / 2.0) * (d.Dx / 2.0)) + c.ax * (d.Dx / 2.0),
                      c.ay + c.axy * (d.Dx / 2.0), c.az + c.axz * (d.Dx / 2.0), y, z)
    ensures EvalBx(c, -d.Dx / 2.0, y, z)
            == InFace(c.a0 + c.axx * ((d.Dx / 2.0) * (d.Dx / 2.0)) - c.ax * (d.Dx / 2.0),
                      c.ay - c.axy * (d.Dx / 2.0), c.az - c.axz * (d.Dx / 2.0), y, z)
  {
  }

  /** By on the two y faces, as a linear function of x and z. */
  lemma ByOnYFaces(d: CellData, c: Coeffs, x: real, z: real)
    ensures EvalBy(c, x, d.Dy / 2.0, z)
            == InFace(c.b0 + c.byy * ((d.Dy / 2.0) * (d.Dy / 2.0)) + c.by_ * (d.Dy / 2.0),
                      c.bx + c.bxy * (d.Dy / 2.0), c.bz + c.byz * (d.Dy / 2.0), x, z)
    ensures EvalBy(c, x, -d.Dy / 2.0, z)
            == InFace(c.b0 + c.byy * ((d.Dy / 2.0) * (d.Dy / 2.0)) - c.by_ * (d.Dy / 2.0),
                      c.bx - c.bxy * (d.Dy / 2.0), c.bz - c.byz * (d.Dy / 2.0), x, z)
  {
  }

  /** Bz on the two z faces, as a linear function of x and y. */
  lemma BzOnZFaces(d: CellData, c: Coeffs, x: real, y: real)
    ensures EvalBz(c, x, y, d.Dz / 2.0)
            == InFace(c.c0 + c.czz * ((d.Dz / 2.0) * (d.Dz / 2.0)) + c.cz * (d.Dz / 2.0),
                      c.cx + c.cxz * (d.Dz / 2.0), c.cy + c.cyz * (d.Dz / 2.0), x, y)
    ensures EvalBz(c, x, y, -d.Dz / 2.0)
            == InFace(c.c0 + c.czz * ((d.Dz / 2.0) * (d.Dz / 2.0)) - c.cz * (d.Dz / 2.0),
                      c.cx - c.cxz * (d.Dz / 2.0), c.cy - c.cyz * (d.Dz / 2.0), x, y)
  {
  }

  /** Coefficients whose Bx takes the given variation on both x faces. */
  ghost predicate ReproducesXFaces(d: CellData, c: Coeffs)
    requires NonzeroExtents(d)
  {
    forall y: real, z: real ::
      EvalBx(c, d.Dx / 2.0, y, z) == XpFace(d, y, z) && EvalBx(c, -d.Dx / 2.0, y, z) == XmFace(d, y, z)
  }

  ghost predicate ReproducesYFaces(d: CellData, c: Coeffs)
    requires NonzeroExtents(d)
  {
    forall x: real, z: real ::
      EvalBy(c, x, d.Dy / 2.0, z) == YpFace(d, x, z) && EvalBy(c, x, -d.Dy / 2.0, z) == YmFace(d, x, z)
  }

  ghost predicate ReproducesZFaces(d: CellData, c: Coeffs)
    requires NonzeroExtents(d)
  {
    forall x: real, y: real ::
      EvalBz(c, x, y, d.Dz / 2.0) == ZpFace(d, x, y) && EvalBz(c, x, y, -d.Dz / 2.0) == ZmFace(d, x, y)
  }

  /** Bx reproduces both x faces at every in-face position exactly when the
      x-face equations hold. */
  lemma XFaceEquationsIff(d: CellData, c: Coeffs)
    requires NonzeroExtents(d)
    ensures ReproducesXFaces(d, c) <==> XFaceEquations(d, c)
  {
    if XFaceEquations(d, c) {
      forall y: real, z: real
        ensures EvalBx(c, d.Dx / 2.0, y, z) == XpFace(d, y, z) && EvalBx(c, -d.Dx / 2.0, y, z) == XmFace(d, y, z)
      {
        BxOnXFaces(d, c, y, z);
      }
    }
    if ReproducesXFaces(d, c) {
      // read the equations off the faces at three in-face points
      BxOnXFaces(d, c, 0.0, 0.0);
      assert EvalBx(c, d.Dx / 2.0, 0.0, 0.0) == XpFace(d, 0.0, 0.0) && EvalBx(c, -d.Dx / 2.0, 0.0, 0.0) == XmFace(d, 0.0, 0.0);
      assert NormalFaces(d.Dx / 2.0, d.Bxp, d.Bxm, c.a0, c.axx, c.ax);
      BxOnXFaces(d, c, 1.0, 0.0);
      assert EvalBx(c, d.Dx / 2.0, 1.0, 0.0) == XpFace(d, 1.0, 0.0) && EvalBx(c, -d.Dx / 2.0, 1.0, 0.0) == XmFace(d, 1.0, 0.0);
      assert OppositeFaces(d.Dx / 2.0, d.DyBxp / d.Dy, d.DyBxm / d.Dy, c.ay, c.axy);
      BxOnXFaces(d, c, 0.0, 1.0);
      assert EvalBx(c, d.Dx / 2.0, 0.0, 1.0) == XpFace(d, 0.0, 1.0) && EvalBx(c, -d.Dx / 2.0, 0.0, 1.0) == XmFace(d, 0.0, 1.0);
      assert OppositeFaces(d.Dx / 2.0, d.DzBxp / d.Dz, d.DzBxm / d.Dz, c.az, c.axz);
    }
  }

  /** By reproduces both y faces at every in-face position exactly when the
      y-face equations hold. */
  lemma YFaceEquationsIff(d: CellData, c: Coeffs)
    requires NonzeroExtents(d)
    ensures ReproducesYFaces(d, c) <==> YFaceEquations(d, c)
  {
    if YFaceEquations(d, c) {
      forall x: real, z: real
        ensures EvalBy(c, x, d.Dy / 2.0, z) == YpFace(d, x, z) && EvalBy(c, x, -d.Dy / 2.0, z) == YmFace(d, x, z)
      {
        ByOnYFaces(d, c, x, z);
      }
    }
    if ReproducesYFaces(d, c) {
      // read the equations off the faces at three in-face points
      ByOnYFaces(d, c, 0.0, 0.0);
      assert EvalBy(c, 0.0, d.Dy / 2.0, 0.0) == YpFace(d, 0.0, 0.0) && EvalBy(c, 0.0, -d.Dy / 2.0, 0.0) == YmFace(d, 0.0, 0.0);
      assert NormalFaces(d.Dy / 2.0, d.Byp, d.Bym, c.b0, c.byy, c.by_);
      ByOnYFaces(d, c, 1.0, 0.0);
      assert EvalBy(c, 1.0, d.Dy / 2.0, 0.0) == YpFace(d, 1.0, 0.0) && EvalBy(c, 1.0, -d.Dy / 2.0, 0.0) == YmFace(d, 1.0, 0.0);
      assert OppositeFaces(d.Dy / 2.0, d.DxByp / d.Dx, d.DxBym / d.Dx, c.bx, c.bxy);
      ByOnYFaces(d, c, 0.0, 1.0);
      assert EvalBy(c, 0.0, d.Dy / 2.0, 1.0) == YpFace(d, 0.0, 1.0) && EvalBy(c, 0.0, -d.Dy / 2.0, 1.0) == YmFace(d, 0.0, 1.0);
      assert OppositeFaces(d.Dy / 2.0, d.DzByp / d.Dz, d.DzBym / d.Dz, c.bz, c.byz);
    }
  }

  /** Bz reproduces both z faces at every in-face position exactly when the
      z-face equations hold. */
  lemma ZFaceEquationsIff(d: CellData, c: Coeffs)
    requires NonzeroExtents(d)
    ensures ReproducesZFaces(d, c) <==> ZFaceEquations(d, c)
  {
    if ZFaceEquations(d, c) {
      forall x: real, y: real
        ensures EvalBz(c, x, y, d.Dz / 2.0) == ZpFace(d, x, y) && EvalBz(c, x, y, -d.Dz / 2.0) == ZmFace(d, x, y)
      {
        BzOnZFaces(d, c, x, y);
      }
    }
    if ReproducesZFaces(d, c) {
      // read the equations off the faces at three in-face points
      BzOnZFaces(d, c, 0.0, 0.0);
      assert EvalBz(c, 0.0, 0.0, d.Dz / 2.0) == ZpFace(d, 0.0, 0.0) && EvalBz(c, 0.0, 0.0, -d.Dz / 2.0) == ZmFace(d, 0.0, 0.0);
      assert NormalFaces(d.Dz / 2.0, d.Bzp, d.Bzm, c.c0, c.czz, c.cz);
      BzOnZFaces(d, c, 1.0, 0.0);
      assert EvalBz(c, 1.0, 0.0, d.Dz / 2.0) == ZpFace(d, 1.0, 0.0) && EvalBz(c, 1.0, 0.0, -d.Dz / 2.0) == ZmFace(d, 1.0, 0.0);
      assert OppositeFaces(d.Dz / 2.0, d.DxBzp / d.Dx, d.DxBzm / d.Dx, c.cx, c.cxz);
      BzOnZFaces(d, c, 0.0, 1.0);
      assert EvalBz(c, 0.0, 1.0, d.Dz / 2.0) == ZpFace(d, 0.0, 1.0) && EvalBz(c, 0.0, 1.0, -d.Dz / 2.0) == ZmFace(d, 0.0, 1.0);
      assert OppositeFaces(d.Dz / 2.0, d.DyBzp / d.Dy, d.DyBzm / d.Dy, c.cy, c.cyz);
    }
  }

  /** One family of the routine's formulas solves that family's face
      equations, whatever its curvature k. The family is given by the extent D
      across its faces, the face averages Bp, Bm and the two pairs of tangential
      slopes p, m and s, t; its coefficients are the offset u, the normal slope w,
      the two tangential means g, j and the two bilinear terms q, r. */
  lemma FamilySolves(D: real, Bp: real, Bm: real, p: real, m: real, s: real, t: real,
                     k: real, u: real, w: real, g: real, q: real, j: real, r: real)
    requires D != 0.0
    requires u == Offset(Bp, Bm, k, D) && w == Slope(Bp, Bm, D)
    requires g == Mean(p, m) && q == Slope(p, m, D)
    requires j == Mean(s, t) && r == Slope(s, t, D)
    ensures NormalFaces(D / 2.0, Bp, Bm, u, k, w)
    ensures OppositeFaces(D / 2.0, p, m, g, q)
    ensures OppositeFaces(D / 2.0, s, t, j, r)
  {
    HalfExtent(Bp - Bm, D);
    HalfExtent(p - m, D);
    HalfExtent(s - t, D);
  }

  /** A difference quotient over an extent, times the half-extent. */
  lemma HalfExtent(a: real, D: real)
    requires D != 0.0
    ensures a / D * (D / 2.0) == 0.5 * a
  {
  }

  /** The routine's x family, in terms of the four formula shapes ... */
  lemma CoeffXFamily(d: CellData)
    requires NonzeroExtents(d)
    ensures Coeff(d).a0 == Offset(d.Bxp, d.Bxm, Coeff(d).axx, d.Dx)
    ensures Coeff(d).ax == Slope(d.Bxp, d.Bxm, d.Dx)
    ensures Coeff(d).ay == Mean(d.DyBxp / d.Dy, d.DyBxm / d.Dy)
    ensures Coeff(d).axy == Slope(d.DyBxp / d.Dy, d.DyBxm / d.Dy, d.Dx)
    ensures Coeff(d).az == Mean(d.DzBxp / d.Dz, d.DzBxm / d.Dz)
    ensures Coeff(d).axz == Slope(d.DzBxp / d.Dz, d.DzBxm / d.Dz, d.Dx)
  {
  }

  /** ... its y family ... */
  lemma CoeffYFamily(d: CellData)
    requires NonzeroExtents(d)
    ensures Coeff(d).b0 == Offset(d.Byp, d.Bym, Coeff(d).byy, d.Dy)
    ensures Coeff(d).by_ == Slope(d.Byp, d.Bym, d.Dy)
    ensures Coeff(d).bz == Mean(d.DzByp / d.Dz, d.DzBym / d.Dz)
    ensures Coeff(d).byz == Slope(d.DzByp / d.Dz, d.DzBym / d.Dz, d.Dy)
    ensures Coeff(d).bx == Mean(d.DxByp / d.Dx, d.DxBym / d.Dx)
    ensures Coeff(d).bxy == Slope(d.DxByp / d.Dx, d.DxBym / d.Dx, d.Dy)
  {
  }

  /** ... and its z family. */
  lemma CoeffZFamily(d: CellData)
    requires NonzeroExtents(d)
    ensures Coeff(d).c0 == Offset(d.Bzp, d.Bzm, Coeff(d).czz, d.Dz)
    ensures Coeff(d).cz == Slope(d.Bzp, d.Bzm, d.Dz)
    ensures Coeff(d).cx == Mean(d.DxBzp / d.Dx, d.DxBzm / d.Dx)
    ensures Coeff(d).cxz == Slope(d.DxBzp / d.Dx, d.DxBzm / d.Dx, d.Dz)
    ensures Coeff(d).cy == Mean(d.DyBzp / d.Dy, d.DyBzm / d.Dy)
    ensures Coeff(d).cyz == Slope(d.DyBzp / d.Dy, d.DyBzm / d.Dy, d.Dz)
  {
  }

  /** The routine's x family solves the x-face equations ... */
  lemma CoeffXFaceEquations(d: CellData)
    requires NonzeroExtents(d)
    ensures XFaceEquations(d, Coeff(d))
  {
    CoeffXFamily(d);
    FamilySolves(d.Dx, d.Bxp, d.Bxm, d.DyBxp / d.Dy, d.DyBxm / d.Dy,
                 d.DzBxp / d.Dz, d.DzBxm / d.Dz, Coeff(d).axx,
                 Coeff(d).a0, Coeff(d).ax, Coeff(d).ay, Coeff(d).axy, Coeff(d).az, Coeff(d).axz);
  }

  /** ... its y family the y-face equations ... */
  lemma CoeffYFaceEquations(d: CellData)
    requires NonzeroExtents(d)
    ensures YFaceEquations(d, Coeff(d))
  {
    CoeffYFamily(d);
    FamilySolves(d.Dy, d.Byp, d.Bym, d.DzByp / d.Dz, d.DzBym / d.Dz,
                 d.DxByp / d.Dx, d.DxBym / d.Dx, Coeff(d).byy,
                 Coeff(d).b0, Coeff(d).by_, Coeff(d).bz, Coeff(d).byz, Coeff(d).bx, Coeff(d).bxy);
  }

  /** ... and its z family the z-face equations. */
  lemma CoeffZFaceEquations(d: CellData)
    requires NonzeroExtents(d)
    ensures ZFaceEquations(d, Coeff(d))
  {
    CoeffZFamily(d);
    FamilySolves(d.Dz, d.Bzp, d.Bzm, d.DxBzp / d.Dx, d.DxBzm / d.Dx,
                 d.DyBzp / d.Dy, d.DyBzm / d.Dy, Coeff(d).czz,
                 Coeff(d).c0, Coeff(d).cz, Coeff(d).cx, Coeff(d).cxz, Coeff(d).cy, Coeff(d).cyz);
  }

  /** Bx on the faces x = +Dx/2 and x = -Dx/2 is the variation given there. */
  lemma XFaceReproduction(d: CellData, y: real, z: real)
    requires NonzeroExtents(d)
    ensures EvalBx(Coeff(d), d.Dx / 2.0, y, z) == XpFace(d, y, z)
    ensures EvalBx(Coeff(d), -d.Dx / 2.0, y, z) == XmFace(d, y, z)
  {
    CoeffXFaceEquations(d);
    XFaceEquationsIff(d, Coeff(d));
  }

  /** By on the faces y = +Dy/2 and y = -Dy/2 is the variation given there. */
  lemma YFaceReproduction(d: CellData, x: real, z: real)
    requires NonzeroExtents(d)
    ensures EvalBy(Coeff(d), x, d.Dy / 2.0, z) == YpFace(d, x, z)
    ensures EvalBy(Coeff(d), x, -d.Dy / 2.0, z) == YmFace(d, x, z)
  {
    CoeffYFaceEquations(d);
    YFaceEquationsIff(d, Coeff(d));
  }

  /** Bz on the faces z = +Dz/2 and z = -Dz/2 is the variation given there. */
  lemma ZFaceReproduction(d: CellData, x: real, y: real)
    requires NonzeroExtents(d)
    ensures EvalBz(Coeff(d), x, y, d.Dz / 2.0) == ZpFace(d, x, y)
    ensures EvalBz(Coeff(d), x, y, -d.Dz / 2.0) == ZmFace(d, x, y)
  {
    CoeffZFaceEquations(d);
    ZFaceEquationsIff(d, Coeff(d));
  }

  /** The three identities that make the divergence independent of position:
      each says that the divergence does not change along one axis. */
  predicate CrossTalk(c: Coeffs) {
    && 2.0 * c.axx + c.bxy + c.cxz == 0.0
    && c.axy + 2.0 * c.byy + c.cyz == 0.0
    && c.axz + c.byz + 2.0 * c.czz == 0.0
  }

  /** Coefficients whose divergence is the same at every point. */
  ghost predicate UniformDivergence(c: Coeffs) {
    forall x: real, y: real, z: real :: Divergence(c, x, y, z) == c.ax + c.by_ + c.cz
  }

  /** The divergence is the same everywhere exactly when the cross-talk
      identities hold. */
  lemma CrossTalkIff(c: Coeffs)
    ensures UniformDivergence(c) <==> CrossTalk(c)
  {
    if UniformDivergence(c) {
      assert Divergence(c, 1.0, 0.0, 0.0) == c.ax + c.by_ + c.cz;
      assert Divergence(c, 0.0, 1.0, 0.0) == c.ax + c.by_ + c.cz;
      assert Divergence(c, 0.0, 0.0, 1.0) == c.ax + c.by_ + c.cz;
    }
    if CrossTalk(c) {
      forall x: real, y: real, z: real
        ensures Divergence(c, x, y, z) == c.ax + c.by_ + c.cz
      {
        assert Divergence(c, x, y, z)
            == (c.ax + c.by_ + c.cz) + (2.0 * c.axx + c.bxy + c.cxz) * x
               + (c.axy + 2.0 * c.byy + c.cyz) * y + (c.axz + c.byz + 2.0 * c.czz) * z;
      }
    }
  }

  /** What a reconstruction is asked to be: a field of the quadratic form that
      reproduces the variation given on all six faces and whose divergence does
      not depend on position. */
  ghost predicate IsReconstruction(d: CellData, c: Coeffs)
    requires NonzeroExtents(d)
  {
    ReproducesXFaces(d, c) && ReproducesYFaces(d, c) && ReproducesZFaces(d, c) && UniformDivergence(c)
  }

  /** A pair of opposite-face equations with h nonzero has one solution. */
  lemma PairDetermined(h: real, p: real, m: real, u: real, w: real, u': real, w': real)
    requires h != 0.0
    requires OppositeFaces(h, p, m, u, w) && OppositeFaces(h, p, m, u', w')
    ensures u == u' && w == w'
  {
    assert (w - w') * h == 0.0;
  }

  /** The normal pair: the offset a and curvature k enter the faces x = +-h
      only as `a + k h^2`, so that sum and the normal slope w are fixed, and
      the offset is fixed once the curvature is. */
  lemma NormalPairDetermined(h: real, p: real, m: real, a: real, k: real, w: real, a': real, k': real, w': real)
    requires h != 0.0
    requires NormalFaces(h, p, m, a, k, w) && NormalFaces(h, p, m, a', k', w')
    ensures w == w' && a + k * (h * h) == a' + k' * (h * h)
    ensures k == k' ==> a == a'
  {
    PairDetermined(h, p, m, a + k * (h * h), w, a' + k' * (h * h), w');
  }

  /** Two solutions of the x-face equations share every x-family coefficient
      but the curvature, and the offset as soon as they share the curvature. */
  lemma XEquationsDetermine(d: CellData, c: Coeffs, e: Coeffs)
    requires NonzeroExtents(d) && XFaceEquations(d, c) && XFaceEquations(d, e)
    ensures c.ax == e.ax && c.ay == e.ay && c.az == e.az && c.axy == e.axy && c.axz == e.axz
    ensures c.axx == e.axx ==> c.a0 == e.a0
  {
    NormalPairDetermined(d.Dx / 2.0, d.Bxp, d.Bxm, c.a0, c.axx, c.ax, e.a0, e.axx, e.ax);
    PairDetermined(d.Dx / 2.0, d.DyBxp / d.Dy, d.DyBxm / d.Dy, c.ay, c.axy, e.ay, e.axy);
    PairDetermined(d.Dx / 2.0, d.DzBxp / d.Dz, d.DzBxm / d.Dz, c.az, c.axz, e.az, e.axz);
  }

  /** The same for the y faces ... */
  lemma YEquationsDetermine(d: CellData, c: Coeffs, e: Coeffs)
    requires NonzeroExtents(d) && YFaceEquations(d, c) && YFaceEquations(d, e)
    ensures c.by_ == e.by_ && c.bz == e.bz && c.bx == e.bx && c.byz == e.byz && c.bxy == e.bxy
    ensures c.byy == e.byy ==> c.b0 == e.b0
  {
    NormalPairDetermined(d.Dy / 2.0, d.Byp, d.Bym, c.b0, c.byy, c.by_, e.b0, e.byy, e.by_);
    PairDetermined(d.Dy / 2.0, d.DzByp / d.Dz, d.DzBym / d.Dz, c.bz, c.byz, e.bz, e.byz);
    PairDetermined(d.Dy / 2.0, d.DxByp / d.Dx, d.DxBym / d.Dx, c.bx, c.bxy, e.bx, e.bxy);
  }

  /** ... and for the z faces. */
  lemma ZEquationsDetermine(d: CellData, c: Coeffs, e: Coeffs)
    requires NonzeroExtents(d) && ZFaceEquations(d, c) && ZFaceEquations(d, e)
    ensures c.cz == e.cz && c.cx == e.cx && c.cy == e.cy && c.cxz == e.cxz && c.cyz == e.cyz
    ensures c.czz == e.czz ==> c.c0 == e.c0
  {
    NormalPairDetermined(d.Dz / 2.0, d.Bzp, d.Bzm, c.c0, c.czz, c.cz, e.c0, e.czz, e.cz);
    PairDetermined(d.Dz / 2.0, d.DxBzp / d.Dx, d.DxBzm / d.Dx, c.cx, c.cxz, e.cx, e.cxz);
    PairDetermined(d.Dz / 2.0, d.DyBzp / d.Dy, d.DyBzm / d.Dy, c.cy, c.cyz, e.cy, e.cyz);
  }

  /** The face equations fix every coefficient but the three curvature terms,
      and those only through the offsets; the cross-talk identities fix the
      curvature terms. So two solutions of both are equal. */
  lemma EquationsDetermineCoeffs(d: CellData, c: Coeffs, e: Coeffs)
    requires NonzeroExtents(d)
    requires XFaceEquations(d, c) && YFaceEquations(d, c) && ZFaceEquations(d, c) && CrossTalk(c)
    requires XFaceEquations(d, e) && YFaceEquations(d, e) && ZFaceEquations(d, e) && CrossTalk(e)
    ensures c == e
  {
    XEquationsDetermine(d, c, e);
    YEquationsDetermine(d, c, e);
    ZEquationsDetermine(d, c, e);
    assert c.axx == e.axx && c.byy == e.byy && c.czz == e.czz;
  }


  /** The routine's result is a reconstruction of the cell. */
  lemma CoeffIsReconstruction(d: CellData)
    requires NonzeroExtents(d)
    ensures IsReconstruction(d, Coeff(d))
  {
    CoeffXFaceEquations(d);
    CoeffYFaceEquations(d);
    CoeffZFaceEquations(d);
    XFaceEquationsIff(d, Coeff(d));
    YFaceEquationsIff(d, Coeff(d));
    ZFaceEquationsIff(d, Coeff(d));
    CrossTalkIff(Coeff(d));
  }

  /** It is the only one: any coefficients that reproduce the six faces and
      have a position-independent divergence are the routine's. */
  lemma ReconstructionIsUnique(d: CellData, c: Coeffs)
    requires NonzeroExtents(d) && IsReconstruction(d, c)
    ensures c == Coeff(d)
  {
    XFaceEquationsIff(d, c);
    YFaceEquationsIff(d, c);
    ZFaceEquationsIff(d, c);
    CrossTalkIff(c);
    CoeffXFaceEquations(d);
    CoeffYFaceEquations(d);
    CoeffZFaceEquations(d);
    EquationsDetermineCoeffs(d, c, Coeff(d));
  }

  /** The routine is characterised by what it is asked to be. */
  lemma ReconstructionCharacterised(d: CellData, c: Coeffs)
    requires NonzeroExtents(d)
    ensures IsReconstruction(d, c) <==> c == Coeff(d)
  {
    CoeffIsReconstruction(d);
    if IsReconstruction(d, c) {
      ReconstructionIsUnique(d, c);
    }
  }

  /** The position-dependent part of the divergence cancels: div B is the
      discrete divergence of the face averages at every point. */
  lemma DivergenceIsConstant(d: CellData, x: real, y: real, z: real)
    requires NonzeroExtents(d)
    ensures Divergence(Coeff(d), x, y, z) == FaceDivergence(d)
  {
    CrossTalkIff(Coeff(d));
  }

  /** The field is divergence-free everywhere exactly when the face averages
      have zero discrete divergence. */
  lemma DivergenceFreeIff(d: CellData)
    requires NonzeroExtents(d)
    ensures (forall x: real, y: real, z: real :: Divergence(Coeff(d), x, y, z) == 0.0)
            <==> FaceDivergence(d) == 0.0
  {
    forall x: real, y: real, z: real
      ensures Divergence(Coeff(d), x, y, z) == FaceDivergence(d)
    {
      DivergenceIsConstant(d, x, y, z);
    }
    assert Divergence(Coeff(d), 0.0, 0.0, 0.0) == FaceDivergence(d);
  }

  /** The offsets: with the curvature contribution over the half-extent added
      back, each offset is the mean of its two face averages. */
  lemma OffsetIdentity(d: CellData)
    requires NonzeroExtents(d)
    ensures Coeff(d).a0 + Coeff(d).axx * (d.Dx * d.Dx) / 4.0 == (d.Bxp + d.Bxm) / 2.0
    ensures Coeff(d).b0 + Coeff(d).byy * (d.Dy * d.Dy) / 4.0 == (d.Byp + d.Bym) / 2.0
    ensures Coeff(d).c0 + Coeff(d).czz * (d.Dz * d.Dz) / 4.0 == (d.Bzp + d.Bzm) / 2.0
  {
  }

  /** A cell whose opposite faces carry the same average and no tangential
      variation. */
  predicate UniformFaces(d: CellData) {
    && d.Bxp == d.Bxm && d.Byp == d.Bym && d.Bzp == d.Bzm
    && d.DyBxp == 0.0 && d.DzBxp == 0.0 && d.DyBxm == 0.0 && d.DzBxm == 0.0
    && d.DxByp == 0.0 && d.DzByp == 0.0 && d.DxBym == 0.0 && d.DzBym == 0.0
    && d.DxBzp == 0.0 && d.DyBzp == 0.0 && d.DxBzm == 0.0 && d.DyBzm == 0.0
  }

  /** The coefficients of a constant field (a0, b0, c0). */
  function Constant(a0: real, b0: real, c0: real): Coeffs {
    Coeffs(a0, 0.0, 0.0, 0.0, 0.0, 0.0, 0.0,
           b0, 0.0, 0.0, 0.0, 0.0, 0.0, 0.0,
           c0, 0.0, 0.0, 0.0, 0.0, 0.0, 0.0)
  }

  /** Coefficients whose every non-constant term is zero. */
  predicate IsConstantField(c: Coeffs) {
    c == Constant(c.a0, c.b0, c.c0)
  }

  /** A uniform cell reconstructs to the constant field of its face averages. */
  lemma UniformCellGivesConstant(d: CellData)
    requires NonzeroExtents(d) && UniformFaces(d)
    ensures Coeff(d) == Constant(d.Bxp, d.Byp, d.Bzp)
  {
  }

  /** Only a uniform cell reconstructs to a constant field. */
  lemma ConstantOnlyFromUniform(d: CellData)
    requires NonzeroExtents(d) && IsConstantField(Coeff(d))
    ensures UniformFaces(d)
  {
    var c := Coeff(d);
    assert c.ay == 0.0 && c.axy == 0.0 && c.az == 0.0 && c.axz == 0.0;
    assert c.bz == 0.0 && c.byz == 0.0 && c.bx == 0.0 && c.bxy == 0.0;
    assert c.cx == 0.0 && c.cxz == 0.0 && c.cy == 0.0 && c.cyz == 0.0;
    assert c.ax == 0.0 && c.by_ == 0.0 && c.cz == 0.0;
    SlopesVanish(d.DyBxp, d.DyBxm, d.Dy, d.Dx);
    SlopesVanish(d.DzBxp, d.DzBxm, d.Dz, d.Dx);
    SlopesVanish(d.DzByp, d.DzBym, d.Dz, d.Dy);
    SlopesVanish(d.DxByp, d.DxBym, d.Dx, d.Dy);
    SlopesVanish(d.DxBzp, d.DxBzm, d.Dx, d.Dz);
    SlopesVanish(d.DyBzp, d.DyBzm, d.Dy, d.Dz);
    DifferenceVanishes(d.Bxp, d.Bxm, d.Dx);
    DifferenceVanishes(d.Byp, d.Bym, d.Dy);
    DifferenceVanishes(d.Bzp, d.Bzm, d.Dz);
  }

  /** A tangential slope and a bilinear term that both vanish come only from two
      vanishing tangential-variation terms. */
  lemma SlopesVanish(p: real, m: real, t: real, n: real)
    requires t != 0.0 && n != 0.0
    requires 0.5 * (p / t + m / t) == 0.0 && (p / t - m / t) / n == 0.0
    ensures p == 0.0 && m == 0.0
  {
    assert p / t - m / t == 0.0;
    assert p / t == 0.0 && m / t == 0.0;
    assert p == p / t * t;
    assert m == m / t * t;
  }

  /** A vanishing normal slope comes only from equal face averages. */
  lemma DifferenceVanishes(p: real, m: real, n: real)
    requires n != 0.0 && (p - m) / n == 0.0
    ensures p == m
  {
    assert p - m == (p - m) / n * n;
  }

  /** A unit cube of side 2 with unit averages on every face and no tangential
      variation reconstructs to the constant field (1, 1, 1). */
  lemma UnitCellExample()
    ensures Coeff(CellData(2.0, 2.0, 2.0,
                           1.0, 0.0, 0.0, 1.0, 0.0, 0.0,
                           1.0, 0.0, 0.0, 1.0, 0.0, 0.0,
                           1.0, 0.0, 0.0, 1.0, 0.0, 0.0))
            == Constant(1.0, 1.0, 1.0)
  {
    UniformCellGivesConstant(CellData(2.0, 2.0, 2.0,
                                      1.0, 0.0, 0.0, 1.0, 0.0, 0.0,
                                      1.0, 0.0, 0.0, 1.0, 0.0, 0.0,
                                      1.0, 0.0, 0.0, 1.0, 0.0, 0.0));
  }
}
