/** The reconstructed field: evaluation of the three quadratic components the
    coefficients describe, and their partial derivatives written out
    symbolically. */
module Field {
  import opened Balsara3dCoeff

  function EvalBx(c: Coeffs, x: real, y: real, z: real): real {
    c.a0 + c.ax * x + c.ay * y + c.az * z + c.axx * (x * x) + c.axy * (x * y) + c.axz * (x * z)
  }

  function EvalBy(c: Coeffs, x: real, y: real, z: real): real {
    c.b0 + c.bx * x + c.by_ * y + c.bz * z + c.bxy * (x * y) + c.byy * (y * y) + c.byz * (y * z)
  }

  function EvalBz(c: Coeffs, x: real, y: real, z: real): real {
    c.c0 + c.cx * x + c.cy * y + c.cz * z + c.cxz * (x * z) + c.cyz * (y * z) + c.czz * (z * z)
  }

  /** dBx/dx */
  function DBxDx(c: Coeffs, x: real, y: real, z: real): real {
    c.ax + 2.0 * c.axx * x + c.axy * y + c.axz * z
  }

  /** dBy/dy */
  function DByDy(c: Coeffs, x: real, y: real, z: real): real {
    c.by_ + c.bxy * x + 2.0 * c.byy * y + c.byz * z
  }

  /** dBz/dz */
  function DBzDz(c: Coeffs, x: real, y: real, z: real): real {
    c.cz + c.cxz * x + c.cyz * y + 2.0 * c.czz * z
  }

  /** div B at a point. */
  function Divergence(c: Coeffs, x: real, y: real, z: real): real {
    DBxDx(c, x, y, z) + DByDy(c, x, y, z) + DBzDz(c, x, y, z)
  }

  /** DBxDx is the x-derivative of EvalBx: Bx is quadratic in x, so its central
      difference over any step h is exactly 2 h times the derivative. */
  lemma CentralDifferenceX(c: Coeffs, x: real, y: real, z: real, h: real)
    ensures EvalBx(c, x + h, y, z) - EvalBx(c, x - h, y, z) == 2.0 * h * DBxDx(c, x, y, z)
  {
    assert (x + h) * (x + h) - (x - h) * (x - h) == 4.0 * x * h;
    assert (x + h) * y - (x - h) * y == 2.0 * h * y;
    assert (x + h) * z - (x - h) * z == 2.0 * h * z;
  }

  /** DByDy is the y-derivative of EvalBy. */
  lemma CentralDifferenceY(c: Coeffs, x: real, y: real, z: real, h: real)
    ensures EvalBy(c, x, y + h, z) - EvalBy(c, x, y - h, z) == 2.0 * h * DByDy(c, x, y, z)
  {
    assert (y + h) * (y + h) - (y - h) * (y - h) == 4.0 * y * h;
    assert x * (y + h) - x * (y - h) == 2.0 * h * x;
    assert (y + h) * z - (y - h) * z == 2.0 * h * z;
  }

  /** DBzDz is the z-derivative of EvalBz. */
  lemma CentralDifferenceZ(c: Coeffs, x: real, y: real, z: real, h: real)
    ensures EvalBz(c, x, y, z + h) - EvalBz(c, x, y, z - h) == 2.0 * h * DBzDz(c, x, y, z)
  {
    assert (z + h) * (z + h) - (z - h) * (z - h) == 4.0 * z * h;
    assert x * (z + h) - x * (z - h) == 2.0 * h * x;
    assert y * (z + h) - y * (z - h) == 2.0 * h * y;
  }
}
