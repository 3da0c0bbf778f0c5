# Divergence-free reconstruction in a hexahedral cell

This project models `balsara3d_coeff`, a closed-form routine after Balsara (2004).
It is used in constrained-transport magnetohydrodynamics. Its input is one
axis-aligned cell: the three extents `Dx, Dy, Dz` and, for each of the six faces,
the face-average normal magnetic field and two tangential-variation terms. Its
output is the 21 coefficients of a quadratic vector field on the local box
`-D/2 <= . <= D/2`:

    Bx = a0 + ax x + ay y + az z + axx x^2 + axy x y + axz x z
    By = b0 + bx x + by y + bz z + bxy x y + byy y^2 + byz y z
    Bz = c0 + cx x + cy y + cz z + cxz x z + cyz y z + czz z^2

The routine is straight-line arithmetic. The model is therefore pure functions
over `real` and lemmas about them:

- `balsara3d_coeff.dfy` (module `Balsara3dCoeff`) holds the input record
  `CellData` (the 21 parameters, in the routine's order and under its names) and
  the output record `Coeffs` (the 21 results, in tuple order). It also holds
  `Coeff`, the routine itself, with the same formulas in the same order, and the
  conversion to and from the positional 21-tuple. The routine writes every
  coefficient in one of four shapes, and the model names them: a difference
  quotient across the cell (`Slope`), a mean of two faces (`Mean`), a
  self-curvature ("cross-talk") term (`Curvature`) and an offset (`Offset`). The
  coefficient the routine calls `by` is `by_` here, because `by` is a Dafny
  keyword.
- `field.dfy` (module `Field`) evaluates the three components. It also writes out
  their partial derivatives and the divergence.
- `symmetry.dfy` (module `CyclicSymmetry`) holds the relabelling
  (x,y,z) -> (y,z,x), (a,b,c) -> (b,c,a) of inputs and outputs, which the
  routine's comments use to derive the y and z families from the x family.
- `reconstruction.dfy` (module `Reconstruction`) holds what the reconstruction
  promises: face reproduction, the divergence, the offsets and the uniform case.
  Face reproduction "for every in-face position" is shown equivalent to six
  equations per pair of opposite faces (`XFaceEquationsIff` and its y and z
  analogues). The routine's formulas solve those equations. The equations and
  the cross-talk identities have no other solution, so the routine's result is
  the only quadratic of this form that reproduces the six faces and whose
  divergence does not depend on position (`ReconstructionCharacterised`).

The routine calls itself a "Divergence-free reconstruction"
(balsara3d_coeff.py:6) and its first comment says it determines a
"divergence-free quadratic polynomial" (balsara3d_coeff.py:30). The code only
cancels the position-dependent part of the divergence. What is left is the
discrete divergence of the six face averages,
`(Bxp-Bxm)/Dx + (Byp-Bym)/Dy + (Bzp-Bzm)/Dz`, and the routine does not check
that this is zero. The model follows the code and proves that the field is
divergence-free exactly when that sum is zero (`DivergenceFreeIff`). The
routine has no error path of its own: a zero extent raises Python's
ZeroDivisionError at its first division (balsara3d_coeff.py:33-35). The model
states nonzero extents as a precondition of `Coeff`.

## Model

| member | source | states |
|---|---|---|
| Balsara3dCoeff.Coeff | balsara3d_coeff.py:30-65 | for nonzero extents the result satisfies the three cross-talk identities `2 axx + bxy + cxz = 0`, `axy + 2 byy + cyz = 0`, `axz + byz + 2 czz = 0`, and `ax + by + cz` is the discrete divergence of the face averages |
| Balsara3dCoeff.ToTuple | balsara3d_coeff.py:63-65 | the result is returned as a tuple of exactly 21 values, in the order of lines 63-65 (the order itself is fixed by the body) |
| Balsara3dCoeff.FromTupleToTuple | balsara3d_coeff.py:63-65 | sanity fact: unpacking the returned tuple positionally gives back every coefficient |
| Balsara3dCoeff.ToTupleFromTuple | balsara3d_coeff.py:21 | sanity fact: every 21-tuple is the tuple of exactly one coefficient record, so the tuple loses nothing (it does not by itself fix the order) |
| Field.CentralDifferenceX | balsara3d_coeff.py:21-24 | the written-out dBx/dx is the derivative of Bx: the central difference of Bx over any step h is exactly 2h times it |
| Field.CentralDifferenceY | balsara3d_coeff.py:21-24 | the same for dBy/dy and By |
| Field.CentralDifferenceZ | balsara3d_coeff.py:21-24 | the same for dBz/dz and Bz |
| CyclicSymmetry.RotateCellThrice | balsara3d_coeff.py:39 | sanity fact: relabelling the cell's axes three times gives back the cell |
| CyclicSymmetry.RotateCoeffsThrice | balsara3d_coeff.py:46 | sanity fact: relabelling the coefficients three times gives back the coefficients |
| CyclicSymmetry.CoeffCommutesWithRotation | balsara3d_coeff.py:33-61 | reconstructing the relabelled cell gives the relabelled coefficients, all 21 of them: the y and z families are the x family under the relabelling |
| CyclicSymmetry.RotatedField | balsara3d_coeff.py:39-46 | the relabelled coefficients describe the same field seen along relabelled axes: Bx' at (p,q,r) is By at (r,p,q), By' is Bz and Bz' is Bx |
| CyclicSymmetry.RotatedDivergence | balsara3d_coeff.py:30-31 | the divergence does not change under the relabelling |
| Reconstruction.XFaceEquationsIff | balsara3d_coeff.py:13-14 | Bx reproduces the linear variation on both x faces at every (y, z) if and only if `a0 + axx h^2 +- ax h` are the two face averages and `ay +- axy h`, `az +- axz h` the two faces' slopes, with h = Dx/2 |
| Reconstruction.YFaceEquationsIff | balsara3d_coeff.py:15-16 | the same for By on the y faces, with h = Dy/2 |
| Reconstruction.ZFaceEquationsIff | balsara3d_coeff.py:17-18 | the same for Bz on the z faces, with h = Dz/2 |
| Reconstruction.FamilySolves | balsara3d_coeff.py:33-37 | one family's formulas (normal slope, two tangential means, two bilinear terms, offset) solve that family's face equations, whatever its curvature term |
| Reconstruction.CoeffXFaceEquations | balsara3d_coeff.py:33-59 | the routine's x family solves the x-face equations |
| Reconstruction.CoeffYFaceEquations | balsara3d_coeff.py:40-60 | the routine's y family solves the y-face equations |
| Reconstruction.CoeffZFaceEquations | balsara3d_coeff.py:47-61 | the routine's z family solves the z-face equations |
| Reconstruction.XFaceReproduction | balsara3d_coeff.py:33-59 | for all y, z, Bx at x = +Dx/2 is `Bxp + (DyBxp/Dy) y + (DzBxp/Dz) z` and at x = -Dx/2 is `Bxm + (DyBxm/Dy) y + (DzBxm/Dz) z` |
| Reconstruction.YFaceReproduction | balsara3d_coeff.py:40-60 | for all x, z, By at y = +Dy/2 and y = -Dy/2 is the linear variation given on that y face |
| Reconstruction.ZFaceReproduction | balsara3d_coeff.py:47-61 | for all x, y, Bz at z = +Dz/2 and z = -Dz/2 is the linear variation given on that z face |
| Reconstruction.CrossTalkIff | balsara3d_coeff.py:53-56 | the divergence is the same at every point if and only if the three cross-talk identities hold |
| Reconstruction.XEquationsDetermine | balsara3d_coeff.py:33-37 | any two solutions of the x-face equations have the same ax, ay, az, axy, axz, and the same a0 once they have the same axx |
| Reconstruction.YEquationsDetermine | balsara3d_coeff.py:40-44 | the same for the y faces: by, bz, bx, byz, bxy, and b0 once byy agrees |
| Reconstruction.ZEquationsDetermine | balsara3d_coeff.py:47-51 | the same for the z faces: cz, cx, cy, cxz, cyz, and c0 once czz agrees |
| Reconstruction.EquationsDetermineCoeffs | balsara3d_coeff.py:53-61 | two coefficient sets that both solve all face equations and both satisfy the cross-talk identities are equal: the identities fix the curvature terms, and these the offsets |
| Reconstruction.CoeffIsReconstruction | balsara3d_coeff.py:30-31 | the result reproduces all six faces for every in-face position and its divergence is the same at every point |
| Reconstruction.ReconstructionIsUnique | balsara3d_coeff.py:54-61 | any coefficients that reproduce all six faces and have a position-independent divergence are exactly the routine's result |
| Reconstruction.ReconstructionCharacterised | balsara3d_coeff.py:30-65 | coefficients are a reconstruction of the cell (six faces reproduced, divergence position-independent) if and only if they are the routine's result |
| Reconstruction.DivergenceIsConstant | balsara3d_coeff.py:54-56 | at every point, dBx/dx + dBy/dy + dBz/dz equals the discrete divergence of the face averages |
| Reconstruction.DivergenceFreeIff | balsara3d_coeff.py:30-56 | the field is divergence-free at every point if and only if the face averages have zero discrete divergence |
| Reconstruction.OffsetIdentity | balsara3d_coeff.py:59-61 | `a0 + axx Dx^2/4 = (Bxp+Bxm)/2`, and likewise for b0 with byy, Dy and for c0 with czz, Dz |
| Reconstruction.UniformCellGivesConstant | balsara3d_coeff.py:33-61 | equal opposite averages and no tangential variation give the constant field `(Bxp, Byp, Bzp)`: the other 18 coefficients are zero |
| Reconstruction.ConstantOnlyFromUniform | balsara3d_coeff.py:33-61 | conversely, when all 18 non-constant coefficients are zero, the opposite averages are equal and every tangential-variation term is zero |
| Reconstruction.UnitCellExample | balsara3d_coeff.py:33-61 | `Dx=Dy=Dz=2`, all averages 1 and all tangential terms 0 give `a0=b0=c0=1` and all other coefficients 0 |

## Left out

- Floating-point rounding, NaN and infinities: every quantity is a `real`, and the identities are proved exactly. `Dx**2` is `Dx * Dx`.
- Balsara3dCoeff.Coeff: a zero extent is excluded by a precondition. The routine has no error path of its own; a zero extent raises Python's ZeroDivisionError at its first division (balsara3d_coeff.py:33-35), and that exception is not modelled.
- Evaluating the polynomial over a mesh, iterating over cells and extracting face data: callers do this, and none of it is in the repository. Only the evaluation functions needed to state the properties are modelled.
- The derivation from Balsara (2004): the properties are proved directly from the formulas.
