/** Vector algebra of engine/Math3D.hpp (src/Math3D.hpp repeats the same text):
    the `*Atomic` operations on single vectors and the overloads that read
    entries of `Vec3Buffer`s and append the result to an output buffer.
    `double` is read as `real`; `std::sqrt` is the parameter `sqrt`. */
module Math3D {
  import opened DataTypes

  const ZeroVec := Vec3(0.0, 0.0, 0.0)

  /** The default tolerance of `VecEqualsAtomic`, 1e-6. */
  const DefaultEpsilon: real := 0.000001

  function AbsReal(r: real): real { if r < 0.0 then -r else r }

  function VecAddAtomic(a: Vec3, b: Vec3): Vec3
  {
    Vec3(a.x + b.x, a.y + b.y, a.z + b.z)
  }

  function VecSubAtomic(a: Vec3, b: Vec3): Vec3
  {
    Vec3(a.x - b.x, a.y - b.y, a.z - b.z)
  }

  function VecScaleAtomic(v: Vec3, s: real): Vec3
  {
    Vec3(v.x * s, v.y * s, v.z * s)
  }

  function VecDotAtomic(a: Vec3, b: Vec3): real
  {
    a.x * b.x + a.y * b.y + a.z * b.z
  }

  function VecCrossAtomic(a: Vec3, b: Vec3): Vec3
  {
    Vec3(a.y * b.z - a.z * b.y,
         a.z * b.x - a.x * b.z,
         a.x * b.y - a.y * b.x)
  }

  /** The Euclidean norm, with the square root left to the caller. */
  function VecLengthAtomic(v: Vec3, sqrt: real -> real): real
  {
    sqrt(v.x * v.x + v.y * v.y + v.z * v.z)
  }

  /** Zero-length vectors normalise to the zero vector instead of failing. */
  function VecNormalizeAtomic(v: Vec3, sqrt: real -> real): Vec3
  {
    var len := VecLengthAtomic(v, sqrt);
    if len == 0.0 then ZeroVec else VecScaleAtomic(v, 1.0 / len)
  }

  function VecNegateAtomic(v: Vec3): Vec3
  {
    Vec3(-v.x, -v.y, -v.z)
  }

  /** Absolute per-component comparison within `epsilon`. */
  predicate VecEqualsAtomic(a: Vec3, b: Vec3, epsilon: real)
  {
    AbsReal(a.x - b.x) < epsilon &&
    AbsReal(a.y - b.y) < epsilon &&
    AbsReal(a.z - b.z) < epsilon
  }

  /** The interpolation written out inside `VecLerp`. */
  function Lerp(a: Vec3, b: Vec3, t: real): Vec3
  {
    Vec3(a.x + (b.x - a.x) * t, a.y + (b.y - a.y) * t, a.z + (b.z - a.z) * t)
  }

  /** The vector `VecProject` appends: `b` scaled by dot(a,b)/dot(b,b). */
  function Projection(a: Vec3, b: Vec3): Vec3
    requires VecDotAtomic(b, b) != 0.0
  {
    VecScaleAtomic(b, VecDotAtomic(a, b) / VecDotAtomic(b, b))
  }

  function VecAbsAtomic(v: Vec3): Vec3
  {
    Vec3(AbsReal(v.x), AbsReal(v.y), AbsReal(v.z))
  }

  // ---- Algebraic properties over exact arithmetic ----

  lemma VecDotSymmetric(a: Vec3, b: Vec3)
    ensures VecDotAtomic(a, b) == VecDotAtomic(b, a)
  {
  }

  /** Negation undoes itself, and a vector plus its negation is zero. */
  lemma VecNegateInverse(v: Vec3)
    ensures VecNegateAtomic(VecNegateAtomic(v)) == v
    ensures VecAddAtomic(v, VecNegateAtomic(v)) == ZeroVec
    ensures VecSubAtomic(v, v) == ZeroVec
  {
  }

  /** The cross product is perpendicular to both factors and vanishes on a
      vector with itself. */
  lemma VecCrossOrthogonal(a: Vec3, b: Vec3)
    ensures VecDotAtomic(VecCrossAtomic(a, b), a) == 0.0
    ensures VecDotAtomic(VecCrossAtomic(a, b), b) == 0.0
    ensures VecCrossAtomic(a, a) == ZeroVec
  {
  }

  /** `VecEqualsAtomic` holds exactly when every component differs by less than
      `epsilon`; it is symmetric, and reflexive exactly when `epsilon > 0`. */
  lemma VecEqualsCharacterised(a: Vec3, b: Vec3, epsilon: real)
    ensures VecEqualsAtomic(a, b, epsilon) <==>
      (-epsilon < a.x - b.x < epsilon && -epsilon < a.y - b.y < epsilon && -epsilon < a.z - b.z < epsilon)
    ensures VecEqualsAtomic(a, b, epsilon) <==> VecEqualsAtomic(b, a, epsilon)
    ensures VecEqualsAtomic(a, a, epsilon) <==> epsilon > 0.0
  {
  }

  /** The zero vector normalises to itself, whatever the square root returns. */
  lemma VecNormalizeZero(sqrt: real -> real)
    ensures VecNormalizeAtomic(ZeroVec, sqrt) == ZeroVec
  {
  }

  /** When `sqrt` returns a positive root of the squared length, normalising
      gives a vector of unit squared length pointing the same way. */
  lemma VecNormalizeUnit(v: Vec3, sqrt: real -> real)
    requires sqrt(VecDotAtomic(v, v)) > 0.0
    requires sqrt(VecDotAtomic(v, v)) * sqrt(VecDotAtomic(v, v)) == VecDotAtomic(v, v)
    ensures VecDotAtomic(VecNormalizeAtomic(v, sqrt), VecNormalizeAtomic(v, sqrt)) == 1.0
    ensures exists k: real :: k > 0.0 && VecNormalizeAtomic(v, sqrt) == VecScaleAtomic(v, k)
  {
    var len := sqrt(VecDotAtomic(v, v));
    var k := 1.0 / len;
    assert VecLengthAtomic(v, sqrt) == len;
    assert VecNormalizeAtomic(v, sqrt) == VecScaleAtomic(v, k);
    ScaledSelfDot(v, k);
    InverseSquare(len);
  }

  lemma ScaledSelfDot(v: Vec3, k: real)
    ensures VecDotAtomic(VecScaleAtomic(v, k), VecScaleAtomic(v, k)) == (k * k) * VecDotAtomic(v, v)
  {
  }

  lemma InverseSquare(len: real)
    requires len > 0.0
    ensures (1.0 / len) * (1.0 / len) * (len * len) == 1.0
    ensures 1.0 / len > 0.0
  {
  }

  /** Interpolating with `t = 0` gives the start and with `t = 1` the end. */
  lemma LerpEndpoints(a: Vec3, b: Vec3)
    ensures Lerp(a, b, 0.0) == a
    ensures Lerp(a, b, 1.0) == b
  {
  }

  /** What remains of `a` after removing its projection on `b` is
      perpendicular to `b`, and projecting a projection changes nothing. */
  lemma ProjectionResidualOrthogonal(a: Vec3, b: Vec3)
    requires VecDotAtomic(b, b) != 0.0
    ensures VecDotAtomic(VecSubAtomic(a, Projection(a, b)), b) == 0.0
  {
    var s := VecDotAtomic(a, b) / VecDotAtomic(b, b);
    assert s * VecDotAtomic(b, b) == VecDotAtomic(a, b);
    calc {
      VecDotAtomic(VecSubAtomic(a, Projection(a, b)), b);
      (a.x - b.x * s) * b.x + (a.y - b.y * s) * b.y + (a.z - b.z * s) * b.z;
      VecDotAtomic(a, b) - s * VecDotAtomic(b, b);
      0.0;
    }
  }

  lemma VecAbsNonNegative(v: Vec3)
    ensures VecAbsAtomic(v).x >= 0.0 && VecAbsAtomic(v).y >= 0.0 && VecAbsAtomic(v).z >= 0.0
    ensures VecAbsAtomic(VecNegateAtomic(v)) == VecAbsAtomic(v)
  {
  }

  // ---- The Vec3Buffer overloads: each appends exactly one entry to `out` ----

  /** `VecAdd`: appends `a[ai] + b[bi]`. */
  method VecAdd(a: Vec3Buffer, ai: nat, b: Vec3Buffer, bi: nat, out: Vec3Buffer)
    requires a.Valid() && b.Valid() && out.Valid()
    requires ai < a.Size() && bi < b.Size()
    modifies out
    ensures out.Valid()
    ensures out.Entries() == old(out.Entries()) + [VecAddAtomic(old(a.At(ai)), old(b.At(bi)))]
  {
    out.PushBack(a.x[ai] + b.x[bi], a.y[ai] + b.y[bi], a.z[ai] + b.z[bi]);
  }

  /** The `VecSubAtomic` overload on buffers. */
  method VecSubBuffer(a: Vec3Buffer, ai: nat, b: Vec3Buffer, bi: nat, out: Vec3Buffer)
    requires a.Valid() && b.Valid() && out.Valid()
    requires ai < a.Size() && bi < b.Size()
    modifies out
    ensures out.Valid()
    ensures out.Entries() == old(out.Entries()) + [VecSubAtomic(old(a.At(ai)), old(b.At(bi)))]
  {
    var res := VecSubAtomic(a.At(ai), b.At(bi));
    out.PushBack(res.x, res.y, res.z);
  }

  /** The `VecScaleAtomic` overload on buffers. */
  method VecScaleBuffer(v: Vec3Buffer, vi: nat, s: real, out: Vec3Buffer)
    requires v.Valid() && out.Valid() && vi < v.Size()
    modifies out
    ensures out.Valid()
    ensures out.Entries() == old(out.Entries()) + [VecScaleAtomic(old(v.At(vi)), s)]
  {
    var res := VecScaleAtomic(v.At(vi), s);
    out.PushBack(res.x, res.y, res.z);
  }

  /** The `VecDotAtomic` overload on buffers; the result does not depend on the
      order of its operands. */
  function VecDotBuffer(a: Vec3Buffer, ai: nat, b: Vec3Buffer, bi: nat): (r: real)
    reads a, b
    requires a.Valid() && b.Valid() && ai < a.Size() && bi < b.Size()
    ensures r == VecDotAtomic(b.At(bi), a.At(ai))
  {
    VecDotAtomic(a.At(ai), b.At(bi))
  }

  /** The `VecCrossAtomic` overload on buffers. */
  method VecCrossBuffer(a: Vec3Buffer, ai: nat, b: Vec3Buffer, bi: nat, out: Vec3Buffer)
    requires a.Valid() && b.Valid() && out.Valid()
    requires ai < a.Size() && bi < b.Size()
    modifies out
    ensures out.Valid()
    ensures out.Entries() == old(out.Entries()) + [VecCrossAtomic(old(a.At(ai)), old(b.At(bi)))]
  {
    var res := VecCrossAtomic(a.At(ai), b.At(bi));
    out.PushBack(res.x, res.y, res.z);
  }

  /** The `VecLengthAtomic` overload on buffers: a vector and its negation
      have the same length. */
  function VecLengthBuffer(v: Vec3Buffer, vi: nat, sqrt: real -> real): (r: real)
    reads v
    requires v.Valid() && vi < v.Size()
    ensures r == VecLengthAtomic(VecNegateAtomic(v.At(vi)), sqrt)
  {
    NegateSelfDot(v.At(vi));
    VecLengthAtomic(v.At(vi), sqrt)
  }

  lemma NegateSelfDot(v: Vec3)
    ensures VecDotAtomic(VecNegateAtomic(v), VecNegateAtomic(v)) == VecDotAtomic(v, v)
  {
  }

  /** `VecDistance`: the length of `a[ai] - b[bi]`, which equals the length of
      `b[bi] - a[ai]` for any square root. */
  function VecDistance(a: Vec3Buffer, ai: nat, b: Vec3Buffer, bi: nat, sqrt: real -> real): (r: real)
    reads a, b
    requires a.Valid() && b.Valid() && ai < a.Size() && bi < b.Size()
    ensures r == VecLengthAtomic(VecSubAtomic(b.At(bi), a.At(ai)), sqrt)
  {
    SubSelfDotSymmetric(a.At(ai), b.At(bi));
    VecLengthAtomic(VecSubAtomic(a.At(ai), b.At(bi)), sqrt)
  }

  lemma SubSelfDotSymmetric(p: Vec3, q: Vec3)
    ensures VecDotAtomic(VecSubAtomic(p, q), VecSubAtomic(p, q)) == VecDotAtomic(VecSubAtomic(q, p), VecSubAtomic(q, p))
  {
  }

  /** `VecLerp`: appends `a[ai] + (b[bi] - a[ai]) * t`. */
  method VecLerp(a: Vec3Buffer, ai: nat, b: Vec3Buffer, bi: nat, t: real, out: Vec3Buffer)
    requires a.Valid() && b.Valid() && out.Valid()
    requires ai < a.Size() && bi < b.Size()
    modifies out
    ensures out.Valid()
    ensures out.Entries() == old(out.Entries()) + [Lerp(old(a.At(ai)), old(b.At(bi)), t)]
    ensures t == 0.0 ==> out.At(out.Size() - 1) == old(a.At(ai))
    ensures t == 1.0 ==> out.At(out.Size() - 1) == old(b.At(bi))
  {
    var va := a.At(ai);
    var vb := b.At(bi);
    var res := Lerp(va, vb, t);
    LerpEndpoints(va, vb);
    out.PushBack(res.x, res.y, res.z);
  }

  /** The `VecNormalizeAtomic` overload on buffers. */
  method VecNormalizeBuffer(v: Vec3Buffer, vi: nat, out: Vec3Buffer, sqrt: real -> real)
    requires v.Valid() && out.Valid() && vi < v.Size()
    modifies out
    ensures out.Valid()
    ensures out.Entries() == old(out.Entries()) + [VecNormalizeAtomic(old(v.At(vi)), sqrt)]
  {
    var res := VecNormalizeAtomic(v.At(vi), sqrt);
    out.PushBack(res.x, res.y, res.z);
  }

  /** `VecProject`: appends the projection of `a[ai]` on `b[bi]`. Dividing by
      dot(b,b) leaves a zero `b[bi]` to the caller. */
  method VecProject(a: Vec3Buffer, ai: nat, b: Vec3Buffer, bi: nat, out: Vec3Buffer)
    requires a.Valid() && b.Valid() && out.Valid()
    requires ai < a.Size() && bi < b.Size()
    requires VecDotAtomic(b.At(bi), b.At(bi)) != 0.0
    modifies out
    ensures out.Valid()
    ensures out.Entries() == old(out.Entries()) + [Projection(old(a.At(ai)), old(b.At(bi)))]
  {
    var va := a.At(ai);
    var vb := b.At(bi);
    var scale := VecDotAtomic(va, vb) / VecDotAtomic(vb, vb);
    var res := VecScaleAtomic(vb, scale);
    out.PushBack(res.x, res.y, res.z);
  }

  /** `VecAbs`: appends the component-wise absolute value; every component of
      the new entry is non-negative. */
  method VecAbs(v: Vec3Buffer, vi: nat, out: Vec3Buffer)
    requires v.Valid() && out.Valid() && vi < v.Size()
    modifies out
    ensures out.Valid()
    ensures out.Entries() == old(out.Entries()) + [VecAbsAtomic(old(v.At(vi)))]
    ensures out.x[|out.x| - 1] >= 0.0 && out.y[|out.y| - 1] >= 0.0 && out.z[|out.z| - 1] >= 0.0
  {
    out.PushBack(AbsReal(v.x[vi]), AbsReal(v.y[vi]), AbsReal(v.z[vi]));
  }

  /** The `VecNegateAtomic` overload on buffers. */
  method VecNegateBuffer(v: Vec3Buffer, vi: nat, out: Vec3Buffer)
    requires v.Valid() && out.Valid() && vi < v.Size()
    modifies out
    ensures out.Valid()
    ensures out.Entries() == old(out.Entries()) + [VecNegateAtomic(old(v.At(vi)))]
  {
    var res := VecNegateAtomic(v.At(vi));
    out.PushBack(res.x, res.y, res.z);
  }

  /** The `VecEqualsAtomic` overload on buffers; symmetric in its operands. */
  predicate VecEqualsBuffer(a: Vec3Buffer, ai: nat, b: Vec3Buffer, bi: nat, epsilon: real)
    reads a, b
    requires a.Valid() && b.Valid() && ai < a.Size() && bi < b.Size()
    ensures VecEqualsBuffer(a, ai, b, bi, epsilon) <==> VecEqualsAtomic(b.At(bi), a.At(ai), epsilon)
  {
    VecEqualsAtomic(a.At(ai), b.At(bi), epsilon)
  }
}
