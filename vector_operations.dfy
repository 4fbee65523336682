/** engine/VectorOperations.hpp: the same vector algebra as `Math3D`, with
    every coordinate checked against the engine's upper bounds by `assert`
    (modelled as preconditions), and the `*Indexed` operations that read
    `Vec3Buffer` entries and append, or in one case overwrite, a result.
    Each operation is written as the header writes it and proved equal to the
    corresponding `Math3D` definition. */
module VectorOperations {
  import opened DataTypes
  import M = Math3D

  /** `MAX_X_COORDINATE`, `MAX_Y_COORDINATE` and `MAX_Z_COORDINATE`. Their
      values live in a header that is not part of this model, so they are a
      parameter of every checked operation. */
  datatype Bounds = Bounds(maxX: real, maxY: real, maxZ: real)

  /** The coordinate check every atomic operation asserts of its inputs. */
  predicate Below(v: Vec3, bounds: Bounds)
  {
    v.x < bounds.maxX && v.y < bounds.maxY && v.z < bounds.maxZ
  }

  // ---- Checked atomic operations ----

  function VecAddAtomic(base: Vec3, addend: Vec3, bounds: Bounds): (r: Vec3)
    requires Below(base, bounds) && Below(addend, bounds)
    ensures r == M.VecAddAtomic(base, addend)
    ensures M.VecSubAtomic(r, addend) == base
  {
    Vec3(base.x + addend.x, base.y + addend.y, base.z + addend.z)
  }

  function VecSubAtomic(minuend: Vec3, subtrahend: Vec3, bounds: Bounds): (r: Vec3)
    requires Below(minuend, bounds) && Below(subtrahend, bounds)
    ensures r == M.VecSubAtomic(minuend, subtrahend)
    ensures M.VecAddAtomic(r, subtrahend) == minuend
  {
    Vec3(minuend.x - subtrahend.x, minuend.y - subtrahend.y, minuend.z - subtrahend.z)
  }

  /** Scaling also checks the scaled coordinates against the bounds. */
  function VecScaleAtomic(base: Vec3, scalar: real, bounds: Bounds): (r: Vec3)
    requires Below(base, bounds)
    requires Below(M.VecScaleAtomic(base, scalar), bounds)
    ensures r == M.VecScaleAtomic(base, scalar)
    ensures Below(r, bounds)
  {
    Vec3(base.x * scalar, base.y * scalar, base.z * scalar)
  }

  function VecDotAtomic(lhs: Vec3, rhs: Vec3, bounds: Bounds): (r: real)
    requires Below(lhs, bounds) && Below(rhs, bounds)
    ensures r == M.VecDotAtomic(rhs, lhs)
  {
    lhs.x * rhs.x + lhs.y * rhs.y + lhs.z * rhs.z
  }

  function VecCrossAtomic(base: Vec3, operand: Vec3, bounds: Bounds): (r: Vec3)
    requires Below(base, bounds) && Below(operand, bounds)
    ensures r == M.VecCrossAtomic(base, operand)
    ensures r == M.VecNegateAtomic(M.VecCrossAtomic(operand, base))
  {
    Vec3(base.y * operand.z - base.z * operand.y,
         base.z * operand.x - base.x * operand.z,
         base.x * operand.y - base.y * operand.x)
  }

  function VecLengthAtomic(base: Vec3, bounds: Bounds, sqrt: real -> real): (r: real)
    requires Below(base, bounds)
    ensures r == M.VecLengthAtomic(base, sqrt)
    ensures r == M.VecLengthAtomic(M.VecNegateAtomic(base), sqrt)
  {
    var lengthSquared := base.x * base.x + base.y * base.y + base.z * base.z;
    M.NegateSelfDot(base);
    assert lengthSquared == M.VecDotAtomic(base, base);
    sqrt(lengthSquared)
  }

  /** A zero length gives the zero vector; otherwise the scaling by the inverse
      length is the checked one, so its result must lie below the bounds too. */
  function VecNormalizeAtomic(base: Vec3, bounds: Bounds, sqrt: real -> real): (r: Vec3)
    requires Below(base, bounds)
    requires M.VecLengthAtomic(base, sqrt) != 0.0 ==>
      Below(M.VecScaleAtomic(base, 1.0 / M.VecLengthAtomic(base, sqrt)), bounds)
    ensures r == M.VecNormalizeAtomic(base, sqrt)
    ensures M.VecLengthAtomic(base, sqrt) == 0.0 ==> r == M.ZeroVec
    ensures M.VecLengthAtomic(base, sqrt) != 0.0 ==> Below(r, bounds)
  {
    var len := VecLengthAtomic(base, bounds, sqrt);
    if len == 0.0 then Vec3(0.0, 0.0, 0.0) else VecScaleAtomic(base, 1.0 / len, bounds)
  }

  function VecNegateAtomic(base: Vec3, bounds: Bounds): (r: Vec3)
    requires Below(base, bounds)
    ensures r == M.VecNegateAtomic(base)
    ensures M.VecAddAtomic(base, r) == M.ZeroVec
  {
    Vec3(-base.x, -base.y, -base.z)
  }

  // ---- Indexed operations on Vec3Buffer ----

  /** `VecAddIndexed`: besides the inputs, the sum itself must lie below the
      bounds; exactly one entry is appended to `out`. */
  method VecAddIndexed(lhs: Vec3Buffer, il: nat, rhs: Vec3Buffer, ir: nat, bounds: Bounds, out: Vec3Buffer)
    requires lhs.Valid() && rhs.Valid() && out.Valid()
    requires il < lhs.Size() && ir < rhs.Size()
    requires Below(lhs.At(il), bounds) && Below(rhs.At(ir), bounds)
    requires Below(M.VecAddAtomic(lhs.At(il), rhs.At(ir)), bounds)
    modifies out
    ensures out.Valid()
    ensures out.Entries() == old(out.Entries()) + [M.VecAddAtomic(old(lhs.At(il)), old(rhs.At(ir)))]
    ensures Below(out.At(out.Size() - 1), bounds)
  {
    var rx := lhs.x[il] + rhs.x[ir];
    var ry := lhs.y[il] + rhs.y[ir];
    var rz := lhs.z[il] + rhs.z[ir];
    out.PushBack(rx, ry, rz);
  }

  /** `VecAddIndexedSingleBuffer`: overwrites entry `ib` with the sum of the
      old entries `ib` and `ia`. The size and every other entry are unchanged;
      with `ib == ia` the entry is doubled. */
  method VecAddIndexedSingleBuffer(buffer: Vec3Buffer, ib: nat, ia: nat, bounds: Bounds)
    requires buffer.Valid()
    requires ib < buffer.Size() && ia < buffer.Size()
    requires Below(M.VecAddAtomic(buffer.At(ib), buffer.At(ia)), bounds)
    modifies buffer
    ensures buffer.Valid() && buffer.Size() == old(buffer.Size())
    ensures buffer.Entries() == old(buffer.Entries())[ib := M.VecAddAtomic(old(buffer.At(ib)), old(buffer.At(ia)))]
    ensures ib == ia ==> buffer.At(ib) == M.VecScaleAtomic(old(buffer.At(ib)), 2.0)
  {
    var sum := M.VecAddAtomic(buffer.At(ib), buffer.At(ia));
    ghost var before := buffer.Entries();
    buffer.x := buffer.x[ib := sum.x];
    buffer.y := buffer.y[ib := sum.y];
    buffer.z := buffer.z[ib := sum.z];
    assert buffer.Entries() == before[ib := sum] by {
      forall i | 0 <= i < |before|
        ensures buffer.Entries()[i] == before[ib := sum][i]
      {
      }
    }
  }

  method VecSubIndexed(minuend: Vec3Buffer, im: nat, subtrahend: Vec3Buffer, isub: nat, bounds: Bounds, out: Vec3Buffer)
    requires minuend.Valid() && subtrahend.Valid() && out.Valid()
    requires im < minuend.Size() && isub < subtrahend.Size()
    requires Below(minuend.At(im), bounds) && Below(subtrahend.At(isub), bounds)
    modifies out
    ensures out.Valid()
    ensures out.Entries() == old(out.Entries()) + [M.VecSubAtomic(old(minuend.At(im)), old(subtrahend.At(isub)))]
  {
    var result := VecSubAtomic(minuend.At(im), subtrahend.At(isub), bounds);
    out.PushBack(result.x, result.y, result.z);
  }

  method VecScaleIndexed(base: Vec3Buffer, ib: nat, scalar: real, bounds: Bounds, out: Vec3Buffer)
    requires base.Valid() && out.Valid() && ib < base.Size()
    requires Below(base.At(ib), bounds) && Below(M.VecScaleAtomic(base.At(ib), scalar), bounds)
    modifies out
    ensures out.Valid()
    ensures out.Entries() == old(out.Entries()) + [M.VecScaleAtomic(old(base.At(ib)), scalar)]
  {
    var result := VecScaleAtomic(base.At(ib), scalar, bounds);
    out.PushBack(result.x, result.y, result.z);
  }

  function VecDotIndexed(left: Vec3Buffer, il: nat, right: Vec3Buffer, ir: nat, bounds: Bounds): (r: real)
    reads left, right
    requires left.Valid() && right.Valid() && il < left.Size() && ir < right.Size()
    requires Below(left.At(il), bounds) && Below(right.At(ir), bounds)
    ensures r == M.VecDotAtomic(right.At(ir), left.At(il))
  {
    VecDotAtomic(left.At(il), right.At(ir), bounds)
  }

  method VecCrossIndexed(base: Vec3Buffer, ib: nat, operand: Vec3Buffer, io: nat, bounds: Bounds, out: Vec3Buffer)
    requires base.Valid() && operand.Valid() && out.Valid()
    requires ib < base.Size() && io < operand.Size()
    requires Below(base.At(ib), bounds) && Below(operand.At(io), bounds)
    modifies out
    ensures out.Valid()
    ensures out.Entries() == old(out.Entries()) + [M.VecCrossAtomic(old(base.At(ib)), old(operand.At(io)))]
  {
    var result := VecCrossAtomic(base.At(ib), operand.At(io), bounds);
    out.PushBack(result.x, result.y, result.z);
  }

  function VecLengthIndexed(buffer: Vec3Buffer, i: nat, bounds: Bounds, sqrt: real -> real): (r: real)
    reads buffer
    requires buffer.Valid() && i < buffer.Size() && Below(buffer.At(i), bounds)
    ensures r == M.VecLengthAtomic(M.VecNegateAtomic(buffer.At(i)), sqrt)
  {
    VecLengthAtomic(buffer.At(i), bounds, sqrt)
  }

  /** `VecDistanceIndexed`: the checked length of `a[ia] - b[ib]`, so the
      difference must lie below the bounds; it equals the length of
      `b[ib] - a[ia]`. */
  function VecDistanceIndexed(a: Vec3Buffer, ia: nat, b: Vec3Buffer, ib: nat, bounds: Bounds, sqrt: real -> real): (r: real)
    reads a, b
    requires a.Valid() && b.Valid() && ia < a.Size() && ib < b.Size()
    requires Below(M.VecSubAtomic(a.At(ia), b.At(ib)), bounds)
    ensures r == M.VecLengthAtomic(M.VecSubAtomic(b.At(ib), a.At(ia)), sqrt)
  {
    var delta := Vec3(a.x[ia] - b.x[ib], a.y[ia] - b.y[ib], a.z[ia] - b.z[ib]);
    M.SubSelfDotSymmetric(a.At(ia), b.At(ib));
    VecLengthAtomic(delta, bounds, sqrt)
  }

  /** `VecLerpIndexed`: only the indices are checked. */
  method VecLerpIndexed(start: Vec3Buffer, ist: nat, end: Vec3Buffer, ie: nat, t: real, out: Vec3Buffer)
    requires start.Valid() && end.Valid() && out.Valid()
    requires ist < start.Size() && ie < end.Size()
    modifies out
    ensures out.Valid()
    ensures out.Entries() == old(out.Entries()) + [M.Lerp(old(start.At(ist)), old(end.At(ie)), t)]
  {
    var s := start.At(ist);
    var e := end.At(ie);
    var result := M.Lerp(s, e, t);
    out.PushBack(result.x, result.y, result.z);
  }

  method VecNormalizeIndexed(v: Vec3Buffer, vi: nat, bounds: Bounds, sqrt: real -> real, out: Vec3Buffer)
    requires v.Valid() && out.Valid() && vi < v.Size()
    requires Below(v.At(vi), bounds)
    requires M.VecLengthAtomic(v.At(vi), sqrt) != 0.0 ==>
      Below(M.VecScaleAtomic(v.At(vi), 1.0 / M.VecLengthAtomic(v.At(vi), sqrt)), bounds)
    modifies out
    ensures out.Valid()
    ensures out.Entries() == old(out.Entries()) + [M.VecNormalizeAtomic(old(v.At(vi)), sqrt)]
  {
    var res := VecNormalizeAtomic(v.At(vi), bounds, sqrt);
    out.PushBack(res.x, res.y, res.z);
  }

  /** `VecProject`: both dot products are checked, and so is the scaling of
      `b[bi]`, whose factor must be finite: a zero `b[bi]` fails that check. */
  method VecProject(a: Vec3Buffer, ai: nat, b: Vec3Buffer, bi: nat, bounds: Bounds, out: Vec3Buffer)
    requires a.Valid() && b.Valid() && out.Valid()
    requires ai < a.Size() && bi < b.Size()
    requires Below(a.At(ai), bounds) && Below(b.At(bi), bounds)
    requires M.VecDotAtomic(b.At(bi), b.At(bi)) != 0.0
    requires Below(M.Projection(a.At(ai), b.At(bi)), bounds)
    modifies out
    ensures out.Valid()
    ensures out.Entries() == old(out.Entries()) + [M.Projection(old(a.At(ai)), old(b.At(bi)))]
  {
    var va := a.At(ai);
    var vb := b.At(bi);
    var scale := VecDotAtomic(va, vb, bounds) / VecDotAtomic(vb, vb, bounds);
    M.VecDotSymmetric(va, vb);
    var res := VecScaleAtomic(vb, scale, bounds);
    out.PushBack(res.x, res.y, res.z);
  }

  /** The buffer overload of `VecNegateAtomic`, checked like the atomic one. */
  method VecNegateBuffer(v: Vec3Buffer, vi: nat, bounds: Bounds, out: Vec3Buffer)
    requires v.Valid() && out.Valid() && vi < v.Size()
    requires Below(v.At(vi), bounds)
    modifies out
    ensures out.Valid()
    ensures out.Entries() == old(out.Entries()) + [M.VecNegateAtomic(old(v.At(vi)))]
  {
    var res := VecNegateAtomic(v.At(vi), bounds);
    out.PushBack(res.x, res.y, res.z);
  }
}
