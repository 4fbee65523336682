/** engine/CameraMath.hpp (repeated in src/Math3D.hpp): building a camera
    basis, moving buffer points into camera space, projecting them onto the
    image plane and mapping projected points to cells of the character grid. */
module CameraMath {
  import opened DataTypes
  import opened Math3D

  /** Two unit-ish vectors are "parallel" for `LookAt` when one equals the other
      or its negation within the default tolerance. */
  predicate ParallelTo(v: Vec3, up: Vec3)
  {
    VecEqualsAtomic(v, up, DefaultEpsilon) || VecEqualsAtomic(v, VecNegateAtomic(up), DefaultEpsilon)
  }

  /** `LookAt`: a forward axis towards `target`, rebuilt from swapped
      components of `up` when it is (anti)parallel to `up`; a right axis and a
      camera up axis from cross products, rebuilt once more when the camera up
      axis points against `up`; and the offset that translates the eye to the
      origin. */
  function LookAt(eye: Vec3, target: Vec3, up: Vec3, sqrt: real -> real): (view: CameraView)
    ensures view.offset == Vec3(-VecDotAtomic(view.right, eye), -VecDotAtomic(view.up, eye), -VecDotAtomic(view.forward, eye))
    ensures !ParallelTo(VecNormalizeAtomic(VecSubAtomic(target, eye), sqrt), up) ==>
      view.forward == VecNormalizeAtomic(VecSubAtomic(target, eye), sqrt)
  {
    var toward := VecNormalizeAtomic(VecSubAtomic(target, eye), sqrt);
    var forward :=
      if !ParallelTo(toward, up) then toward
      else
        var rebuilt := VecNormalizeAtomic(VecCrossAtomic(Vec3(up.y, up.x, up.z), toward), sqrt);
        if ParallelTo(rebuilt, up) then VecNormalizeAtomic(VecCrossAtomic(Vec3(up.x, up.z, up.y), rebuilt), sqrt)
        else rebuilt;
    var right0 := VecNormalizeAtomic(VecCrossAtomic(forward, up), sqrt);
    var cameraUp0 := VecNormalizeAtomic(VecCrossAtomic(right0, forward), sqrt);
    var right :=
      if VecEqualsAtomic(cameraUp0, VecNegateAtomic(up), DefaultEpsilon)
      then VecNormalizeAtomic(VecCrossAtomic(forward, Vec3(right0.y, right0.x, right0.z)), sqrt)
      else right0;
    var cameraUp :=
      if VecEqualsAtomic(cameraUp0, VecNegateAtomic(up), DefaultEpsilon)
      then VecNormalizeAtomic(VecCrossAtomic(right, forward), sqrt)
      else cameraUp0;
    var offset := Vec3(-VecDotAtomic(right, eye), -VecDotAtomic(cameraUp, eye), -VecDotAtomic(forward, eye));
    CameraView(right, cameraUp, forward, offset)
  }

  /** Scaling one side of a dot product scales the product. */
  lemma ScaledDot(v: Vec3, w: Vec3, k: real)
    ensures VecDotAtomic(VecScaleAtomic(v, k), w) == k * VecDotAtomic(v, w)
  {
  }

  /** A normalised cross product is still orthogonal to both operands, whatever
      `sqrt` returns: normalising only scales, or gives the zero vector. */
  lemma {:induction false} NormalizedCrossOrthogonal(a: Vec3, b: Vec3, sqrt: real -> real)
    ensures VecDotAtomic(VecNormalizeAtomic(VecCrossAtomic(a, b), sqrt), a) == 0.0
    ensures VecDotAtomic(VecNormalizeAtomic(VecCrossAtomic(a, b), sqrt), b) == 0.0
  {
    var c := VecCrossAtomic(a, b);
    VecCrossOrthogonal(a, b);
    var len := VecLengthAtomic(c, sqrt);
    if len != 0.0 {
      ScaledDot(c, a, 1.0 / len);
      ScaledDot(c, b, 1.0 / len);
    }
  }

  /** The three axes `LookAt` returns are pairwise orthogonal, on every branch:
      the right axis and the camera up axis are both normalised cross products
      taken with the forward axis, and the camera up axis is also one taken
      with the right axis. */
  lemma {:induction false} LookAtAxesOrthogonal(eye: Vec3, target: Vec3, up: Vec3, sqrt: real -> real)
    ensures VecDotAtomic(LookAt(eye, target, up, sqrt).right, LookAt(eye, target, up, sqrt).forward) == 0.0
    ensures VecDotAtomic(LookAt(eye, target, up, sqrt).up, LookAt(eye, target, up, sqrt).forward) == 0.0
    ensures VecDotAtomic(LookAt(eye, target, up, sqrt).up, LookAt(eye, target, up, sqrt).right) == 0.0
  {
    var view := LookAt(eye, target, up, sqrt);
    var forward := view.forward;
    var right0 := VecNormalizeAtomic(VecCrossAtomic(forward, up), sqrt);
    var cameraUp0 := VecNormalizeAtomic(VecCrossAtomic(right0, forward), sqrt);
    NormalizedCrossOrthogonal(forward, up, sqrt);
    NormalizedCrossOrthogonal(right0, forward, sqrt);
    if VecEqualsAtomic(cameraUp0, VecNegateAtomic(up), DefaultEpsilon) {
      var tempRight := Vec3(right0.y, right0.x, right0.z);
      NormalizedCrossOrthogonal(forward, tempRight, sqrt);
      NormalizedCrossOrthogonal(view.right, forward, sqrt);
    }
    VecDotSymmetric(view.right, forward);
    VecDotSymmetric(view.up, forward);
    VecDotSymmetric(view.up, view.right);
  }

  /** The camera-space coordinates of world point `p`: its offset from the eye
      measured along each camera axis. */
  function CameraPoint(view: CameraView, eye: Vec3, p: Vec3): Vec3
  {
    var d := VecSubAtomic(p, eye);
    Vec3(VecDotAtomic(d, view.right), VecDotAtomic(d, view.up), VecDotAtomic(d, view.forward))
  }

  /** The eye itself lands on the camera-space origin, whatever the axes. */
  lemma EyeMapsToOrigin(view: CameraView, eye: Vec3)
    ensures CameraPoint(view, eye, eye) == ZeroVec
  {
  }

  /** Dot product against an axis distributes over the difference with the
      eye. */
  lemma DotOfDifference(p: Vec3, eye: Vec3, axis: Vec3)
    ensures VecDotAtomic(VecSubAtomic(p, eye), axis) == VecDotAtomic(axis, p) - VecDotAtomic(axis, eye)
  {
  }

  /** With the view `LookAt` returns, moving a point into camera space is the
      affine map "project on each axis, then add the offset", which is what the
      offset stored in the view is for. */
  lemma {:induction false} LookAtOffsetIsTranslation(eye: Vec3, target: Vec3, up: Vec3, sqrt: real -> real, view: CameraView, p: Vec3)
    requires view == LookAt(eye, target, up, sqrt)
    ensures CameraPoint(view, eye, p) ==
      Vec3(VecDotAtomic(view.right, p) + view.offset.x,
           VecDotAtomic(view.up, p) + view.offset.y,
           VecDotAtomic(view.forward, p) + view.offset.z)
  {
    DotOfDifference(p, eye, view.right);
    DotOfDifference(p, eye, view.up);
    DotOfDifference(p, eye, view.forward);
    var d := VecSubAtomic(p, eye);
    assert CameraPoint(view, eye, p) == Vec3(VecDotAtomic(d, view.right), VecDotAtomic(d, view.up), VecDotAtomic(d, view.forward));
  }

  /** `WorldToCamera`: appends the camera-space coordinates of `world[wi]`. */
  method WorldToCamera(world: Vec3Buffer, wi: nat, view: CameraView, eye: Vec3, out: Vec3Buffer)
    requires world.Valid() && out.Valid() && wi < world.Size()
    modifies out
    ensures out.Valid()
    ensures out.Entries() == old(out.Entries()) + [CameraPoint(view, eye, old(world.At(wi)))]
  {
    var r := VecSubAtomic(world.At(wi), eye);
    out.PushBack(VecDotAtomic(r, view.right), VecDotAtomic(r, view.up), VecDotAtomic(r, view.forward));
  }

  /** The perspective projection of a camera-space point in front of the
      camera: divide by depth, then scale x by the focal length over the aspect
      ratio and by the pixel aspect, and y by the focal length. */
  function Project(p: Vec3, focalLength: real, aspectRatio: real): Vec2
    requires p.z > 0.0 && aspectRatio != 0.0
  {
    var invZ := 1.0 / p.z;
    Vec2(p.x * invZ * ((focalLength / aspectRatio) * PixelAspect), p.y * invZ * focalLength)
  }

  /** A point on the optical axis projects to the image centre, at any depth. */
  lemma ProjectAxisToCentre(z: real, focalLength: real, aspectRatio: real)
    requires z > 0.0 && aspectRatio != 0.0
    ensures Project(Vec3(0.0, 0.0, z), focalLength, aspectRatio) == Vec2(0.0, 0.0)
  {
  }

  /** Moving a point along its line of sight does not move its projection. */
  lemma {:induction false} ProjectScaleInvariant(p: Vec3, k: real, focalLength: real, aspectRatio: real)
    requires p.z > 0.0 && k > 0.0 && aspectRatio != 0.0
    ensures VecScaleAtomic(p, k).z > 0.0
    ensures Project(VecScaleAtomic(p, k), focalLength, aspectRatio) == Project(p, focalLength, aspectRatio)
  {
    var q := VecScaleAtomic(p, k);
    assert q.z == p.z * k;
    assert 1.0 / q.z == (1.0 / p.z) / k;
    assert q.x * (1.0 / q.z) == p.x * (1.0 / p.z);
    assert q.y * (1.0 / q.z) == p.y * (1.0 / p.z);
  }

  /** `ProjectToScreen`: the point must lie in front of the camera, as the
      source asserts; appends its projection. */
  method ProjectToScreen(cam: Vec3Buffer, ci: nat, focalLength: real, aspectRatio: real, out: Vec2Buffer)
    requires cam.Valid() && out.Valid() && ci < cam.Size()
    requires cam.z[ci] > 0.0
    requires aspectRatio != 0.0
    modifies out
    ensures out.Valid()
    ensures out.Entries() == old(out.Entries()) + [Project(old(cam.At(ci)), focalLength, aspectRatio)]
  {
    var projected := Project(cam.At(ci), focalLength, aspectRatio);
    out.PushBack(projected.x, projected.y);
  }

  /** `std::round`: the nearest integer, halves rounded away from zero. */
  function Round(r: real): (n: int)
    ensures r - 0.5 <= n as real <= r + 0.5
    ensures n as real == r + 0.5 ==> r > 0.0
    ensures n as real == r - 0.5 ==> r < 0.0
  {
    if r >= 0.0 then (r + 0.5).Floor else -((0.5 - r).Floor)
  }

  lemma {:induction false} RoundMonotone(a: real, b: real)
    requires a <= b
    ensures Round(a) <= Round(b)
  {
    if a >= 0.0 || b < 0.0 {
      FloorMonotone(a + 0.5, b + 0.5);
      FloorMonotone(0.5 - b, 0.5 - a);
    }
  }

  lemma FloorMonotone(a: real, b: real)
    requires a <= b
    ensures a.Floor <= b.Floor
  {
  }

  /** Image-plane coordinates in [-1, 1] moved to [0, 1]; y is flipped so
      that it grows downwards like the rows. */
  function NdcX(px: real): real { (px + 1.0) * 0.5 }
  function NdcY(py: real): real { 1.0 - ((py + 1.0) * 0.5) }

  /** The grid cell of a projected point: its normalised coordinates scaled to
      the screen, rounded and clamped; rows grow downwards, so y is flipped. */
  function ScreenCell(p: Vec2, screenWidth: int, screenHeight: int): (cell: Int2)
    requires screenWidth >= 1 && screenHeight >= 1
    ensures 0 <= cell.x <= screenWidth - 1
    ensures 0 <= cell.y <= screenHeight - 1
  {
    Int2(CellIndex(NdcX(p.x) * screenWidth as real, screenWidth),
         CellIndex(NdcY(p.y) * screenHeight as real, screenHeight))
  }

  /** `MapToScreen` on entry `pi` of a `Vec2Buffer`: always a cell of the
      grid. */
  function MapToScreen(proj: Vec2Buffer, pi: nat, screenWidth: int, screenHeight: int): (cell: Int2)
    reads proj
    requires proj.Valid() && pi < proj.Size()
    requires screenWidth >= 1 && screenHeight >= 1
    ensures 0 <= cell.x < screenWidth && 0 <= cell.y < screenHeight
  {
    ScreenCell(proj.At(pi), screenWidth, screenHeight)
  }

  /** One cell index of `MapToScreen`: the scaled coordinate rounded, then
      clamped to `[0, n - 1]`. */
  function CellIndex(scaled: real, n: int): (i: int)
    requires n >= 1
    ensures 0 <= i <= n - 1
  {
    Clamp(Round(scaled), 0, n - 1)
  }

  /** A coordinate scaled past the far edge lands on the last cell, and one
      at or before zero on the first. */
  lemma CellIndexEdges(scaled: real, n: int)
    requires n >= 1
    ensures scaled >= n as real ==> CellIndex(scaled, n) == n - 1
    ensures scaled <= 0.0 ==> CellIndex(scaled, n) == 0
  {
  }

  lemma ClampMonotone(a: int, b: int, lo: int, hi: int)
    requires a <= b && lo <= hi
    ensures Clamp(a, lo, hi) <= Clamp(b, lo, hi)
  {
  }

  /** A larger scaled coordinate never gives a smaller cell index. */
  lemma {:induction false} CellIndexMonotone(s: real, t: real, n: int)
    requires s <= t && n >= 1
    ensures CellIndex(s, n) <= CellIndex(t, n)
  {
    RoundMonotone(s, t);
    ClampMonotone(Round(s), Round(t), 0, n - 1);
  }

  /** On the 80 by 24 grid, a point further right on the image plane is never
      in a column further left. */
  lemma {:induction false} ScreenColumnMonotone(p: Vec2, q: Vec2)
    requires p.x <= q.x
    ensures ScreenCell(p, ScreenWidth, ScreenHeight).x <= ScreenCell(q, ScreenWidth, ScreenHeight).x
  {
    assert ScreenWidth as real == 80.0;
    CellIndexMonotone(NdcX(p.x) * 80.0, NdcX(q.x) * 80.0, ScreenWidth);
  }

  /** On the 80 by 24 grid, a point higher on the image plane is never in a
      lower row: the row index does not increase as y grows. */
  lemma {:induction false} ScreenRowAntitone(p: Vec2, q: Vec2)
    requires p.y <= q.y
    ensures ScreenCell(p, ScreenWidth, ScreenHeight).y >= ScreenCell(q, ScreenWidth, ScreenHeight).y
  {
    assert ScreenHeight as real == 24.0;
    CellIndexMonotone(NdcY(q.y) * 24.0, NdcY(p.y) * 24.0, ScreenHeight);
  }

  /** On the 80 by 24 grid, points at or beyond an edge of the image plane
      land on the border: x >= 1 in the last column, x <= -1 in the first,
      y >= 1 in the top row and y <= -1 in the bottom row. */
  lemma {:induction false} ScreenCellEdges(p: Vec2)
    ensures p.x >= 1.0 ==> ScreenCell(p, ScreenWidth, ScreenHeight).x == ScreenWidth - 1
    ensures p.x <= -1.0 ==> ScreenCell(p, ScreenWidth, ScreenHeight).x == 0
    ensures p.y >= 1.0 ==> ScreenCell(p, ScreenWidth, ScreenHeight).y == 0
    ensures p.y <= -1.0 ==> ScreenCell(p, ScreenWidth, ScreenHeight).y == ScreenHeight - 1
  {
    assert ScreenWidth as real == 80.0 && ScreenHeight as real == 24.0;
    CellIndexEdges(NdcX(p.x) * 80.0, ScreenWidth);
    CellIndexEdges(NdcY(p.y) * 24.0, ScreenHeight);
  }

  /** The image centre maps to the rounded middle of the screen, cell (40, 12)
      on the 80 by 24 grid. (On a screen one cell wide or high the middle
      rounds to 1 and is clamped back to 0.) */
  lemma {:induction false} ScreenCellCentre(screenWidth: int, screenHeight: int)
    requires screenWidth >= 2 && screenHeight >= 2
    ensures ScreenCell(Vec2(0.0, 0.0), screenWidth, screenHeight) ==
      Int2(Round(screenWidth as real * 0.5), Round(screenHeight as real * 0.5))
    ensures ScreenCell(Vec2(0.0, 0.0), ScreenWidth, ScreenHeight) == Int2(40, 12)
  {
    assert NdcX(0.0) == 0.5 && NdcY(0.0) == 0.5;
    assert Round(40.0) == 40 && Round(12.0) == 12;
  }
}
