/** The renderer's plain data (engine/DataTypes.hpp, with the screen constants of
    engine/CameraSettings.hpp): integer screen points, vectors over `real`, the
    undirected `Edge`, and the struct-of-arrays buffers that the C++ code grows
    with `push_back`. */
module DataTypes {

  /** The fixed character grid: 80 columns by 24 rows. */
  const ScreenWidth: int := 80
  const ScreenHeight: int := 24

  /** Horizontal stretch applied by the projection, because terminal cells are
      about twice as tall as they are wide. */
  const PixelAspect: real := 2.0

  /** `Int2_t`: a screen position (x is the column, y the row). */
  datatype Int2 = Int2(x: int, y: int)

  /** `Vec3_t`, with `double` read as `real`. */
  datatype Vec3 = Vec3(x: real, y: real, z: real)

  /** One entry of a `Vec2Buffer`. */
  datatype Vec2 = Vec2(x: real, y: real)

  /** `CameraView_t`: the camera's three axes and the translation that moves
      the eye to the origin. */
  datatype CameraView = CameraView(right: Vec3, up: Vec3, forward: Vec3, offset: Vec3)

  /** One index triple of a `TriangleBuffer` (`std::array<size_t, 3>`). */
  datatype Tri = Tri(i0: nat, i1: nat, i2: nat)

  /** `Edge`: an undirected pair of vertex indices, kept in the order `a <= b`. */
  datatype Edge = Edge(a: nat, b: nat)

  /** `std::clamp(v, lo, hi)`; the C++ function demands `lo <= hi`. */
  function Clamp(v: int, lo: int, hi: int): (r: int)
    requires lo <= hi
    ensures lo <= r <= hi
    ensures lo <= v <= hi ==> r == v
    ensures v < lo ==> r == lo
    ensures hi < v ==> r == hi
  {
    if v < lo then lo else if hi < v then hi else v
  }

  function Min(a: int, b: int): int { if a <= b then a else b }
  function Max(a: int, b: int): int { if a <= b then b else a }

  /** The `Edge(i, j)` constructor: the smaller index goes to `a`. */
  function MakeEdge(i: nat, j: nat): (e: Edge)
    ensures e.a <= e.b
    ensures (e.a == i && e.b == j) || (e.a == j && e.b == i)
  {
    Edge(Min(i, j), Max(i, j))
  }

  /** `Edge::operator==`. */
  predicate EdgeEquals(e: Edge, o: Edge)
  {
    e.a == o.a && e.b == o.b
  }

  /** Edge equality is equality of the stored pair, and two constructed edges are
      equal exactly when they join the same two indices, in either direction. */
  lemma MakeEdgeEquality(i: nat, j: nat, k: nat, l: nat)
    ensures MakeEdge(i, j) == MakeEdge(j, i)
    ensures EdgeEquals(MakeEdge(i, j), MakeEdge(k, l)) <==> MakeEdge(i, j) == MakeEdge(k, l)
    ensures MakeEdge(i, j) == MakeEdge(k, l) <==> (i == k && j == l) || (i == l && j == k)
  {
  }

  /** Regrouping a concatenation, for proofs that build a sequence piece by
      piece. */
  lemma AppendAssoc<T>(s: seq<T>, p: seq<T>, q: seq<T>)
    ensures s + p + q == s + (p + q)
  {
  }

  /** `Vec3Buffer`: three parallel coordinate vectors. */
  class Vec3Buffer {
    var x: seq<real>
    var y: seq<real>
    var z: seq<real>

    /** The three vectors have one length, as `size()` assumes. */
    predicate Valid()
      reads this
    {
      |x| == |y| == |z|
    }

    function Size(): nat
      reads this
    {
      |x|
    }

    /** Entry `i`, gathered across the three vectors. */
    function At(i: nat): Vec3
      reads this
      requires Valid() && i < Size()
    {
      Vec3(x[i], y[i], z[i])
    }

    /** The buffer's contents as a sequence of points. */
    function Entries(): seq<Vec3>
      reads this
      requires Valid()
    {
      var xs, ys, zs := x, y, z;
      seq(|xs|, i requires 0 <= i < |xs| => Vec3(xs[i], ys[i], zs[i]))
    }

    constructor ()
      ensures Valid() && Size() == 0 && Entries() == []
    {
      x, y, z := [], [], [];
    }

    /** `Vec3Buffer(arr, count)`: copies the first `count` points of `arr`. */
    constructor FromArray(arr: array<Vec3>, count: nat)
      requires count <= arr.Length
      ensures Valid() && Size() == count
      ensures Entries() == arr[..count]
    {
      x, y, z := [], [], [];
      new;
      var i := 0;
      while i < count
        invariant 0 <= i <= count
        invariant Valid() && Entries() == arr[..i]
      {
        PushBack(arr[i].x, arr[i].y, arr[i].z);
        i := i + 1;
      }
    }

    method Clear()
      modifies this
      ensures Valid() && Size() == 0 && Entries() == []
    {
      x, y, z := [], [], [];
    }

    /** Appends one point: the size grows by one, the new last entry is the
        point, and earlier entries keep their values. */
    method PushBack(xi: real, yi: real, zi: real)
      requires Valid()
      modifies this
      ensures Valid() && Size() == old(Size()) + 1
      ensures x == old(x) + [xi] && y == old(y) + [yi] && z == old(z) + [zi]
      ensures Entries() == old(Entries()) + [Vec3(xi, yi, zi)]
      ensures At(Size() - 1) == Vec3(xi, yi, zi)
      ensures forall i :: 0 <= i < old(Size()) ==> At(i) == old(At(i))
    {
      x, y, z := x + [xi], y + [yi], z + [zi];
    }
  }

  /** `Vec2Buffer`: two parallel coordinate vectors. */
  class Vec2Buffer {
    var x: seq<real>
    var y: seq<real>

    predicate Valid()
      reads this
    {
      |x| == |y|
    }

    function Size(): nat
      reads this
    {
      |x|
    }

    function At(i: nat): Vec2
      reads this
      requires Valid() && i < Size()
    {
      Vec2(x[i], y[i])
    }

    function Entries(): seq<Vec2>
      reads this
      requires Valid()
    {
      var xs, ys := x, y;
      seq(|xs|, i requires 0 <= i < |xs| => Vec2(xs[i], ys[i]))
    }

    constructor ()
      ensures Valid() && Size() == 0 && Entries() == []
    {
      x, y := [], [];
    }

    method Clear()
      modifies this
      ensures Valid() && Size() == 0 && Entries() == []
    {
      x, y := [], [];
    }

    method PushBack(xi: real, yi: real)
      requires Valid()
      modifies this
      ensures Valid() && Size() == old(Size()) + 1
      ensures x == old(x) + [xi] && y == old(y) + [yi]
      ensures Entries() == old(Entries()) + [Vec2(xi, yi)]
    {
      x, y := x + [xi], y + [yi];
    }
  }

  /** `TriangleBuffer`: the mesh's index triples. */
  class TriangleBuffer {
    var indices: seq<Tri>

    function Size(): nat
      reads this
    {
      |indices|
    }

    constructor ()
      ensures indices == []
    {
      indices := [];
    }

    method Clear()
      modifies this
      ensures indices == [] && Size() == 0
    {
      indices := [];
    }

    method PushBack(i0: nat, i1: nat, i2: nat)
      modifies this
      ensures indices == old(indices) + [Tri(i0, i1, i2)]
      ensures Size() == old(Size()) + 1
    {
      indices := indices + [Tri(i0, i1, i2)];
    }
  }
}
