/** engine/MeshBuilder.hpp (repeated in src/Math3D.hpp): appending triangles
    to a vertex buffer and an index buffer. Every triangle gets three fresh
    vertices, so no two triangles share an index. */
module MeshBuilder {
  import opened DataTypes

  /** The vertex indices a triangle uses. */
  function TriIndices(t: Tri): set<nat>
  {
    {t.i0, t.i1, t.i2}
  }

  /** Every index of every triangle names one of the first `n` vertices. */
  predicate IndicesBelow(tris: seq<Tri>, n: nat)
  {
    forall t :: t in tris ==> t.i0 < n && t.i1 < n && t.i2 < n
  }

  /** The triangle `BuildTriangleMesh` adds when the vertex buffer held `base`
      entries. */
  function FreshTriangle(base: nat): (t: Tri)
    ensures TriIndices(t) == {base, base + 1, base + 2}
    ensures IndicesBelow([t], base + 3) && !IndicesBelow([t], base + 2)
  {
    Tri(base, base + 1, base + 2)
  }

  /** Appending a fresh triangle together with its three vertices keeps every
      index valid. */
  lemma {:induction false} FreshTriangleKeepsIndicesValid(tris: seq<Tri>, base: nat)
    requires IndicesBelow(tris, base)
    ensures IndicesBelow(tris + [FreshTriangle(base)], base + 3)
  {
    forall t | t in tris + [FreshTriangle(base)]
      ensures t.i0 < base + 3 && t.i1 < base + 3 && t.i2 < base + 3
    {
      if t !in tris {
        assert t == FreshTriangle(base);
      }
    }
  }

  /** `BuildTriangleMesh`: appends `a`, `b`, `c` at indices `base`, `base + 1`,
      `base + 2`, where `base` is the old vertex count, and the triangle joining
      them. Everything already present is unchanged. */
  method BuildTriangleMesh(a: Vec3, b: Vec3, c: Vec3, verts: Vec3Buffer, tris: TriangleBuffer)
    requires verts.Valid()
    modifies verts, tris
    ensures verts.Valid() && verts.Size() == old(verts.Size()) + 3
    ensures verts.Entries() == old(verts.Entries()) + [a, b, c]
    ensures tris.indices == old(tris.indices) + [FreshTriangle(old(verts.Size()))]
    ensures IndicesBelow(old(tris.indices), old(verts.Size())) ==> IndicesBelow(tris.indices, verts.Size())
  {
    var base := verts.Size();
    verts.PushBack(a.x, a.y, a.z);
    verts.PushBack(b.x, b.y, b.z);
    verts.PushBack(c.x, c.y, c.z);
    tris.PushBack(base, base + 1, base + 2);
    if IndicesBelow(old(tris.indices), base) {
      FreshTriangleKeepsIndicesValid(old(tris.indices), base);
    }
  }

  /** Fresh triangles built three or more vertices apart share no index. */
  lemma FreshTrianglesApart(m: nat, n: nat)
    requires m + 3 <= n
    ensures TriIndices(FreshTriangle(m)) !! TriIndices(FreshTriangle(n))
  {
    forall k | k in TriIndices(FreshTriangle(m))
      ensures k !in TriIndices(FreshTriangle(n))
    {
    }
  }

  /** The four triangles `BuildPyramidMesh` adds when the vertex buffer held
      `base` entries: the base, then the sides through `a`–`b`, `b`–`c` and
      `c`–`a`. */
  function PyramidTriangles(base: nat): (ts: seq<Tri>)
    ensures |ts| == 4
    ensures IndicesBelow(ts, base + 12)
    ensures forall i, j :: 0 <= i < j < |ts| ==> TriIndices(ts[i]) !! TriIndices(ts[j])
  {
    FreshTrianglesApart(base, base + 3);
    FreshTrianglesApart(base, base + 6);
    FreshTrianglesApart(base, base + 9);
    FreshTrianglesApart(base + 3, base + 6);
    FreshTrianglesApart(base + 3, base + 9);
    FreshTrianglesApart(base + 6, base + 9);
    [FreshTriangle(base), FreshTriangle(base + 3), FreshTriangle(base + 6), FreshTriangle(base + 9)]
  }

  /** The twelve vertices `BuildPyramidMesh` appends, in order. */
  function PyramidVertices(a: Vec3, b: Vec3, c: Vec3, apex: Vec3): seq<Vec3>
  {
    [a, b, c] + [a, b, apex] + [b, c, apex] + [c, a, apex]
  }

  /** The four triangles, one `BuildTriangleMesh` call at a time. */
  lemma PyramidTrianglesInOrder(base: nat)
    ensures PyramidTriangles(base) == [FreshTriangle(base)] + [FreshTriangle(base + 3)] + [FreshTriangle(base + 6)] + [FreshTriangle(base + 9)]
  {
  }

  /** `BuildPyramidMesh`: a base triangle and three sides, built as four
      independent triangles. */
  method BuildPyramidMesh(a: Vec3, b: Vec3, c: Vec3, apex: Vec3, verts: Vec3Buffer, tris: TriangleBuffer)
    requires verts.Valid()
    modifies verts, tris
    ensures verts.Valid() && verts.Size() == old(verts.Size()) + 12
    ensures verts.Entries() == old(verts.Entries()) + PyramidVertices(a, b, c, apex)
    ensures tris.indices == old(tris.indices) + PyramidTriangles(old(verts.Size()))
    ensures IndicesBelow(old(tris.indices), old(verts.Size())) ==> IndicesBelow(tris.indices, verts.Size())
  {
    ghost var v0, t0, n := verts.Entries(), tris.indices, verts.Size();
    BuildTriangleMesh(a, b, c, verts, tris);
    BuildTriangleMesh(a, b, apex, verts, tris);
    AppendAssoc(v0, [a, b, c], [a, b, apex]);
    AppendAssoc(t0, [FreshTriangle(n)], [FreshTriangle(n + 3)]);
    BuildTriangleMesh(b, c, apex, verts, tris);
    AppendAssoc(v0, [a, b, c] + [a, b, apex], [b, c, apex]);
    AppendAssoc(t0, [FreshTriangle(n)] + [FreshTriangle(n + 3)], [FreshTriangle(n + 6)]);
    BuildTriangleMesh(c, a, apex, verts, tris);
    AppendAssoc(v0, [a, b, c] + [a, b, apex] + [b, c, apex], [c, a, apex]);
    AppendAssoc(t0, [FreshTriangle(n)] + [FreshTriangle(n + 3)] + [FreshTriangle(n + 6)], [FreshTriangle(n + 9)]);
    PyramidTrianglesInOrder(n);
  }
}
