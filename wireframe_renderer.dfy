/** engine/WireframeRenderer.hpp: collecting the undirected edges of a
    triangle mesh, and the all-octant Bresenham loop that draws a line on the
    character grid. */
module WireframeRenderer {
  import opened DataTypes
  import opened FrameBuffer
  import opened MeshBuilder

  // ---- ExtractEdges ----

  /** The three edges of one triangle, each normalised by `MakeEdge`. */
  function TriEdges(t: Tri): set<Edge>
  {
    {MakeEdge(t.i0, t.i1), MakeEdge(t.i1, t.i2), MakeEdge(t.i2, t.i0)}
  }

  /** The edges of the triangles `ts`, in the order the loop inserts them. */
  function EdgesOf(ts: seq<Tri>): set<Edge>
  {
    if |ts| == 0 then {} else EdgesOf(ts[..|ts| - 1]) + TriEdges(ts[|ts| - 1])
  }

  /** `ExtractEdges`: inserts the three edges of every triangle into a set. */
  method ExtractEdges(tris: TriangleBuffer) returns (edges: set<Edge>)
    ensures edges == EdgesOf(tris.indices)
  {
    edges := {};
    var i := 0;
    while i < |tris.indices|
      invariant 0 <= i <= |tris.indices|
      invariant edges == EdgesOf(tris.indices[..i])
    {
      var tri := tris.indices[i];
      edges := edges + {MakeEdge(tri.i0, tri.i1)};
      edges := edges + {MakeEdge(tri.i1, tri.i2)};
      edges := edges + {MakeEdge(tri.i2, tri.i0)};
      assert tris.indices[..i + 1][..i] == tris.indices[..i];
      i := i + 1;
    }
    assert tris.indices[..i] == tris.indices;
  }

  /** An edge is extracted exactly when some triangle has it as one of its
      three sides. */
  lemma {:induction false} EdgesOfMembership(ts: seq<Tri>, e: Edge)
    ensures e in EdgesOf(ts) <==> exists k :: 0 <= k < |ts| && e in TriEdges(ts[k])
  {
    if |ts| > 0 {
      var init := ts[..|ts| - 1];
      EdgesOfMembership(init, e);
      if e in EdgesOf(ts) {
        if e !in TriEdges(ts[|ts| - 1]) {
          var k :| 0 <= k < |init| && e in TriEdges(init[k]);
          assert ts[k] == init[k];
        }
      } else {
        forall k | 0 <= k < |ts|
          ensures e !in TriEdges(ts[k])
        {
          if k < |init| {
            assert ts[k] == init[k];
          }
        }
      }
    }
  }

  /** Every extracted edge is stored smaller index first, so a side shared by
      several triangles, in either direction, is extracted once. */
  lemma {:induction false} EdgesOfNormalised(ts: seq<Tri>, e: Edge)
    requires e in EdgesOf(ts)
    ensures e.a <= e.b
    ensures e == MakeEdge(e.a, e.b) && e == MakeEdge(e.b, e.a)
  {
    EdgesOfMembership(ts, e);
  }

  /** No more edges than three per triangle. */
  lemma {:induction false} EdgesOfBound(ts: seq<Tri>)
    ensures |EdgesOf(ts)| <= 3 * |ts|
  {
    if |ts| > 0 {
      var t := ts[|ts| - 1];
      EdgesOfBound(ts[..|ts| - 1]);
      assert |TriEdges(t)| <= 3 by {
        var s1 := {MakeEdge(t.i0, t.i1)};
        var s2 := s1 + {MakeEdge(t.i1, t.i2)};
        assert |s2| <= |s1| + 1;
        assert TriEdges(t) == s2 + {MakeEdge(t.i2, t.i0)};
      }
    }
  }

  /** Two triangles sharing the side 1–2 in opposite directions give five
      edges, not six. */
  lemma SharedSideExtractedOnce()
    ensures EdgesOf([Tri(0, 1, 2), Tri(2, 1, 3)]) == {Edge(0, 1), Edge(1, 2), Edge(0, 2), Edge(1, 3), Edge(2, 3)}
    ensures |EdgesOf([Tri(0, 1, 2), Tri(2, 1, 3)])| == 5
  {
    assert [Tri(0, 1, 2), Tri(2, 1, 3)][..1] == [Tri(0, 1, 2)];
    assert [Tri(0, 1, 2)][..0] == [];
  }

  /** The three sides of a freshly built triangle, all between its first and
      last index. */
  lemma FreshTriangleEdges(base: nat)
    ensures TriEdges(FreshTriangle(base)) == {Edge(base, base + 1), Edge(base + 1, base + 2), Edge(base, base + 2)}
    ensures |TriEdges(FreshTriangle(base))| == 3
    ensures forall e :: e in TriEdges(FreshTriangle(base)) ==> base <= e.a < e.b <= base + 2
  {
    assert |{Edge(base, base + 1)} + {Edge(base + 1, base + 2)}| == 2;
  }

  /** Edge sets on either side of index `m` are disjoint, so their sizes add. */
  lemma SeparatedUnion(lower: set<Edge>, upper: set<Edge>, m: int)
    requires forall e :: e in lower ==> e.a < m
    requires forall e :: e in upper ==> e.a >= m
    ensures |lower + upper| == |lower| + |upper|
  {
    assert lower * upper == {} by {
      forall e | e in lower * upper
        ensures false
      {
      }
    }
  }

  lemma PyramidEdgesOf(base: nat)
    ensures EdgesOf(PyramidTriangles(base)) ==
      TriEdges(FreshTriangle(base)) + TriEdges(FreshTriangle(base + 3)) +
      TriEdges(FreshTriangle(base + 6)) + TriEdges(FreshTriangle(base + 9))
  {
    var ts := PyramidTriangles(base);
    assert ts[..1][..0] == [] && ts[..2][..1] == ts[..1] && ts[..3][..2] == ts[..2] && ts[..4][..3] == ts[..3] && ts[..4] == ts;
    assert EdgesOf(ts[..1]) == TriEdges(FreshTriangle(base));
    assert EdgesOf(ts[..2]) == EdgesOf(ts[..1]) + TriEdges(FreshTriangle(base + 3));
    assert EdgesOf(ts[..3]) == EdgesOf(ts[..2]) + TriEdges(FreshTriangle(base + 6));
  }

  /** A pyramid from `BuildPyramidMesh` has twelve distinct edges: its four
      triangles share no vertex index, so no side is shared. */
  lemma {:induction false} PyramidHasTwelveEdges(base: nat)
    ensures |EdgesOf(PyramidTriangles(base))| == 12
  {
    var e0, e1 := TriEdges(FreshTriangle(base)), TriEdges(FreshTriangle(base + 3));
    var e2, e3 := TriEdges(FreshTriangle(base + 6)), TriEdges(FreshTriangle(base + 9));
    PyramidEdgesOf(base);
    FreshTriangleEdges(base);
    FreshTriangleEdges(base + 3);
    FreshTriangleEdges(base + 6);
    FreshTriangleEdges(base + 9);
    SeparatedUnion(e0, e1, base + 3);
    SeparatedUnion(e0 + e1, e2, base + 6);
    SeparatedUnion(e0 + e1 + e2, e3, base + 9);
  }

  // ---- DrawLine ----

  function Abs(v: int): int { if v < 0 then -v else v }

  /** The horizontal and vertical extents of the line `a`→`b` (`dx` and
      `-dy` in the loop). */
  function Dx(a: Int2, b: Int2): int { Abs(b.x - a.x) }
  function Dy(a: Int2, b: Int2): int { Abs(b.y - a.y) }

  /** The loop's state, `x0`, `y0` and `err`, together with the number of
      x-steps and y-steps taken so far (these two are for the proof only). */
  datatype Cursor = Cursor(x: int, y: int, err: int, nx: int, ny: int)

  /** The state before the first iteration: at `a`, with `err = dx + dy`. */
  function Start(a: Int2, b: Int2): Cursor
  {
    Cursor(a.x, a.y, Dx(a, b) - Dy(a, b), 0, 0)
  }

  /** The cursor has taken `nx` steps towards `b.x` and `ny` towards `b.y`,
      neither beyond its target, and `err` is determined by those counts. */
  predicate OnTrack(a: Int2, b: Int2, c: Cursor)
  {
    var d, e := Dx(a, b), Dy(a, b);
    0 <= c.nx <= d && 0 <= c.ny <= e &&
    c.x == (if a.x < b.x then a.x + c.nx else a.x - c.nx) &&
    c.y == (if a.y < b.y then a.y + c.ny else a.y - c.ny) &&
    c.err == d * (1 + c.ny) - e * (1 + c.nx)
  }

  /** One iteration after the plot and the exit test: with `e2 = 2 * err`,
      step in x when `e2 >= dy` and in y when `e2 <= dx`. */
  function Advance(a: Int2, b: Int2, c: Cursor): Cursor
  {
    var d, e := Dx(a, b), Dy(a, b);
    var sx, sy := if a.x < b.x then 1 else -1, if a.y < b.y then 1 else -1;
    var e2 := 2 * c.err;
    var c1 := if e2 >= -e then Cursor(c.x + sx, c.y, c.err - e, c.nx + 1, c.ny) else c;
    if e2 <= d then Cursor(c1.x, c1.y + sy, c1.err + d, c1.nx, c1.ny + 1) else c1
  }

  function Measure(a: Int2, b: Int2, c: Cursor): int
  {
    Dx(a, b) - c.nx + Dy(a, b) - c.ny
  }

  lemma MulMonotone(k: int, p: int, q: int)
    requires k >= 0 && p <= q
    ensures k * p <= k * q
  {
  }

  /** The cursor is at `b` exactly when both step counts are used up. */
  lemma AtEndIff(a: Int2, b: Int2, c: Cursor)
    requires OnTrack(a, b, c)
    ensures (c.x == b.x && c.y == b.y) <==> (c.nx == Dx(a, b) && c.ny == Dy(a, b))
  {
  }

  /** At the target column with rows still to go, `2 * err < dy`: no
      x-step. */
  lemma NoOvershootX(d: int, e: int, nx: int, ny: int)
    requires 0 <= nx == d && 0 <= ny < e
    ensures 2 * (d * (1 + ny) - e * (1 + nx)) < -e
  {
    MulMonotone(d, 1 + ny, e);
    assert e * (1 + nx) == e * d + e;
  }

  /** At the target row with columns still to go, `2 * err > dx`: no
      y-step. */
  lemma NoOvershootY(d: int, e: int, nx: int, ny: int)
    requires 0 <= nx < d && 0 <= ny == e
    ensures 2 * (d * (1 + ny) - e * (1 + nx)) > d
  {
    MulMonotone(e, 1 + nx, d);
    assert d * (1 + ny) == d * e + d;
  }

  lemma CountStep(k: int, n: int)
    ensures k * (1 + (n + 1)) == k * (1 + n) + k
  {
  }

  /** Away from `b`, an iteration steps in x or y or both, never past the
      target coordinate, and keeps `err` tied to the step counts. */
  lemma {:induction false} AdvanceOnTrack(a: Int2, b: Int2, c: Cursor)
    requires OnTrack(a, b, c) && !(c.x == b.x && c.y == b.y)
    ensures OnTrack(a, b, Advance(a, b, c))
    ensures 0 <= Measure(a, b, Advance(a, b, c)) < Measure(a, b, c)
    ensures var n := Advance(a, b, c);
      (n.nx == c.nx || n.nx == c.nx + 1) && (n.ny == c.ny || n.ny == c.ny + 1)
  {
    var d, e := Dx(a, b), Dy(a, b);
    AtEndIff(a, b, c);
    if c.nx == d {
      NoOvershootX(d, e, c.nx, c.ny);
    }
    if c.ny == e {
      NoOvershootY(d, e, c.nx, c.ny);
    }
    CountStep(e, c.nx);
    CountStep(d, c.ny);
  }

  /** The cells the loop visits from cursor `c` until it reaches `b`. */
  function Walk(a: Int2, b: Int2, c: Cursor): (cells: seq<Int2>)
    requires OnTrack(a, b, c)
    decreases Measure(a, b, c)
  {
    if c.x == b.x && c.y == b.y then [Int2(c.x, c.y)]
    else
      AdvanceOnTrack(a, b, c);
      [Int2(c.x, c.y)] + Walk(a, b, Advance(a, b, c))
  }

  lemma StartOnTrack(a: Int2, b: Int2)
    ensures OnTrack(a, b, Start(a, b))
  {
  }

  /** Every cell `DrawLine(a, b)` visits, in order, on or off the grid. */
  function Line(a: Int2, b: Int2): seq<Int2>
  {
    StartOnTrack(a, b);
    Walk(a, b, Start(a, b))
  }

  /** The plot at the top of the loop: the cell is written only when it is on
      the grid, so the cells written so far grow by `(x, y)`. */
  method Plot(fb: array2<char>, x: int, y: int, ch: char, ghost done: seq<Int2>)
    requires ScreenSized(fb)
    modifies fb
    ensures forall r, c :: 0 <= r < ScreenHeight && 0 <= c < ScreenWidth ==>
      fb[r, c] == if r == y && c == x then ch else old(fb[r, c])
    ensures (forall r, c :: 0 <= r < ScreenHeight && 0 <= c < ScreenWidth ==>
               old(fb[r, c]) == if Int2(c, r) in done then ch else old(fb[r, c])) ==>
            (forall r, c :: 0 <= r < ScreenHeight && 0 <= c < ScreenWidth ==>
               fb[r, c] == if Int2(c, r) in done + [Int2(x, y)] then ch else old(fb[r, c]))
  {
    if 0 <= x < ScreenWidth && 0 <= y < ScreenHeight {
      fb[y, x] := ch;
    }
  }

  /** One unfolding of `Walk`: the current cell, then the walk from the next
      cursor. */
  lemma {:induction false} WalkStep(a: Int2, b: Int2, c: Cursor)
    requires OnTrack(a, b, c) && !(c.x == b.x && c.y == b.y)
    ensures OnTrack(a, b, Advance(a, b, c))
    ensures Measure(a, b, Advance(a, b, c)) < Measure(a, b, c)
    ensures Walk(a, b, c) == [Int2(c.x, c.y)] + Walk(a, b, Advance(a, b, c))
  {
    AdvanceOnTrack(a, b, c);
  }

  /** The body of the loop after the exit test: the x-step when `e2 >= dy`,
      then the y-step when `e2 <= dx`, which is `Advance` on the cursor. */
  method Step(ghost a: Int2, ghost b: Int2, ghost c: Cursor, dx: int, dy: int, sx: int, sy: int,
              x0: int, y0: int, err: int) returns (x: int, y: int, e: int)
    requires dx == Dx(a, b) && dy == -Dy(a, b)
    requires sx == (if a.x < b.x then 1 else -1) && sy == (if a.y < b.y then 1 else -1)
    requires c.x == x0 && c.y == y0 && c.err == err
    ensures x == Advance(a, b, c).x && y == Advance(a, b, c).y && e == Advance(a, b, c).err
  {
    x, y, e := x0, y0, err;
    var e2 := 2 * err;
    if e2 >= dy {
      e := e + dy;
      x := x + sx;
    }
    if e2 <= dx {
      e := e + dx;
      y := y + sy;
    }
  }

  /** `DrawLine`: every grid cell on the line becomes `ch`; cells off the line,
      and positions off the grid, are left alone. */
  method DrawLine(a: Int2, b: Int2, fb: array2<char>, ch: char)
    requires ScreenSized(fb)
    modifies fb
    ensures forall r, c :: 0 <= r < ScreenHeight && 0 <= c < ScreenWidth ==>
      fb[r, c] == if Int2(c, r) in Line(a, b) then ch else old(fb[r, c])
  {
    var x0, y0, x1, y1 := a.x, a.y, b.x, b.y;
    var dx, dy := Abs(x1 - x0), -Abs(y1 - y0);
    var sx, sy := if x0 < x1 then 1 else -1, if y0 < y1 then 1 else -1;
    var err := dx + dy;
    ghost var cur := Start(a, b);
    ghost var done: seq<Int2> := [];
    StartOnTrack(a, b);
    while true
      invariant cur.x == x0 && cur.y == y0 && cur.err == err
      invariant OnTrack(a, b, cur)
      invariant done + Walk(a, b, cur) == Line(a, b)
      invariant forall r, c :: 0 <= r < ScreenHeight && 0 <= c < ScreenWidth ==>
        fb[r, c] == if Int2(c, r) in done then ch else old(fb[r, c])
      decreases Measure(a, b, cur)
    {
      Plot(fb, x0, y0, ch, done);
      ghost var before := done;
      done := done + [Int2(x0, y0)];
      if x0 == x1 && y0 == y1 {
        assert Walk(a, b, cur) == [Int2(x0, y0)];
        break;
      }
      WalkStep(a, b, cur);
      AppendAssoc(before, [Int2(x0, y0)], Walk(a, b, Advance(a, b, cur)));
      x0, y0, err := Step(a, b, cur, dx, dy, sx, sy, x0, y0, err);
      cur := Advance(a, b, cur);
    }
  }

  // ---- Properties of the visited cells ----

  lemma {:induction false} WalkEnds(a: Int2, b: Int2, c: Cursor)
    requires OnTrack(a, b, c)
    ensures |Walk(a, b, c)| >= 1
    ensures Walk(a, b, c)[0] == Int2(c.x, c.y)
    ensures Walk(a, b, c)[|Walk(a, b, c)| - 1] == b
    decreases Measure(a, b, c)
  {
    if !(c.x == b.x && c.y == b.y) {
      AdvanceOnTrack(a, b, c);
      WalkEnds(a, b, Advance(a, b, c));
    }
  }

  /** The line starts at `a` and ends at `b`, whatever the octant. */
  lemma LineEndpoints(a: Int2, b: Int2)
    ensures |Line(a, b)| >= 1
    ensures Line(a, b)[0] == a
    ensures Line(a, b)[|Line(a, b)| - 1] == b
  {
    StartOnTrack(a, b);
    WalkEnds(a, b, Start(a, b));
  }

  /** Consecutive cells differ by 0 or `sx` in x and by 0 or `sy` in y, and
      never by nothing. */
  predicate UnitStep(a: Int2, b: Int2, p: Int2, q: Int2)
  {
    var sx, sy := if a.x < b.x then 1 else -1, if a.y < b.y then 1 else -1;
    (q.x == p.x || q.x == p.x + sx) && (q.y == p.y || q.y == p.y + sy) && q != p
  }

  lemma {:induction false} WalkSteps(a: Int2, b: Int2, c: Cursor)
    requires OnTrack(a, b, c)
    ensures forall i :: 0 <= i < |Walk(a, b, c)| - 1 ==> UnitStep(a, b, Walk(a, b, c)[i], Walk(a, b, c)[i + 1])
    decreases Measure(a, b, c)
  {
    if !(c.x == b.x && c.y == b.y) {
      AdvanceOnTrack(a, b, c);
      var n := Advance(a, b, c);
      WalkSteps(a, b, n);
      WalkEnds(a, b, n);
      assert Walk(a, b, c) == [Int2(c.x, c.y)] + Walk(a, b, n);
    }
  }

  lemma LineSteps(a: Int2, b: Int2)
    ensures forall i :: 0 <= i < |Line(a, b)| - 1 ==> UnitStep(a, b, Line(a, b)[i], Line(a, b)[i + 1])
  {
    StartOnTrack(a, b);
    WalkSteps(a, b, Start(a, b));
  }

  /** The extra invariant of the dominant direction: on a mostly horizontal
      line every iteration steps in x, on a mostly vertical one in y. */
  predicate Dominant(a: Int2, b: Int2, c: Cursor)
  {
    (Dx(a, b) >= Dy(a, b) ==> 2 * c.err >= -Dy(a, b)) &&
    (Dy(a, b) >= Dx(a, b) ==> 2 * c.err <= Dx(a, b))
  }

  lemma {:induction false} WalkLength(a: Int2, b: Int2, c: Cursor)
    requires OnTrack(a, b, c) && Dominant(a, b, c)
    ensures |Walk(a, b, c)| == if Dx(a, b) >= Dy(a, b) then Dx(a, b) - c.nx + 1 else Dy(a, b) - c.ny + 1
    decreases Measure(a, b, c)
  {
    var d, e := Dx(a, b), Dy(a, b);
    AtEndIff(a, b, c);
    if !(c.x == b.x && c.y == b.y) {
      AdvanceOnTrack(a, b, c);
      var n := Advance(a, b, c);
      assert Dominant(a, b, n);
      WalkLength(a, b, n);
    }
  }

  /** The loop runs `max(|dx|, |dy|)` iterations after the first plot. */
  lemma LineLength(a: Int2, b: Int2)
    ensures |Line(a, b)| == (if Dx(a, b) >= Dy(a, b) then Dx(a, b) else Dy(a, b)) + 1
  {
    StartOnTrack(a, b);
    WalkLength(a, b, Start(a, b));
  }

  /** From (0, 0) to (4, 2) the loop visits (0,0), (1,1), (2,1), (3,2), (4,2). */
  lemma LineExample()
    ensures Line(Int2(0, 0), Int2(4, 2)) == [Int2(0, 0), Int2(1, 1), Int2(2, 1), Int2(3, 2), Int2(4, 2)]
  {
    var a, b := Int2(0, 0), Int2(4, 2);
    assert Dx(a, b) == 4 && Dy(a, b) == 2;
    StartOnTrack(a, b);
    var c0 := Start(a, b);
    var c1 := Advance(a, b, c0);
    var c2 := Advance(a, b, c1);
    var c3 := Advance(a, b, c2);
    var c4 := Advance(a, b, c3);
    assert c1 == Cursor(1, 1, 4, 1, 1);
    assert c2 == Cursor(2, 1, 2, 2, 1);
    assert c3 == Cursor(3, 2, 4, 3, 2);
    assert c4 == Cursor(4, 2, 2, 4, 2);
    assert Walk(a, b, c4) == [Int2(4, 2)];
    WalkStep(a, b, c0);
    WalkStep(a, b, c1);
    WalkStep(a, b, c2);
    WalkStep(a, b, c3);
  }

  /** Reversed, the same segment visits (3,1) and (1,0) instead of (1,1) and
      (3,2): the drawn line depends on the direction. */
  lemma LineNotSymmetric()
    ensures Line(Int2(4, 2), Int2(0, 0)) == [Int2(4, 2), Int2(3, 1), Int2(2, 1), Int2(1, 0), Int2(0, 0)]
  {
    var a, b := Int2(4, 2), Int2(0, 0);
    assert Dx(a, b) == 4 && Dy(a, b) == 2;
    StartOnTrack(a, b);
    var c0 := Start(a, b);
    var c1 := Advance(a, b, c0);
    var c2 := Advance(a, b, c1);
    var c3 := Advance(a, b, c2);
    var c4 := Advance(a, b, c3);
    assert c1 == Cursor(3, 1, 4, 1, 1);
    assert c2 == Cursor(2, 1, 2, 2, 1);
    assert c3 == Cursor(1, 0, 4, 3, 2);
    assert c4 == Cursor(0, 0, 2, 4, 2);
    assert Walk(a, b, c4) == [Int2(0, 0)];
    WalkStep(a, b, c0);
    WalkStep(a, b, c1);
    WalkStep(a, b, c2);
    WalkStep(a, b, c3);
  }

  lemma {:induction false} HorizontalWalk(a: Int2, b: Int2, c: Cursor)
    requires a.y == b.y && OnTrack(a, b, c)
    ensures |Walk(a, b, c)| == Dx(a, b) - c.nx + 1
    ensures forall k :: 0 <= k < |Walk(a, b, c)| ==>
      Walk(a, b, c)[k] == Int2(if a.x < b.x then c.x + k else c.x - k, a.y)
    decreases Measure(a, b, c)
  {
    AtEndIff(a, b, c);
    if !(c.x == b.x && c.y == b.y) {
      AdvanceOnTrack(a, b, c);
      var n := Advance(a, b, c);
      HorizontalWalk(a, b, n);
      assert n.nx == c.nx + 1;
    }
  }

  /** On a horizontal line every column from `a.x` to `b.x` is visited in the
      row `a.y`, and the row never changes. */
  lemma HorizontalLine(a: Int2, b: Int2)
    requires a.y == b.y
    ensures |Line(a, b)| == Dx(a, b) + 1
    ensures forall k :: 0 <= k <= Dx(a, b) ==> Line(a, b)[k] == Int2(if a.x < b.x then a.x + k else a.x - k, a.y)
  {
    StartOnTrack(a, b);
    HorizontalWalk(a, b, Start(a, b));
  }
}
