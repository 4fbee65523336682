/** engine/FilledRenderer.hpp: `DrawFilledTriangle`, which fills a triangle on
    the character grid by testing every cell of its clamped bounding box
    against the three edge functions. */
module FilledRenderer {
  import opened DataTypes
  import opened FrameBuffer

  function Min3(a: int, b: int, c: int): int { Min(Min(a, b), c) }
  function Max3(a: int, b: int, c: int): int { Max(Max(a, b), c) }

  /** The `edge` lambda: twice the signed area of the triangle `a`, `b`, `c`,
      positive on one side of the directed line `a`→`b` and negative on the
      other. */
  function EdgeFunction(a: Int2, b: Int2, c: Int2): int
  {
    (c.x - a.x) * (b.y - a.y) - (c.y - a.y) * (b.x - a.x)
  }

  /** The bounding box of the three corners, each bound clamped to the grid. */
  datatype Box = Box(minX: int, maxX: int, minY: int, maxY: int)

  function ClampedBox(p0: Int2, p1: Int2, p2: Int2): (box: Box)
    ensures 0 <= box.minX <= box.maxX <= ScreenWidth - 1
    ensures 0 <= box.minY <= box.maxY <= ScreenHeight - 1
  {
    Box(Clamp(Min3(p0.x, p1.x, p2.x), 0, ScreenWidth - 1),
        Clamp(Max3(p0.x, p1.x, p2.x), 0, ScreenWidth - 1),
        Clamp(Min3(p0.y, p1.y, p2.y), 0, ScreenHeight - 1),
        Clamp(Max3(p0.y, p1.y, p2.y), 0, ScreenHeight - 1))
  }

  predicate InBox(box: Box, x: int, y: int)
  {
    box.minX <= x <= box.maxX && box.minY <= y <= box.maxY
  }

  /** The three edge values agree in sign (a zero agrees with either). */
  predicate SameSide(w0: int, w1: int, w2: int)
  {
    (w0 >= 0 && w1 >= 0 && w2 >= 0) || (w0 <= 0 && w1 <= 0 && w2 <= 0)
  }

  /** Cell (x, y) is filled: the triangle is not degenerate, the cell lies in
      the clamped bounding box, and its three edge values share a sign. */
  predicate Covers(p0: Int2, p1: Int2, p2: Int2, x: int, y: int)
  {
    var p := Int2(x, y);
    EdgeFunction(p0, p1, p2) != 0 &&
    InBox(ClampedBox(p0, p1, p2), x, y) &&
    SameSide(EdgeFunction(p1, p2, p), EdgeFunction(p2, p0, p), EdgeFunction(p0, p1, p))
  }

  // ---- The edge-function identities ----

  /** Swapping the first two points negates the edge value. */
  lemma EdgeAntisymmetric(a: Int2, b: Int2, c: Int2)
    ensures EdgeFunction(b, a, c) == -EdgeFunction(a, b, c)
  {
  }

  /** Rotating the three points leaves the edge value unchanged. */
  lemma EdgeCyclic(a: Int2, b: Int2, c: Int2)
    ensures EdgeFunction(b, c, a) == EdgeFunction(a, b, c)
  {
  }

  /** The three edge values of any point add up to the triangle's area term. */
  lemma EdgeSumIsArea(p0: Int2, p1: Int2, p2: Int2, p: Int2)
    ensures EdgeFunction(p1, p2, p) + EdgeFunction(p2, p0, p) + EdgeFunction(p0, p1, p) == EdgeFunction(p0, p1, p2)
  {
  }

  /** An edge value is zero when the tested point is one of the edge's ends. */
  lemma EdgeAtEndpoints(a: Int2, b: Int2)
    ensures EdgeFunction(a, b, a) == 0 && EdgeFunction(a, b, b) == 0
  {
  }

  // ---- Properties of the covered set ----

  /** Rotating the corners, or swapping two of them (which reverses the
      winding), fills exactly the same cells. */
  lemma {:induction false} CoversPermutationInvariant(p0: Int2, p1: Int2, p2: Int2, x: int, y: int)
    ensures Covers(p1, p2, p0, x, y) == Covers(p0, p1, p2, x, y)
    ensures Covers(p1, p0, p2, x, y) == Covers(p0, p1, p2, x, y)
  {
    CoversRotate(p0, p1, p2, x, y);
    CoversSwap(p0, p1, p2, x, y);
  }

  /** Rotating the corners keeps the area term and permutes the three edge
      values. */
  lemma {:induction false} CoversRotate(p0: Int2, p1: Int2, p2: Int2, x: int, y: int)
    ensures Covers(p1, p2, p0, x, y) == Covers(p0, p1, p2, x, y)
  {
    EdgeCyclic(p0, p1, p2);
    assert ClampedBox(p1, p2, p0) == ClampedBox(p0, p1, p2);
  }

  /** Swapping two corners negates the area term and every edge value. */
  lemma {:induction false} CoversSwap(p0: Int2, p1: Int2, p2: Int2, x: int, y: int)
    ensures Covers(p1, p0, p2, x, y) == Covers(p0, p1, p2, x, y)
  {
    var p := Int2(x, y);
    EdgeAntisymmetric(p0, p1, p2);
    EdgeAntisymmetric(p1, p2, p);
    EdgeAntisymmetric(p2, p0, p);
    EdgeAntisymmetric(p0, p1, p);
    assert ClampedBox(p1, p0, p2) == ClampedBox(p0, p1, p2);
  }

  /** Every corner of a non-degenerate triangle that lies on the grid is
      filled: two of its edge values are zero and the third is the area term. */
  lemma {:induction false} CornersCovered(p0: Int2, p1: Int2, p2: Int2)
    requires EdgeFunction(p0, p1, p2) != 0
    ensures 0 <= p0.x < ScreenWidth && 0 <= p0.y < ScreenHeight ==> Covers(p0, p1, p2, p0.x, p0.y)
    ensures 0 <= p1.x < ScreenWidth && 0 <= p1.y < ScreenHeight ==> Covers(p0, p1, p2, p1.x, p1.y)
    ensures 0 <= p2.x < ScreenWidth && 0 <= p2.y < ScreenHeight ==> Covers(p0, p1, p2, p2.x, p2.y)
  {
    EdgeAtEndpoints(p2, p0);
    EdgeAtEndpoints(p0, p1);
    EdgeAtEndpoints(p1, p2);
    EdgeSumIsArea(p0, p1, p2, p0);
    EdgeSumIsArea(p0, p1, p2, p1);
    EdgeSumIsArea(p0, p1, p2, p2);
    assert Int2(p0.x, p0.y) == p0 && Int2(p1.x, p1.y) == p1 && Int2(p2.x, p2.y) == p2;
  }

  /** A degenerate triangle (three collinear corners) fills nothing. */
  lemma DegenerateCoversNothing(p0: Int2, p1: Int2, p2: Int2, x: int, y: int)
    requires EdgeFunction(p0, p1, p2) == 0
    ensures !Covers(p0, p1, p2, x, y)
  {
  }

  // ---- The rasteriser ----

  /** `DrawFilledTriangle`: every covered cell becomes `ch`; every other cell
      keeps its value. */
  method DrawFilledTriangle(p0: Int2, p1: Int2, p2: Int2, fb: array2<char>, ch: char)
    requires ScreenSized(fb)
    modifies fb
    ensures forall r, c :: 0 <= r < ScreenHeight && 0 <= c < ScreenWidth ==>
      fb[r, c] == if Covers(p0, p1, p2, c, r) then ch else old(fb[r, c])
  {
    var box := ClampedBox(p0, p1, p2);
    var area := EdgeFunction(p0, p1, p2);
    if area == 0 {
      return;
    }
    var y := box.minY;
    while y <= box.maxY
      invariant box.minY <= y <= box.maxY + 1
      invariant forall r, c :: 0 <= r < ScreenHeight && 0 <= c < ScreenWidth ==>
        fb[r, c] == if r < y && Covers(p0, p1, p2, c, r) then ch else old(fb[r, c])
    {
      var x := box.minX;
      while x <= box.maxX
        invariant box.minX <= x <= box.maxX + 1
        invariant forall r, c :: 0 <= r < ScreenHeight && 0 <= c < ScreenWidth ==>
          fb[r, c] == if (r < y || (r == y && c < x)) && Covers(p0, p1, p2, c, r) then ch else old(fb[r, c])
      {
        var p := Int2(x, y);
        var w0 := EdgeFunction(p1, p2, p);
        var w1 := EdgeFunction(p2, p0, p);
        var w2 := EdgeFunction(p0, p1, p);
        if (w0 >= 0 && w1 >= 0 && w2 >= 0) || (w0 <= 0 && w1 <= 0 && w2 <= 0) {
          fb[y, x] := ch;
        }
        x := x + 1;
      }
      y := y + 1;
    }
  }

  /** Drawing the same triangle a second time changes nothing more. */
  method DrawFilledTriangleTwice(p0: Int2, p1: Int2, p2: Int2, fb: array2<char>, ch: char)
    requires ScreenSized(fb)
    modifies fb
    ensures forall r, c :: 0 <= r < ScreenHeight && 0 <= c < ScreenWidth ==>
      fb[r, c] == if Covers(p0, p1, p2, c, r) then ch else old(fb[r, c])
  {
    DrawFilledTriangle(p0, p1, p2, fb, ch);
    DrawFilledTriangle(p0, p1, p2, fb, ch);
  }
}
