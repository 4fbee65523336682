/** The two operations src/Math3D.hpp adds to the vector algebra it shares with
    engine/Math3D.hpp: sampling evenly spaced points on a segment, and sampling
    the six edges of a pyramid into one buffer. */
module LineSampling {
  import opened DataTypes
  import opened Math3D

  /** Point `i` of a segment cut into `steps` pieces: `a + (b - a) * (i / steps)`. */
  function SamplePoint(a: Vec3, b: Vec3, steps: int, i: int): Vec3
    requires ValidSteps(steps)
  {
    VecAddAtomic(a, VecScaleAtomic(VecSubAtomic(b, a), i as real / steps as real))
  }

  /** Sample counts the C++ code handles: not zero (the first sample would be
      0/0) and not below -1 (`reserve(steps + 1)` would be asked for more than
      `max_size()` and throw). */
  predicate ValidSteps(steps: int)
  {
    steps >= -1 && steps != 0
  }

  /** The points the loop `for (i = 0; i <= steps; ++i)` produces: `steps + 1`
      of them, so none when `steps` is -1. */
  function SampledPoints(a: Vec3, b: Vec3, steps: int): (ps: seq<Vec3>)
    requires ValidSteps(steps)
    ensures |ps| == steps + 1
    ensures forall i :: 0 <= i < |ps| ==> ps[i] == Lerp(a, b, i as real / steps as real)
  {
    seq(steps + 1, i => SamplePoint(a, b, steps, i))
  }

  /** Over exact arithmetic the first sample is `a` and the last is `b`. */
  lemma {:induction false} SampledEndpoints(a: Vec3, b: Vec3, steps: int)
    requires steps >= 1
    ensures SampledPoints(a, b, steps)[0] == a
    ensures SampledPoints(a, b, steps)[steps] == b
  {
    var ps := SampledPoints(a, b, steps);
    assert steps as real / steps as real == 1.0;
    assert ps[steps] == Lerp(a, b, 1.0);
    assert ps[0] == Lerp(a, b, 0.0);
    LerpEndpoints(a, b);
  }

  /** `SampleLineBetweenPoints`: clears `out`, then appends the samples in
      order. With `steps` at -1 the loop body never runs and `out` is left
      empty. */
  method SampleLineBetweenPoints(a: Vec3, b: Vec3, steps: int, out: Vec3Buffer)
    requires ValidSteps(steps)
    modifies out
    ensures out.Valid()
    ensures out.Entries() == SampledPoints(a, b, steps)
  {
    out.Clear();
    var i := 0;
    while i <= steps
      invariant 0 <= i <= |SampledPoints(a, b, steps)|
      invariant out.Valid()
      invariant out.Entries() == SampledPoints(a, b, steps)[..i]
    {
      var t := i as real / steps as real;
      var p := VecAddAtomic(a, VecScaleAtomic(VecSubAtomic(b, a), t));
      out.PushBack(p.x, p.y, p.z);
      i := i + 1;
    }
    assert SampledPoints(a, b, steps)[..i] == SampledPoints(a, b, steps);
  }

  /** The `sample_edge` lambda: samples `p1`–`p2` into the scratch buffer and
      copies the samples onto the end of `out`. */
  method SampleEdge(p1: Vec3, p2: Vec3, steps: int, temp: Vec3Buffer, out: Vec3Buffer)
    requires ValidSteps(steps) && temp != out && out.Valid()
    modifies temp, out
    ensures out.Valid()
    ensures out.Entries() == old(out.Entries()) + SampledPoints(p1, p2, steps)
  {
    temp.Clear();
    SampleLineBetweenPoints(p1, p2, steps, temp);
    var i := 0;
    while i < temp.Size()
      invariant 0 <= i <= temp.Size()
      invariant out.Valid() && temp.Valid()
      invariant temp.Entries() == SampledPoints(p1, p2, steps)
      invariant out.Entries() == old(out.Entries()) + temp.Entries()[..i]
    {
      out.PushBack(temp.x[i], temp.y[i], temp.z[i]);
      assert temp.Entries()[..i + 1] == temp.Entries()[..i] + [Vec3(temp.x[i], temp.y[i], temp.z[i])];
      i := i + 1;
    }
    assert temp.Entries()[..i] == temp.Entries();
  }

  /** The samples of the pyramid's six edges, in drawing order: the base
      `a`–`b`, `b`–`c`, `c`–`a`, then the sides `a`, `b`, `c` to the apex. */
  function PyramidSamples(a: Vec3, b: Vec3, c: Vec3, apex: Vec3, steps: int): seq<Vec3>
    requires ValidSteps(steps)
  {
    SampledPoints(a, b, steps) + SampledPoints(b, c, steps) + SampledPoints(c, a, steps) +
    SampledPoints(a, apex, steps) + SampledPoints(b, apex, steps) + SampledPoints(c, apex, steps)
  }

  /** Six runs of `steps + 1` points each. */
  lemma PyramidSamplesLength(a: Vec3, b: Vec3, c: Vec3, apex: Vec3, steps: int)
    requires steps >= 1
    ensures |PyramidSamples(a, b, c, apex, steps)| == 6 * (steps + 1)
    ensures PyramidSamples(a, b, c, apex, steps)[0] == a
    ensures PyramidSamples(a, b, c, apex, steps)[6 * (steps + 1) - 1] == apex
  {
    SampledEndpoints(a, b, steps);
    SampledEndpoints(c, apex, steps);
  }

  /** `BuildPyramidWireframe`: clears `out` and fills it with the samples of
      the six edges. */
  method BuildPyramidWireframe(a: Vec3, b: Vec3, c: Vec3, apex: Vec3, steps: int, out: Vec3Buffer)
    requires ValidSteps(steps)
    modifies out
    ensures out.Valid()
    ensures out.Entries() == PyramidSamples(a, b, c, apex, steps)
  {
    out.Clear();
    var temp := new Vec3Buffer();
    ghost var ab, bc, ca := SampledPoints(a, b, steps), SampledPoints(b, c, steps), SampledPoints(c, a, steps);
    ghost var aApex, bApex, cApex := SampledPoints(a, apex, steps), SampledPoints(b, apex, steps), SampledPoints(c, apex, steps);
    SampleEdge(a, b, steps, temp, out);
    assert out.Entries() == ab;
    SampleEdge(b, c, steps, temp, out);
    SampleEdge(c, a, steps, temp, out);
    assert out.Entries() == ab + bc + ca;
    SampleEdge(a, apex, steps, temp, out);
    SampleEdge(b, apex, steps, temp, out);
    SampleEdge(c, apex, steps, temp, out);
    assert out.Entries() == ab + bc + ca + aApex + bApex + cApex;
  }
}
