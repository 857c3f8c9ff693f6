/**
 * The colour blender of subcubeBlending.js: a subcube's vertex colours are
 * reduced to one colour by averaging, weighted averaging, per-channel
 * maximum or taking the first vertex, and every channel is clamped to
 * [0, 1]. Colours and weights are reals.
 */
module SubcubeBlending {
  import opened Scene

  /** The `mode` argument; any string other than the four named ones falls through to the average. */
  datatype Mode = Average | Weighted | Max | Layered | Unrecognised

  /** A vertex as the blender reads it: its colour and an optional weight (`weight ?? 1`). */
  datatype Vertex = Vertex(color: Rgb, weight: Option<real>)

  predicate InUnit(c: Rgb)
  {
    0.0 <= c.r <= 1.0 && 0.0 <= c.g <= 1.0 && 0.0 <= c.b <= 1.0
  }

  /** `clamp`: the nearest value in [0, 1]. */
  function Clamp(v: real): real
  {
    if v < 0.0 then 0.0 else if v > 1.0 then 1.0 else v
  }

  function ClampRgb(c: Rgb): Rgb
  {
    Rgb(Clamp(c.r), Clamp(c.g), Clamp(c.b))
  }

  function RealMax(a: real, b: real): real
  {
    if a >= b then a else b
  }

  function MaxRgb(a: Rgb, b: Rgb): Rgb
  {
    Rgb(RealMax(a.r, b.r), RealMax(a.g, b.g), RealMax(a.b, b.b))
  }

  function Add(a: Rgb, b: Rgb): Rgb
  {
    Rgb(a.r + b.r, a.g + b.g, a.b + b.b)
  }

  /** A colour with every channel multiplied by k. */
  function Scale(c: Rgb, k: real): Rgb
  {
    Rgb(c.r * k, c.g * k, c.b * k)
  }

  /** The weight a vertex contributes: its own (1 when missing) in 'weighted' mode, 1 otherwise. */
  function WeightOf(v: Vertex, mode: Mode): real
  {
    if mode == Weighted then (if v.weight.Some? then v.weight.value else 1.0) else 1.0
  }

  /** The running per-channel maximum, starting from black. */
  function RunMax(vs: seq<Vertex>): Rgb
    decreases |vs|
  {
    if vs == [] then Rgb(0.0, 0.0, 0.0) else MaxRgb(RunMax(vs[..|vs| - 1]), vs[|vs| - 1].color)
  }

  /** The weighted channel sums, accumulated front to back. */
  function Sum(vs: seq<Vertex>, mode: Mode): Rgb
    decreases |vs|
  {
    if vs == [] then Rgb(0.0, 0.0, 0.0)
    else Add(Sum(vs[..|vs| - 1], mode), Scale(vs[|vs| - 1].color, WeightOf(vs[|vs| - 1], mode)))
  }

  /** The total weight. */
  function Total(vs: seq<Vertex>, mode: Mode): real
    decreases |vs|
  {
    if vs == [] then 0.0 else Total(vs[..|vs| - 1], mode) + WeightOf(vs[|vs| - 1], mode)
  }

  /** `1 / totalWeight`, or 0 when the total weight is not positive. */
  function Inverse(total: real): real
  {
    if total > 0.0 then 1.0 / total else 0.0
  }

  /**
   * `blendVertices(vertices, mode)`: black for a missing or empty list; the
   * per-channel maximum for 'max'; the first vertex for 'layered'; the
   * weighted mean otherwise; always clamped.
   */
  function Blend(vertices: Option<seq<Vertex>>, mode: Mode): Rgb
  {
    if vertices.None? || vertices.value == [] then Rgb(0.0, 0.0, 0.0)
    else if mode == Max then ClampRgb(RunMax(vertices.value))
    else if mode == Layered then ClampRgb(vertices.value[0].color)
    else ClampRgb(Scale(Sum(vertices.value, mode), Inverse(Total(vertices.value, mode))))
  }

  /** The blending loops of `blendVertices`, proved to compute Blend. */
  method BlendVertices(vertices: Option<seq<Vertex>>, mode: Mode) returns (c: Rgb)
    ensures c == Blend(vertices, mode)
  {
    if vertices.None? || |vertices.value| == 0 {
      return Rgb(0.0, 0.0, 0.0);
    }
    if mode == Max {
      c := MaxBlend(vertices.value);
    } else {
      c := SumBlend(vertices.value, mode);
    }
  }

  /** The 'max' branch: the clamped running per-channel maximum. */
  method MaxBlend(vs: seq<Vertex>) returns (c: Rgb)
    requires vs != []
    ensures c == Blend(Some(vs), Max)
  {
    var r, g, b := 0.0, 0.0, 0.0;
    for i := 0 to |vs|
      invariant Rgb(r, g, b) == RunMax(vs[..i])
    {
      assert vs[..i + 1][..i] == vs[..i];
      r := RealMax(r, vs[i].color.r);
      g := RealMax(g, vs[i].color.g);
      b := RealMax(b, vs[i].color.b);
    }
    assert vs[..|vs|] == vs;
    c := ClampRgb(Rgb(r, g, b));
  }

  /** Every other mode: the weighted sums are accumulated, then the first vertex or the mean is returned. */
  method SumBlend(vs: seq<Vertex>, mode: Mode) returns (c: Rgb)
    requires vs != [] && mode != Max
    ensures c == Blend(Some(vs), mode)
  {
    var totalWeight := 0.0;
    var rSum, gSum, bSum := 0.0, 0.0, 0.0;
    for i := 0 to |vs|
      invariant totalWeight == Total(vs[..i], mode)
      invariant Rgb(rSum, gSum, bSum) == Sum(vs[..i], mode)
    {
      SumStep(vs, i, mode);
      var w := if mode == Weighted then (if vs[i].weight.Some? then vs[i].weight.value else 1.0) else 1.0;
      assert w == WeightOf(vs[i], mode);
      var sums := Add(Rgb(rSum, gSum, bSum), Scale(vs[i].color, w));
      rSum, gSum, bSum := sums.r, sums.g, sums.b;
      totalWeight := totalWeight + w;
    }
    assert vs[..|vs|] == vs;
    if mode == Layered {
      var first := vs[0];
      return ClampRgb(first.color);
    }
    var inv := if totalWeight > 0.0 then 1.0 / totalWeight else 0.0;
    assert inv == Inverse(Total(vs, mode));
    c := ClampRgb(Scale(Rgb(rSum, gSum, bSum), inv));
  }

  /** One more vertex adds its weighted colour to the sums and its weight to the total. */
  lemma SumStep(vs: seq<Vertex>, i: nat, mode: Mode)
    requires i < |vs|
    ensures Sum(vs[..i + 1], mode) == Add(Sum(vs[..i], mode), Scale(vs[i].color, WeightOf(vs[i], mode)))
    ensures Total(vs[..i + 1], mode) == Total(vs[..i], mode) + WeightOf(vs[i], mode)
  {
    assert vs[..i + 1][..i] == vs[..i];
  }

  /** Sum and Total of a list with one more vertex at the end. */
  lemma SumSnoc(init: seq<Vertex>, last: Vertex, mode: Mode)
    ensures Sum(init + [last], mode) == Add(Sum(init, mode), Scale(last.color, WeightOf(last, mode)))
    ensures Total(init + [last], mode) == Total(init, mode) + WeightOf(last, mode)
  {
    assert (init + [last])[..|init|] == init;
  }

  // ---------------------------------------------------------------------
  // Properties
  // ---------------------------------------------------------------------

  /** Every channel of every blend lies in [0, 1]. */
  lemma BlendInUnit(vertices: Option<seq<Vertex>>, mode: Mode)
    ensures InUnit(Blend(vertices, mode))
  {
    if vertices.Some? && vertices.value != [] {
      var vs := vertices.value;
      if mode == Max {
        ClampInUnit(RunMax(vs));
      } else if mode == Layered {
        ClampInUnit(vs[0].color);
      } else {
        ClampInUnit(Scale(Sum(vs, mode), Inverse(Total(vs, mode))));
      }
    }
  }

  lemma ClampInUnit(c: Rgb)
    ensures InUnit(ClampRgb(c))
  {
  }

  /** A missing or empty vertex list blends to black in every mode. */
  lemma EmptyIsBlack(vertices: Option<seq<Vertex>>, mode: Mode)
    requires vertices.None? || vertices.value == []
    ensures Blend(vertices, mode) == Rgb(0.0, 0.0, 0.0)
  {
  }

  /** Every channel of a is at most the same channel of b. */
  predicate Below(a: Rgb, b: Rgb)
  {
    a.r <= b.r && a.g <= b.g && a.b <= b.b
  }

  /**
   * The running maximum is at least black and every vertex colour, channel
   * by channel, and each of its channels is 0 or that channel of some vertex.
   */
  lemma {:induction false} RunMaxIsMaximum(vs: seq<Vertex>)
    ensures Below(Rgb(0.0, 0.0, 0.0), RunMax(vs))
    ensures forall i :: 0 <= i < |vs| ==> Below(vs[i].color, RunMax(vs))
    ensures RunMax(vs).r == 0.0 || exists i :: 0 <= i < |vs| && RunMax(vs).r == vs[i].color.r
    ensures RunMax(vs).g == 0.0 || exists i :: 0 <= i < |vs| && RunMax(vs).g == vs[i].color.g
    ensures RunMax(vs).b == 0.0 || exists i :: 0 <= i < |vs| && RunMax(vs).b == vs[i].color.b
    decreases |vs|
  {
    if vs != [] {
      var init, last := vs[..|vs| - 1], vs[|vs| - 1];
      RunMaxIsMaximum(init);
      assert forall i :: 0 <= i < |init| ==> vs[i] == init[i];
      var m, m' := RunMax(init), RunMax(vs);
      if m'.r != 0.0 && m'.r != last.color.r {
        var i :| 0 <= i < |init| && m.r == init[i].color.r;
        assert m'.r == vs[i].color.r;
      }
      if m'.g != 0.0 && m'.g != last.color.g {
        var i :| 0 <= i < |init| && m.g == init[i].color.g;
        assert m'.g == vs[i].color.g;
      }
      if m'.b != 0.0 && m'.b != last.color.b {
        var i :| 0 <= i < |init| && m.b == init[i].color.b;
        assert m'.b == vs[i].color.b;
      }
    }
  }

  /** Clamping keeps the order of channels. */
  lemma ClampMonotone(a: Rgb, b: Rgb)
    requires Below(a, b)
    ensures Below(ClampRgb(a), ClampRgb(b))
  {
  }

  /** 'max' is the clamped running maximum, and bounds the clamped colour of every vertex. */
  lemma MaxBlendBoundsEveryVertex(vs: seq<Vertex>)
    requires vs != []
    ensures Blend(Some(vs), Max) == ClampRgb(RunMax(vs))
    ensures forall i :: 0 <= i < |vs| ==> Below(ClampRgb(vs[i].color), Blend(Some(vs), Max))
  {
    RunMaxIsMaximum(vs);
    forall i | 0 <= i < |vs|
      ensures Below(ClampRgb(vs[i].color), ClampRgb(RunMax(vs)))
    {
      ClampMonotone(vs[i].color, RunMax(vs));
    }
  }

  /** In 'weighted' mode a total weight that is not positive gives black. */
  lemma NonPositiveWeightIsBlack(vs: seq<Vertex>)
    requires vs != [] && Total(vs, Weighted) <= 0.0
    ensures Blend(Some(vs), Weighted) == Rgb(0.0, 0.0, 0.0)
  {
  }

  /** Red with weight 1 and green with weight 3 blend to (0.25, 0.75, 0). */
  lemma WeightedExample(red: Vertex, green: Vertex)
    requires red == Vertex(Rgb(1.0, 0.0, 0.0), Some(1.0)) && green == Vertex(Rgb(0.0, 1.0, 0.0), Some(3.0))
    ensures Blend(Some([red, green]), Weighted) == Rgb(0.25, 0.75, 0.0)
  {
    TwoVertices(red, green, Weighted);
    assert WeightOf(red, Weighted) == 1.0 && WeightOf(green, Weighted) == 3.0;
    assert Scale(red.color, 1.0) == Rgb(1.0, 0.0, 0.0);
    assert Scale(green.color, 3.0) == Rgb(0.0, 3.0, 0.0);
    assert Sum([red, green], Weighted) == Rgb(1.0, 3.0, 0.0);
    assert Total([red, green], Weighted) == 4.0;
    assert Inverse(4.0) == 0.25;
    assert Scale(Rgb(1.0, 3.0, 0.0), 0.25) == Rgb(0.25, 0.75, 0.0);
    assert ClampRgb(Rgb(0.25, 0.75, 0.0)) == Rgb(0.25, 0.75, 0.0);
    MeanModes([red, green], Weighted);
  }

  /** In every mode but 'max' and 'layered' a non-empty list blends to its clamped weighted mean. */
  lemma MeanModes(vs: seq<Vertex>, mode: Mode)
    requires vs != [] && mode != Max && mode != Layered
    ensures Blend(Some(vs), mode) == ClampRgb(Scale(Sum(vs, mode), Inverse(Total(vs, mode))))
  {
  }

  /** Sum and Total of a two-vertex list, written out. */
  lemma TwoVertices(a: Vertex, b: Vertex, mode: Mode)
    ensures Sum([a, b], mode) == Add(Scale(a.color, WeightOf(a, mode)), Scale(b.color, WeightOf(b, mode)))
    ensures Total([a, b], mode) == WeightOf(a, mode) + WeightOf(b, mode)
  {
    assert [a, b][..1] == [a] && [a][..0] == [];
    assert Sum([a], mode) == Add(Rgb(0.0, 0.0, 0.0), Scale(a.color, WeightOf(a, mode)));
    assert Total([a], mode) == 0.0 + WeightOf(a, mode);
  }

  /** The plain channel sums, the reference for the mean. */
  function ColourSum(vs: seq<Vertex>): Rgb
    decreases |vs|
  {
    if vs == [] then Rgb(0.0, 0.0, 0.0) else Add(ColourSum(vs[..|vs| - 1]), vs[|vs| - 1].color)
  }

  /** With every weight equal to w the sums and the total scale by w. */
  lemma {:induction false} UniformSums(vs: seq<Vertex>, mode: Mode, w: real)
    requires forall i :: 0 <= i < |vs| ==> WeightOf(vs[i], mode) == w
    ensures Sum(vs, mode) == Scale(ColourSum(vs), w)
    ensures Total(vs, mode) == Times(w, |vs|)
    decreases |vs|
  {
    if vs != [] {
      var init, last := vs[..|vs| - 1], vs[|vs| - 1];
      UniformSums(init, mode, w);
      assert WeightOf(last, mode) == w;
      assert ColourSum(vs) == Add(ColourSum(init), last.color);
      ScaleAdd(ColourSum(init), last.color, w);
    }
  }

  /** Scaling distributes over adding colours. */
  lemma ScaleAdd(a: Rgb, b: Rgb, w: real)
    ensures Scale(Add(a, b), w) == Add(Scale(a, w), Scale(b, w))
  {
    assert (a.r + b.r) * w == a.r * w + b.r * w;
    assert (a.g + b.g) * w == a.g * w + b.g * w;
    assert (a.b + b.b) * w == a.b * w + b.b * w;
  }

  /** w added n times. */
  function Times(w: real, n: nat): real
  {
    if n == 0 then 0.0 else Times(w, n - 1) + w
  }

  /** Adding w n times is multiplying by n. */
  lemma {:induction false} TimesIsProduct(w: real, n: nat)
    ensures Times(w, n) == w * (n as real)
  {
    if n > 0 {
      TimesIsProduct(w, n - 1);
      assert w * ((n - 1) as real) + w == w * (n as real);
    }
  }

  /** Adding 1 n times gives n. */
  lemma {:induction false} TimesOne(n: nat)
    ensures Times(1.0, n) == n as real
  {
    if n > 0 {
      TimesOne(n - 1);
    }
  }

  /** x * (1 / n) is x / n. */
  lemma MulInverse(x: real, n: real)
    requires n > 0.0
    ensures x * (1.0 / n) == x / n
  {
  }

  /**
   * 'average', and any unrecognised mode, ignore the weights and give the
   * clamped arithmetic mean of each channel.
   */
  lemma AverageIsMean(vs: seq<Vertex>, mode: Mode)
    requires vs != [] && (mode == Average || mode == Unrecognised)
    ensures var n, s := |vs| as real, ColourSum(vs);
      Blend(Some(vs), mode) == ClampRgb(Rgb(s.r / n, s.g / n, s.b / n))
  {
    MeanModes(vs, mode);
    UniformSums(vs, mode, 1.0);
    TimesOne(|vs|);
    MeanOfScaled(ColourSum(vs), |vs| as real);
  }

  /** The unit-weight sums times the inverse count are the channel means. */
  lemma MeanOfScaled(s: Rgb, n: real)
    requires n > 0.0
    ensures Scale(Scale(s, 1.0), Inverse(n)) == Rgb(s.r / n, s.g / n, s.b / n)
  {
    MulInverse(s.r, n);
    MulInverse(s.g, n);
    MulInverse(s.b, n);
  }

  /** Weighting the sums and the total by the same positive w leaves the quotient alone. */
  lemma ScaleCancels(x: real, w: real, n: real)
    requires w > 0.0 && n > 0.0
    ensures (x * w) * (1.0 / (w * n)) == x * (1.0 / n)
  {
    assert 1.0 / (w * n) == (1.0 / w) * (1.0 / n);
    assert w * (1.0 / w) == 1.0;
  }

  /** Weighted blending with the same positive weight on every vertex is the average. */
  lemma UniformWeightIsAverage(vs: seq<Vertex>, w: real)
    requires vs != [] && w > 0.0
    requires forall i :: 0 <= i < |vs| ==> vs[i].weight == Some(w)
    ensures Blend(Some(vs), Weighted) == Blend(Some(vs), Average)
  {
    var s, n := ColourSum(vs), |vs| as real;
    MeanModes(vs, Weighted);
    assert Sum(vs, Weighted) == Scale(s, w) && Total(vs, Weighted) == w * n by {
      UniformSums(vs, Weighted, w);
      TimesIsProduct(w, |vs|);
    }
    assert Blend(Some(vs), Average) == ClampRgb(Scale(Scale(s, 1.0), Inverse(n))) by {
      MeanModes(vs, Average);
      UniformSums(vs, Average, 1.0);
      TimesOne(|vs|);
    }
    WeightCancels(s, w, n);
  }

  /** Sums scaled by w over a total of w * n equal the unit-weight sums over n. */
  lemma WeightCancels(s: Rgb, w: real, n: real)
    requires w > 0.0 && n > 0.0
    ensures Scale(Scale(s, w), Inverse(w * n)) == Scale(Scale(s, 1.0), Inverse(n))
  {
    assert w * n > 0.0;
    ScaleCancels(s.r, w, n);
    ScaleCancels(s.g, w, n);
    ScaleCancels(s.b, w, n);
  }

  /** A missing weight reads as 1: weighted blending of unweighted vertices is the average. */
  lemma MissingWeightIsOne(vs: seq<Vertex>)
    requires vs != []
    requires forall i :: 0 <= i < |vs| ==> vs[i].weight.None?
    ensures Blend(Some(vs), Weighted) == Blend(Some(vs), Average)
  {
    UniformSums(vs, Weighted, 1.0);
    UniformSums(vs, Average, 1.0);
  }

  /** The channel sums of n vertices of one colour are n times that colour. */
  lemma {:induction false} ColourSumOfOne(vs: seq<Vertex>, c: Rgb)
    requires forall i :: 0 <= i < |vs| ==> vs[i].color == c
    ensures ColourSum(vs) == Scale(c, |vs| as real)
    decreases |vs|
  {
    if vs != [] {
      var n := |vs| as real;
      ColourSumOfOne(vs[..|vs| - 1], c);
      assert c.r * (n - 1.0) + c.r == c.r * n;
      assert c.g * (n - 1.0) + c.g == c.g * n;
      assert c.b * (n - 1.0) + c.b == c.b * n;
    }
  }

  /** Averaging vertices that all have the same colour gives that colour back, clamped. */
  lemma AverageOfOneColour(vs: seq<Vertex>, c: Rgb)
    requires vs != [] && forall i :: 0 <= i < |vs| ==> vs[i].color == c
    ensures Blend(Some(vs), Average) == ClampRgb(c)
  {
    var n := |vs| as real;
    AverageIsMean(vs, Average);
    ColourSumOfOne(vs, c);
    var s := ColourSum(vs);
    assert Rgb(s.r / n, s.g / n, s.b / n) == c by {
      MulDiv(c.r, n);
      MulDiv(c.g, n);
      MulDiv(c.b, n);
    }
  }

  /** Multiplying by n and dividing by n cancel. */
  lemma MulDiv(x: real, n: real)
    requires n > 0.0
    ensures x * n / n == x
  {
  }

  /** 'layered' returns the clamped colour of the first vertex, whatever follows it. */
  lemma LayeredIsFirst(v: Vertex, rest: seq<Vertex>)
    ensures Blend(Some([v] + rest), Layered) == ClampRgb(v.color)
  {
  }
}
