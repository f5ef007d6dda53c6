/** The forward pass of the prior-box layer (`PriorBoxLayer::ForwardCpu`):
    the coordinate block, filled cell by cell in row-major order and
    optionally clipped, followed by the variance block. */
module PriorBoxForward {
  import opened Numerics
  import opened PriorBoxSetup
  import opened PriorBoxShape

  /** The C library's `sqrt`, supplied by the caller. */
  type Sqrt = real -> real

  /** Extents and steps resolved at forward time. */
  datatype Geometry = Geometry(
    layerH: nat, layerW: nat,
    imgH: nat, imgW: nat,
    stepH: real, stepW: real)

  /** A box given by its centre and extents, in pixels. */
  datatype Box = Box(cx: real, cy: real, width: real, height: real)

  // ---------------------------------------------------------------------
  // Geometry resolution
  // ---------------------------------------------------------------------

  /** Either configured image extent is the 0 sentinel. */
  predicate NeedsImageInput(c: Config)
  {
    c.imgH == 0 || c.imgW == 0
  }

  /** Either configured step is the 0 sentinel. */
  predicate NeedsDerivedStep(c: Config)
  {
    c.stepW == 0.0 || c.stepH == 0.0
  }

  /** The inputs the forward pass reads: the feature map's axes 2 and 3 and,
      when the image size is not configured, the image tensor's axes 2 and 3,
      which must be non-zero since the coordinates are divided by them. */
  predicate ValidInputs(c: Config, src: seq<Shape>)
  {
    && |src| >= 1
    && |src[0]| >= 4
    && (NeedsImageInput(c) ==> |src| >= 2 && |src[1]| >= 4 && src[1][2] > 0 && src[1][3] > 0)
  }

  /** Image extents come from the configuration unless either is 0, then from
      the second input; steps come from the configuration unless either is 0,
      then each is the image extent over the map extent. */
  function ResolveGeometry(c: Config, src: seq<Shape>): (g: Geometry)
    requires ValidInputs(c, src)
    ensures g.layerH == src[0][2] && g.layerW == src[0][3]
    ensures 0 < g.imgH && 0 < g.imgW
    ensures NeedsImageInput(c) ==> g.imgH == src[1][2] && g.imgW == src[1][3]
    ensures !NeedsImageInput(c) ==> g.imgH == c.imgH && g.imgW == c.imgW
    ensures !NeedsDerivedStep(c) ==> g.stepH == c.stepH && g.stepW == c.stepW
    ensures NeedsDerivedStep(c) && 0 < g.layerW ==> g.stepW * g.layerW as real == g.imgW as real
    ensures NeedsDerivedStep(c) && 0 < g.layerH ==> g.stepH * g.layerH as real == g.imgH as real
  {
    var layerW := src[0][3];
    var layerH := src[0][2];
    var imgW := if NeedsImageInput(c) then src[1][3] else c.imgW;
    var imgH := if NeedsImageInput(c) then src[1][2] else c.imgH;
    // On an empty map the derived step is never read, so its value there
    // (a division by zero in the layer) does not matter.
    var stepW := if !NeedsDerivedStep(c) then c.stepW
                 else if layerW > 0 then imgW as real / layerW as real else 0.0;
    var stepH := if !NeedsDerivedStep(c) then c.stepH
                 else if layerH > 0 then imgH as real / layerH as real else 0.0;
    Geometry(layerH, layerW, imgH, imgW, stepH, stepW)
  }

  /** With derived steps and an offset in [0, 1), every cell centre lies
      inside the image. */
  lemma CentresInsideImage(c: Config, src: seq<Shape>, h: nat, w: nat)
    requires ValidInputs(c, src) && NeedsDerivedStep(c) && 0.0 <= c.offset < 1.0
    requires h < src[0][2] && w < src[0][3]
    ensures var g := ResolveGeometry(c, src);
            && 0.0 <= (w as real + c.offset) * g.stepW < g.imgW as real
            && 0.0 <= (h as real + c.offset) * g.stepH < g.imgH as real
  {
    var g := ResolveGeometry(c, src);
    CentreInside(w as real + c.offset, g.layerW as real, g.stepW, g.imgW as real);
    CentreInside(h as real + c.offset, g.layerH as real, g.stepH, g.imgH as real);
  }

  lemma CentreInside(x: real, n: real, step: real, img: real)
    requires 0.0 <= x < n && step * n == img && 0.0 < img
    ensures 0.0 <= x * step < img
  {
    assert step > 0.0;
    assert img - x * step == (n - x) * step;
    assert (n - x) * step > 0.0;
  }

  // ---------------------------------------------------------------------
  // The prior boxes of one cell
  // ---------------------------------------------------------------------

  /** 1 when max sizes are configured, else 0. */
  function HasMax(c: Config): nat
  {
    if |c.maxSizes| > 0 then 1 else 0
  }

  /** Boxes each min size contributes to a cell when 1.0 is the only unit
      ratio: the min box, the max box if any, one box per other ratio. */
  function BoxesPerMinSize(c: Config): nat
  {
    |c.aspectRatios| + HasMax(c)
  }

  /** The ratio boxes are divided by the root of every non-first ratio. */
  predicate SqrtReady(c: Config, sqrt: Sqrt)
  {
    forall i :: 1 <= i < |c.aspectRatios| ==> sqrt(c.aspectRatios[i]) != 0.0
  }

  /** Everything the forward pass needs of its configuration and geometry. */
  predicate Ready(c: Config, g: Geometry, sqrt: Sqrt)
  {
    && ValidConfig(c)
    && UnitOnlyFirst(c.aspectRatios)
    && SqrtReady(c, sqrt)
    && 0 < g.imgH && 0 < g.imgW
  }

  /** Width and height of box `t` of min size `s`: the min box of side
      `(int)min`, then the box of side sqrt((int)min * (int)max) if max sizes
      exist, then the box of ratio `ar` with width min * sqrt(ar) and height
      min / sqrt(ar) for each non-first ratio in list order. */
  function BoxSize(c: Config, sqrt: Sqrt, s: nat, t: nat): (real, real)
    requires ValidConfig(c) && SqrtReady(c, sqrt)
    requires s < |c.minSizes| && t < BoxesPerMinSize(c)
  {
    var minS := TruncToInt(c.minSizes[s]);
    if t == 0 then
      (minS as real, minS as real)
    else if HasMax(c) == 1 && t == 1 then
      var side := sqrt(MaxBoxArea(c, s));
      (side, side)
    else
      var ar := c.aspectRatios[t - HasMax(c)];
      (minS as real * sqrt(ar), minS as real / sqrt(ar))
  }

  /** `minS * maxS`, the integer product whose root is the max box's side. */
  function MaxBoxArea(c: Config, s: nat): real
    requires s < |c.minSizes| && s < |c.maxSizes|
  {
    (TruncToInt(c.minSizes[s]) * TruncToInt(c.maxSizes[s])) as real
  }

  /** Box `t` of min size `s` in cell (h, w), centred at the cell centre. */
  function PriorBox(c: Config, g: Geometry, sqrt: Sqrt, h: nat, w: nat, s: nat, t: nat): Box
    requires ValidConfig(c) && SqrtReady(c, sqrt)
    requires s < |c.minSizes| && t < BoxesPerMinSize(c)
  {
    var size := BoxSize(c, sqrt, s, t);
    Box((w as real + c.offset) * g.stepW, (h as real + c.offset) * g.stepH, size.0, size.1)
  }

  /** `sqrt` returns the non-negative square root of `x`. */
  predicate IsSqrtAt(sqrt: Sqrt, x: real)
  {
    sqrt(x) >= 0.0 && sqrt(x) * sqrt(x) == x
  }

  /** The boxes of one min size: the first is a square of side `(int)min`,
      the max box a square of area `(int)min * (int)max`, and each ratio box
      has the min box's area with its width `ar` times its height. */
  lemma BoxShape(c: Config, sqrt: Sqrt, s: nat, t: nat)
    requires ValidConfig(c) && SqrtReady(c, sqrt)
    requires s < |c.minSizes| && t < BoxesPerMinSize(c)
    requires HasMax(c) == 1 && t == 1 ==> IsSqrtAt(sqrt, MaxBoxArea(c, s))
    requires t > HasMax(c) ==> IsSqrtAt(sqrt, c.aspectRatios[t - HasMax(c)])
    ensures var m := TruncToInt(c.minSizes[s]) as real;
            var size := BoxSize(c, sqrt, s, t);
            && (t == 0 ==> size.0 == size.1 == m)
            && (HasMax(c) == 1 && t == 1 ==>
                  size.0 == size.1 && size.0 * size.1 == m * TruncToInt(c.maxSizes[s]) as real)
            && (t > HasMax(c) ==>
                  size.0 * size.1 == m * m && size.0 == c.aspectRatios[t - HasMax(c)] * size.1)
  {
    if HasMax(c) == 1 && t == 1 {
      MaxBoxShape(c, sqrt, s);
    } else if t > HasMax(c) {
      RatioBoxShape(c, sqrt, s, t);
    }
  }

  /** The max box is a square whose area is `(int)min * (int)max`. */
  lemma MaxBoxShape(c: Config, sqrt: Sqrt, s: nat)
    requires ValidConfig(c) && SqrtReady(c, sqrt) && s < |c.minSizes| && HasMax(c) == 1
    requires IsSqrtAt(sqrt, MaxBoxArea(c, s))
    ensures var size := BoxSize(c, sqrt, s, 1);
            && size.0 == size.1
            && size.0 * size.1 == TruncToInt(c.minSizes[s]) as real * TruncToInt(c.maxSizes[s]) as real
  {
    var m := TruncToInt(c.minSizes[s]);
    var mx := TruncToInt(c.maxSizes[s]);
    IntProductAsReal(m, mx);
  }

  /** A ratio box has the min box's area, and its width is `ar` times its
      height. */
  lemma RatioBoxShape(c: Config, sqrt: Sqrt, s: nat, t: nat)
    requires ValidConfig(c) && SqrtReady(c, sqrt)
    requires s < |c.minSizes| && HasMax(c) < t < BoxesPerMinSize(c)
    requires IsSqrtAt(sqrt, c.aspectRatios[t - HasMax(c)])
    ensures var m := TruncToInt(c.minSizes[s]) as real;
            var size := BoxSize(c, sqrt, s, t);
            && size.0 * size.1 == m * m
            && size.0 == c.aspectRatios[t - HasMax(c)] * size.1
  {
    var m := TruncToInt(c.minSizes[s]) as real;
    var ar := c.aspectRatios[t - HasMax(c)];
    var q := sqrt(ar);
    var size := BoxSize(c, sqrt, s, t);
    assert size.0 == m * q;
    assert size.1 == m / q;
    RatioBoxArea(m, q, ar);
  }

  lemma IntProductAsReal(a: int, b: int)
    ensures (a * b) as real == a as real * b as real
  {
  }

  lemma RatioBoxArea(m: real, q: real, ar: real)
    requires q != 0.0 && q * q == ar
    ensures (m * q) * (m / q) == m * m
    ensures m * q == ar * (m / q)
  {
    assert (m / q) * q == m;
    assert (m * q) * (m / q) == m * ((m / q) * q);
    assert ar * (m / q) == q * ((m / q) * q);
  }

  /** Ratios the forward pass does not skip, counted along the list. */
  function CountNotUnit(ratios: seq<real>): (n: nat)
    ensures n <= |ratios|
  {
    if |ratios| == 0 then 0
    else (if Near(ratios[0], 1.0) then 0 else 1) + CountNotUnit(ratios[1..])
  }

  /** Every entry is counted exactly when none is within the tolerance of 1. */
  lemma {:induction false} CountNotUnitAll(ratios: seq<real>)
    ensures CountNotUnit(ratios) == |ratios| <==> forall i :: 0 <= i < |ratios| ==> !Near(ratios[i], 1.0)
  {
    if |ratios| > 0 {
      var rest := ratios[1..];
      CountNotUnitAll(rest);
      assert forall i :: 1 <= i < |ratios| ==> ratios[i] == rest[i - 1];
    }
  }

  /** For a list that starts with a unit ratio, as Setup builds it, the forward
      pass skips exactly one ratio if and only if no later entry is within the
      tolerance of 1. */
  lemma SkipsOnlyFirst(ratios: seq<real>)
    requires |ratios| >= 1 && Near(ratios[0], 1.0)
    ensures CountNotUnit(ratios) == |ratios| - 1 <==> UnitOnlyFirst(ratios)
  {
    var rest := ratios[1..];
    CountNotUnitAll(rest);
    assert forall i :: 1 <= i < |ratios| ==> ratios[i] == rest[i - 1];
  }

  /** The configured number of priors is the number of boxes the forward pass
      emits per cell: per min size one min box, one max box if max sizes
      exist, and one box per ratio it does not skip. */
  lemma NumPriorsCountsEmittedBoxes(c: Config)
    requires ValidConfig(c) && UnitOnlyFirst(c.aspectRatios)
    ensures c.numPriors == |c.minSizes| * (1 + HasMax(c) + CountNotUnit(c.aspectRatios))
  {
    SkipsOnlyFirst(c.aspectRatios);
  }

  /** The priors of a cell come in one group of BoxesPerMinSize per min size. */
  lemma NumPriorsPerMinSize(c: Config)
    requires ValidConfig(c)
    ensures c.numPriors == |c.minSizes| * BoxesPerMinSize(c)
  {
  }

  // ---------------------------------------------------------------------
  // Row-major layout of the coordinate block
  // ---------------------------------------------------------------------

  /** Coordinate `j` of a box: left, top, right, bottom, each normalized by
      the image extent. */
  function Corner(b: Box, imgW: nat, imgH: nat, j: nat): real
    requires 0 < imgW && 0 < imgH && j < 4
  {
    if j == 0 then (b.cx - b.width / 2.0) / imgW as real
    else if j == 1 then (b.cy - b.height / 2.0) / imgH as real
    else if j == 2 then (b.cx + b.width / 2.0) / imgW as real
    else (b.cy + b.height / 2.0) / imgH as real
  }

  /** Position of box `t` of min size `s` among the priors of a cell: the
      boxes of min size 0 come first, then those of min size 1, and so on. */
  function InCell(c: Config, s: nat, t: nat): nat
  {
    s * BoxesPerMinSize(c) + t
  }

  /** Past the last box of min size `s` comes the first box of min size
      `s + 1`, and past the last min size comes the end of the cell. */
  lemma InCellNext(c: Config, s: nat)
    requires ValidConfig(c)
    ensures InCell(c, s, BoxesPerMinSize(c)) == InCell(c, s + 1, 0)
    ensures InCell(c, |c.minSizes|, 0) == c.numPriors
  {
    NumPriorsPerMinSize(c);
  }

  /** Box number `b` of the coordinate block: cell `b / numPriors` in
      row-major order, box `b % numPriors` within the cell, which is box
      `t` of min size `s` for `k == s * BoxesPerMinSize + t`. */
  function BoxAt(c: Config, g: Geometry, sqrt: Sqrt, b: nat): Box
    requires Ready(c, g, sqrt)
    requires b < BoxCount(g.layerH, g.layerW, c.numPriors)
  {
    NumPriorsPerMinSize(c);
    var per := BoxesPerMinSize(c);
    FlatIndexBounds(b, g.layerH, g.layerW, c.numPriors, |c.minSizes|, per);
    var cell := b / c.numPriors;
    var k := b % c.numPriors;
    PriorBox(c, g, sqrt, cell / g.layerW, cell % g.layerW, k / per, k % per)
  }

  /** Coordinate `i` of the coordinate block: value `i % 4` of box `i / 4`. */
  function CoordAt(c: Config, g: Geometry, sqrt: Sqrt, i: nat): real
    requires Ready(c, g, sqrt)
    requires i < CoordCount(g.layerH, g.layerW, c.numPriors)
  {
    Corner(BoxAt(c, g, sqrt, i / 4), g.imgW, g.imgH, i % 4)
  }

  /** Box `t` of min size `s` in cell (h, w) is box number
      ((h * W + w) * numPriors + s * BoxesPerMinSize + t) of the block. */
  lemma PriorSlot(c: Config, g: Geometry, sqrt: Sqrt, h: nat, w: nat, s: nat, t: nat)
    requires Ready(c, g, sqrt)
    requires h < g.layerH && w < g.layerW && s < |c.minSizes| && t < BoxesPerMinSize(c)
    ensures var b := BoxIndex(g.layerW, c.numPriors, h, w, InCell(c, s, t));
            && b < BoxCount(g.layerH, g.layerW, c.numPriors)
            && BoxAt(c, g, sqrt, b) == PriorBox(c, g, sqrt, h, w, s, t)
  {
    NumPriorsPerMinSize(c);
    var per := BoxesPerMinSize(c);
    var cell := h * g.layerW + w;
    var k := s * per + t;
    SplitIndex(|c.minSizes|, per, s, t);
    SplitIndex(g.layerH, g.layerW, h, w);
    SplitIndex(g.layerH * g.layerW, c.numPriors, cell, k);
  }

  /** The four coordinates of box `b` sit at indices 4b .. 4b + 3. */
  lemma CoordsOfBox(c: Config, g: Geometry, sqrt: Sqrt, b: nat, i: nat)
    requires Ready(c, g, sqrt)
    requires b < BoxCount(g.layerH, g.layerW, c.numPriors)
    requires 4 * b <= i < 4 * b + 4
    ensures i < CoordCount(g.layerH, g.layerW, c.numPriors)
    ensures CoordAt(c, g, sqrt, i) == Corner(BoxAt(c, g, sqrt, b), g.imgW, g.imgH, i - 4 * b)
  {
    DivModUnique(i, 4, b, i - 4 * b);
  }

  /** Row-major layout: coordinate j of box t of min size s in cell (h, w)
      sits at index ((h * W + w) * numPriors + s * BoxesPerMinSize + t) * 4 + j. */
  lemma RowMajorLayout(c: Config, g: Geometry, sqrt: Sqrt, h: nat, w: nat, s: nat, t: nat, j: nat)
    requires Ready(c, g, sqrt)
    requires h < g.layerH && w < g.layerW && s < |c.minSizes| && t < BoxesPerMinSize(c) && j < 4
    ensures var i := BoxIndex(g.layerW, c.numPriors, h, w, InCell(c, s, t)) * 4 + j;
            && i < CoordCount(g.layerH, g.layerW, c.numPriors)
            && CoordAt(c, g, sqrt, i) == Corner(PriorBox(c, g, sqrt, h, w, s, t), g.imgW, g.imgH, j)
  {
    PriorSlot(c, g, sqrt, h, w, s, t);
    var b := BoxIndex(g.layerW, c.numPriors, h, w, InCell(c, s, t));
    CoordsOfBox(c, g, sqrt, b, b * 4 + j);
  }

  /** The four normalised corners describe the box: their midpoints are the
      normalised centre and their spans the normalised extents. */
  lemma CornersDescribeBox(b: Box, imgW: nat, imgH: nat)
    requires 0 < imgW && 0 < imgH
    ensures (Corner(b, imgW, imgH, 0) + Corner(b, imgW, imgH, 2)) / 2.0 == b.cx / imgW as real
    ensures (Corner(b, imgW, imgH, 1) + Corner(b, imgW, imgH, 3)) / 2.0 == b.cy / imgH as real
    ensures Corner(b, imgW, imgH, 2) - Corner(b, imgW, imgH, 0) == b.width / imgW as real
    ensures Corner(b, imgW, imgH, 3) - Corner(b, imgW, imgH, 1) == b.height / imgH as real
  {
    var w, h := imgW as real, imgH as real;
    assert (b.cx - b.width / 2.0) / w + (b.cx + b.width / 2.0) / w == (2.0 * b.cx) / w;
    assert (b.cy - b.height / 2.0) / h + (b.cy + b.height / 2.0) / h == (2.0 * b.cy) / h;
    assert (b.cx + b.width / 2.0) / w - (b.cx - b.width / 2.0) / w == b.width / w;
    assert (b.cy + b.height / 2.0) / h - (b.cy - b.height / 2.0) / h == b.height / h;
  }

  // ---------------------------------------------------------------------
  // The coordinate fill
  // ---------------------------------------------------------------------

  /** The first `n` entries of `dst` hold the coordinate block's values. */
  predicate Filled(c: Config, g: Geometry, sqrt: Sqrt, dst: array<real>, n: nat)
    requires Ready(c, g, sqrt)
    reads dst
  {
    && n <= dst.Length == CoordCount(g.layerH, g.layerW, c.numPriors)
    && forall i :: 0 <= i < n ==> dst[i] == CoordAt(c, g, sqrt, i)
  }

  /** The four `pDst[index++]` writes of one box. */
  method EmitBox(dst: array<real>, index: nat, box: Box, imgW: nat, imgH: nat) returns (next: nat)
    requires index + 4 <= dst.Length && 0 < imgW && 0 < imgH
    modifies dst
    ensures next == index + 4
    ensures forall i :: index <= i < next ==> dst[i] == Corner(box, imgW, imgH, i - index)
    ensures forall i :: 0 <= i < dst.Length && !(index <= i < next) ==> dst[i] == old(dst[i])
  {
    dst[index] := (box.cx - box.width / 2.0) / imgW as real;
    dst[index + 1] := (box.cy - box.height / 2.0) / imgH as real;
    dst[index + 2] := (box.cx + box.width / 2.0) / imgW as real;
    dst[index + 3] := (box.cy + box.height / 2.0) / imgH as real;
    next := index + 4;
  }

  /** Emits the box the loops computed for box `t` of min size `s` in cell
      (h, w) at the write index, which the loops have brought exactly to that
      box's slot. */
  method EmitPrior(c: Config, g: Geometry, sqrt: Sqrt, dst: array<real>,
                   h: nat, w: nat, s: nat, t: nat, box: Box, index: nat) returns (next: nat)
    requires Ready(c, g, sqrt)
    requires h < g.layerH && w < g.layerW && s < |c.minSizes| && t < BoxesPerMinSize(c)
    requires box == PriorBox(c, g, sqrt, h, w, s, t)
    requires index == BoxIndex(g.layerW, c.numPriors, h, w, InCell(c, s, t)) * 4
    requires Filled(c, g, sqrt, dst, index)
    modifies dst
    ensures next == index + 4
    ensures Filled(c, g, sqrt, dst, next)
    ensures forall i :: 0 <= i < dst.Length && !(index <= i < next) ==> dst[i] == old(dst[i])
  {
    PriorSlot(c, g, sqrt, h, w, s, t);
    ghost var b := BoxIndex(g.layerW, c.numPriors, h, w, InCell(c, s, t));
    next := EmitBox(dst, index, box, g.imgW, g.imgH);
    forall i | index <= i < next
      ensures dst[i] == CoordAt(c, g, sqrt, i)
    {
      CoordsOfBox(c, g, sqrt, b, i);
    }
  }

  /** One iteration of the min-size loop: the min box, the max box when max
      sizes exist, then one box per ratio not within the tolerance of 1. The
      write index advances over exactly the boxes of min size `s`. */
  method EmitMinSize(c: Config, g: Geometry, sqrt: Sqrt, dst: array<real>,
                     h: nat, w: nat, s: nat, index: nat) returns (next: nat)
    requires Ready(c, g, sqrt)
    requires h < g.layerH && w < g.layerW && s < |c.minSizes|
    requires index == BoxIndex(g.layerW, c.numPriors, h, w, InCell(c, s, 0)) * 4
    requires Filled(c, g, sqrt, dst, index)
    modifies dst
    ensures next == BoxIndex(g.layerW, c.numPriors, h, w, InCell(c, s + 1, 0)) * 4
    ensures Filled(c, g, sqrt, dst, next)
    ensures forall i :: 0 <= i < dst.Length && !(index <= i < next) ==> dst[i] == old(dst[i])
  {
    var centerX := (w as real + c.offset) * g.stepW;
    var centerY := (h as real + c.offset) * g.stepH;
    var hasMax := HasMax(c);
    var minS := TruncToInt(c.minSizes[s]);
    var boxW := minS as real;
    var boxH := boxW;
    next := EmitPrior(c, g, sqrt, dst, h, w, s, 0, Box(centerX, centerY, boxW, boxH), index);
    if |c.maxSizes| > 0 {
      var maxS := TruncToInt(c.maxSizes[s]);
      boxW := sqrt((minS * maxS) as real);
      boxH := boxW;
      next := EmitPrior(c, g, sqrt, dst, h, w, s, 1, Box(centerX, centerY, boxW, boxH), next);
    }
    var r := 0;
    while r < |c.aspectRatios|
      invariant r <= |c.aspectRatios|
      invariant next == BoxIndex(g.layerW, c.numPriors, h, w, InCell(c, s, hasMax + (if r == 0 then 1 else r))) * 4
      invariant Filled(c, g, sqrt, dst, next)
      invariant index <= next
      invariant forall i :: 0 <= i < dst.Length && !(index <= i < next) ==> dst[i] == old(dst[i])
    {
      var ar := c.aspectRatios[r];
      if !Near(ar, 1.0) {
        boxW := minS as real * sqrt(ar);
        boxH := minS as real / sqrt(ar);
        next := EmitPrior(c, g, sqrt, dst, h, w, s, hasMax + r, Box(centerX, centerY, boxW, boxH), next);
      }
      r := r + 1;
    }
    InCellNext(c, s);
  }

  /** The min-size loop of cell (h, w): the write index advances over the
      cell's `numPriors` boxes. */
  method FillCell(c: Config, g: Geometry, sqrt: Sqrt, dst: array<real>,
                  h: nat, w: nat, index: nat) returns (next: nat)
    requires Ready(c, g, sqrt)
    requires h < g.layerH && w < g.layerW
    requires index == BoxIndex(g.layerW, c.numPriors, h, w, 0) * 4
    requires Filled(c, g, sqrt, dst, index)
    modifies dst
    ensures next == BoxIndex(g.layerW, c.numPriors, h, w + 1, 0) * 4
    ensures Filled(c, g, sqrt, dst, next)
    ensures forall i :: 0 <= i < dst.Length && !(index <= i < next) ==> dst[i] == old(dst[i])
  {
    next := index;
    var s := 0;
    while s < |c.minSizes|
      invariant s <= |c.minSizes|
      invariant next == BoxIndex(g.layerW, c.numPriors, h, w, InCell(c, s, 0)) * 4
      invariant Filled(c, g, sqrt, dst, next)
      invariant index <= next
      invariant forall i :: 0 <= i < dst.Length && !(index <= i < next) ==> dst[i] == old(dst[i])
    {
      next := EmitMinSize(c, g, sqrt, dst, h, w, s, next);
      s := s + 1;
    }
    InCellNext(c, 0);
    BoxIndexNextCell(g.layerW, c.numPriors, h, w);
  }

  /** The coordinate loops: rows outer, columns inner, each cell's boxes in
      turn. The write index ends exactly at H * W * numPriors * 4 and every
      coordinate written is the one of the row-major layout. */
  method FillCoordinates(c: Config, g: Geometry, sqrt: Sqrt) returns (coords: seq<real>, written: nat)
    requires Ready(c, g, sqrt)
    ensures written == CoordCount(g.layerH, g.layerW, c.numPriors) == |coords|
    ensures forall i :: 0 <= i < |coords| ==> coords[i] == CoordAt(c, g, sqrt, i)
  {
    var dim := CoordCount(g.layerH, g.layerW, c.numPriors);
    var dst := new real[dim];
    var index := 0;
    var h := 0;
    while h < g.layerH
      invariant h <= g.layerH
      invariant index == BoxIndex(g.layerW, c.numPriors, h, 0, 0) * 4
      invariant Filled(c, g, sqrt, dst, index)
    {
      var w := 0;
      while w < g.layerW
        invariant w <= g.layerW
        invariant index == BoxIndex(g.layerW, c.numPriors, h, w, 0) * 4
        invariant Filled(c, g, sqrt, dst, index)
      {
        index := FillCell(c, g, sqrt, dst, h, w, index);
        w := w + 1;
      }
      BoxIndexNextRow(g.layerH, g.layerW, c.numPriors, h);
      h := h + 1;
    }
    BoxIndexNextRow(g.layerH, g.layerW, c.numPriors, 0);
    coords := dst[..];
    written := index;
  }

  // ---------------------------------------------------------------------
  // Clipping and the variance block
  // ---------------------------------------------------------------------

  /** The clip pass over the coordinate block: every value is clamped to
      [0, 1], values already there are kept. */
  method ClipCoordinates(coords: seq<real>) returns (clipped: seq<real>)
    ensures |clipped| == |coords|
    ensures forall i :: 0 <= i < |coords| ==> 0.0 <= clipped[i] <= 1.0
    ensures forall i :: 0 <= i < |coords| && 0.0 <= coords[i] <= 1.0 ==> clipped[i] == coords[i]
    ensures forall i :: 0 <= i < |coords| ==> clipped[i] == Clamp01(coords[i])
  {
    var dst := new real[|coords|](i requires 0 <= i < |coords| => coords[i]);
    var d := 0;
    while d < dst.Length
      invariant d <= dst.Length
      invariant forall i :: 0 <= i < d ==> dst[i] == Clamp01(coords[i])
      invariant forall i :: d <= i < dst.Length ==> dst[i] == coords[i]
    {
      dst[d] := Clamp01(dst[d]);
      d := d + 1;
    }
    clipped := dst[..];
  }

  /** Clipping a clipped block changes nothing. */
  lemma ClipIdempotent(coords: seq<real>, once: seq<real>, twice: seq<real>)
    requires |once| == |coords| && forall i :: 0 <= i < |coords| ==> once[i] == Clamp01(coords[i])
    requires |twice| == |once| && forall i :: 0 <= i < |once| ==> twice[i] == Clamp01(once[i])
    ensures twice == once
  {
    forall i | 0 <= i < |once|
      ensures twice[i] == once[i]
    {
      Clamp01Idempotent(coords[i]);
    }
  }

  /** Variance of coordinate `k`: the single value broadcast, or value
      `k % 4` of the four. */
  function VarianceAt(variance: seq<real>, k: nat): real
    requires |variance| == 1 || |variance| == 4
  {
    if |variance| == 1 then variance[0] else variance[k % 4]
  }

  /** The first `n` entries of `dst` hold the four variances tiled. */
  predicate Tiled(variance: seq<real>, dst: array<real>, n: nat)
    requires |variance| == 4
    reads dst
  {
    && n <= dst.Length
    && forall i :: 0 <= i < n ==> dst[i] == variance[i % 4]
  }

  /** The innermost `pDst[offset++] = _variance[j]` loop: the four variances
      written at a position that is a multiple of 4. */
  method EmitVariances(dst: array<real>, offset: nat, variance: seq<real>) returns (next: nat)
    requires |variance| == 4 && offset % 4 == 0 && offset + 4 <= dst.Length
    requires Tiled(variance, dst, offset)
    modifies dst
    ensures next == offset + 4
    ensures Tiled(variance, dst, next)
    ensures forall i :: 0 <= i < dst.Length && !(offset <= i < next) ==> dst[i] == old(dst[i])
  {
    next := offset;
    var j := 0;
    while j < 4
      invariant j <= 4 && next == offset + j
      invariant Tiled(variance, dst, next)
      invariant forall i :: 0 <= i < dst.Length && !(offset <= i < next) ==> dst[i] == old(dst[i])
    {
      dst[next] := variance[j];
      next := next + 1;
      j := j + 1;
    }
  }

  /** The variance block: one value broadcast over all `dim` entries, or the
      four values tiled once per prior of every cell in row-major order. */
  method FillVariance(variance: seq<real>, layerH: nat, layerW: nat, numPriors: nat) returns (block: seq<real>)
    requires |variance| == 1 || |variance| == 4
    ensures |block| == CoordCount(layerH, layerW, numPriors)
    ensures |variance| == 1 ==> forall k :: 0 <= k < |block| ==> block[k] == variance[0]
    ensures |variance| == 4 ==> forall k :: 0 <= k < |block| ==> block[k] == variance[k % 4]
  {
    var dim := CoordCount(layerH, layerW, numPriors);
    var dst := new real[dim];
    if |variance| == 1 {
      var k := 0;
      while k < dim
        invariant k <= dim
        invariant forall i :: 0 <= i < k ==> dst[i] == variance[0]
      {
        dst[k] := variance[0];
        k := k + 1;
      }
    } else {
      TileVariance(variance, dst, layerH, layerW, numPriors);
    }
    block := dst[..];
  }

  /** The prior loop of cell (h, w) in the four-variance case: one group of
      four variances per prior, written once each from the cell's first slot
      to the next cell's. */
  method TileCell(variance: seq<real>, dst: array<real>, layerH: nat, layerW: nat, numPriors: nat,
                  h: nat, w: nat, offset: nat) returns (next: nat)
    requires |variance| == 4 && dst.Length == CoordCount(layerH, layerW, numPriors)
    requires h < layerH && w < layerW
    requires offset == BoxIndex(layerW, numPriors, h, w, 0) * 4
    requires Tiled(variance, dst, offset)
    modifies dst
    ensures next == BoxIndex(layerW, numPriors, h, w + 1, 0) * 4
    ensures Tiled(variance, dst, next)
    ensures forall i :: 0 <= i < dst.Length && !(offset <= i < next) ==> dst[i] == old(dst[i])
  {
    next := offset;
    var p := 0;
    while p < numPriors
      invariant p <= numPriors
      invariant next == BoxIndex(layerW, numPriors, h, w, p) * 4
      invariant Tiled(variance, dst, next)
      invariant offset <= next
      invariant forall i :: 0 <= i < dst.Length && !(offset <= i < next) ==> dst[i] == old(dst[i])
    {
      BoxIndexBound(layerH, layerW, numPriors, h, w, p);
      next := EmitVariances(dst, next, variance);
      p := p + 1;
    }
    BoxIndexNextCell(layerW, numPriors, h, w);
  }

  /** The h, w, prior loops of the four-variance case. */
  method TileVariance(variance: seq<real>, dst: array<real>, layerH: nat, layerW: nat, numPriors: nat)
    requires |variance| == 4 && dst.Length == CoordCount(layerH, layerW, numPriors)
    modifies dst
    ensures Tiled(variance, dst, dst.Length)
  {
    var offset := 0;
    var h := 0;
    while h < layerH
      invariant h <= layerH
      invariant offset == BoxIndex(layerW, numPriors, h, 0, 0) * 4
      invariant Tiled(variance, dst, offset)
      invariant forall i :: offset <= i < dst.Length ==> dst[i] == old(dst[i])
    {
      var w := 0;
      while w < layerW
        invariant w <= layerW
        invariant offset == BoxIndex(layerW, numPriors, h, w, 0) * 4
        invariant Tiled(variance, dst, offset)
        invariant forall i :: offset <= i < dst.Length ==> dst[i] == old(dst[i])
      {
        offset := TileCell(variance, dst, layerH, layerW, numPriors, h, w, offset);
        w := w + 1;
      }
      BoxIndexNextRow(layerH, layerW, numPriors, h);
      h := h + 1;
    }
    BoxIndexNextRow(layerH, layerW, numPriors, 0);
  }

  // ---------------------------------------------------------------------
  // The whole forward pass
  // ---------------------------------------------------------------------

  /** The output buffer the forward pass leaves: the coordinate block of the
      row-major layout, clamped when clip is set, followed by the variance
      block. */
  predicate IsForwardOutput(c: Config, g: Geometry, sqrt: Sqrt, output: seq<real>)
    requires Ready(c, g, sqrt)
  {
    var dim := CoordCount(g.layerH, g.layerW, c.numPriors);
    && |output| == 2 * dim
    && (forall i :: 0 <= i < dim ==>
          output[i] == if c.clip then Clamp01(CoordAt(c, g, sqrt, i)) else CoordAt(c, g, sqrt, i))
    && (forall i :: dim <= i < 2 * dim ==> output[i] == VarianceAt(c.variance, i - dim))
  }

  /** The layer's output: the coordinate block (clipped if configured)
      followed by the variance block, filling exactly the shape that Reshape
      computes. */
  method ForwardCpu(c: Config, src: seq<Shape>, sqrt: Sqrt) returns (output: seq<real>)
    requires ValidConfig(c) && UnitOnlyFirst(c.aspectRatios) && SqrtReady(c, sqrt)
    requires ValidInputs(c, src)
    ensures |output| == Volume(OutputShape(c, src[0]))
    ensures IsForwardOutput(c, ResolveGeometry(c, src), sqrt, output)
  {
    var g := ResolveGeometry(c, src);
    var dim := CoordCount(g.layerH, g.layerW, c.numPriors);
    var coords, written := FillCoordinates(c, g, sqrt);
    if c.clip {
      coords := ClipCoordinates(coords);
    }
    var variances := FillVariance(c.variance, g.layerH, g.layerW, c.numPriors);
    output := coords + variances;
    OutputShapeBlocks(c, src[0]);
  }

  /** Variances line up with coordinates: corner j of box b sits at index
      4b + j of the coordinate block, and the entry `dim` places later holds
      variance j (or the single broadcast variance). */
  lemma VarianceAlignment(c: Config, g: Geometry, sqrt: Sqrt, output: seq<real>, b: nat, j: nat)
    requires Ready(c, g, sqrt) && IsForwardOutput(c, g, sqrt, output)
    requires b < BoxCount(g.layerH, g.layerW, c.numPriors) && j < 4
    ensures var dim := CoordCount(g.layerH, g.layerW, c.numPriors);
            var corner := Corner(BoxAt(c, g, sqrt, b), g.imgW, g.imgH, j);
            && 4 * b + j < dim
            && output[4 * b + j] == (if c.clip then Clamp01(corner) else corner)
            && output[dim + 4 * b + j] == (if |c.variance| == 1 then c.variance[0] else c.variance[j])
  {
    CoordsOfBox(c, g, sqrt, b, 4 * b + j);
    DivModUnique(4 * b + j, 4, b, j);
  }
}
