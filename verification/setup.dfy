/** Configuration resolution of the prior-box layer (`PriorBoxLayer::Setup`):
    the raw layer parameters become the resolved configuration that the shape
    inference and the forward pass read. */
module PriorBoxSetup {
  import opened Numerics

  /** Variance used when the parameters give none. */
  const DefaultVariance: real := 0.1

  /** The layer's declared parameters, as deserialized by the framework. */
  datatype PriorBoxParam = PriorBoxParam(
    minSize: seq<real>,
    maxSize: seq<real>,
    aspectRatio: seq<real>,
    flip: bool,
    clip: bool,
    variance: seq<real>,
    imgSize: seq<nat>,
    step: seq<real>,
    offset: real)

  /** The layer's private fields after Setup. An image extent or step of 0 is
      the "derive at forward time" sentinel. */
  datatype Config = Config(
    minSizes: seq<real>,
    maxSizes: seq<real>,
    aspectRatios: seq<real>,
    flip: bool,
    clip: bool,
    variance: seq<real>,
    numPriors: nat,
    imgH: nat,
    imgW: nat,
    stepH: real,
    stepW: real,
    offset: real)

  /** What the forward pass relies on and Setup establishes. */
  predicate ValidConfig(c: Config)
  {
    && |c.aspectRatios| >= 1
    && c.aspectRatios[0] == 1.0
    && (|c.maxSizes| == 0 || |c.maxSizes| == |c.minSizes|)
    && (|c.variance| == 1 || |c.variance| == 4)
    && c.numPriors == |c.aspectRatios| * |c.minSizes| + |c.maxSizes|
  }

  /** What Setup demands of its parameters: the two debug asserts, and no zero
      ratio to take the reciprocal of when flipping. */
  predicate SetupRequires(p: PriorBoxParam)
  {
    && (|p.maxSize| == 0 || |p.maxSize| == |p.minSize|)
    && (|p.variance| <= 1 || |p.variance| == 4)
    && (p.flip ==> NonZero(p.aspectRatio))
  }

  predicate NonZero(rs: seq<real>)
  {
    forall i :: 0 <= i < |rs| ==> rs[i] != 0.0
  }

  // ---------------------------------------------------------------------
  // Aspect-ratio list
  // ---------------------------------------------------------------------

  /** Some entry of `list` lies within the tolerance of `r`. */
  predicate NearAny(list: seq<real>, r: real)
  {
    exists j :: 0 <= j < |list| && Near(r, list[j])
  }

  /** One iteration of Setup's outer loop: a ratio near an existing entry adds
      nothing; otherwise it is appended, followed by its reciprocal when
      flipping. The reciprocal itself is never checked against the list. */
  function AddRatio(list: seq<real>, r: real, flip: bool): (next: seq<real>)
    requires flip ==> r != 0.0
    ensures |list| <= |next| <= |list| + 2 && next[..|list|] == list
    ensures next == list <==> NearAny(list, r)
    ensures NearAny(next, r)
  {
    if NearAny(list, r) then list
    else
      var next := if flip then list + [r, 1.0 / r] else list + [r];
      assert next[|list|] == r && Near(r, next[|list|]);
      next
  }

  /** Setup's outer loop over the input ratios, from `list` onwards. */
  function AddRatios(list: seq<real>, input: seq<real>, flip: bool): (out: seq<real>)
    requires flip ==> NonZero(input)
    ensures |list| <= |out| && out[..|list|] == list
    decreases |input|
  {
    if |input| == 0 then list
    else AddRatios(AddRatio(list, input[0], flip), input[1..], flip)
  }

  /** The resolved aspect-ratio list: 1.0 first, then the input ratios. */
  function AspectRatios(input: seq<real>, flip: bool): (ratios: seq<real>)
    requires flip ==> NonZero(input)
    ensures |ratios| >= 1 && ratios[0] == 1.0
  {
    AddRatios([1.0], input, flip)
  }

  /** The input ratios that survive deduplication, in input order. */
  function Accepted(list: seq<real>, input: seq<real>, flip: bool): seq<real>
    requires flip ==> NonZero(input)
    decreases |input|
  {
    if |input| == 0 then []
    else if NearAny(list, input[0]) then Accepted(list, input[1..], flip)
    else [input[0]] + Accepted(AddRatio(list, input[0], flip), input[1..], flip)
  }

  /** Each accepted ratio, followed by its reciprocal when flipping. */
  function Expand(accepted: seq<real>, flip: bool): (e: seq<real>)
    requires flip ==> NonZero(accepted)
    ensures |e| == |accepted| * (if flip then 2 else 1)
  {
    if |accepted| == 0 then []
    else (if flip then [accepted[0], 1.0 / accepted[0]] else [accepted[0]])
         + Expand(accepted[1..], flip)
  }

  /** Setup's inner loop: search the list for an entry within the tolerance,
      stopping at the first one found. */
  method FindNear(ratios: seq<real>, aspectRatio: real) returns (alreadyExist: bool)
    ensures alreadyExist <==> NearAny(ratios, aspectRatio)
  {
    alreadyExist := false;
    var j := 0;
    while j < |ratios| && !alreadyExist
      invariant 0 <= j <= |ratios|
      invariant alreadyExist <==> exists k :: 0 <= k < j && Near(aspectRatio, ratios[k])
    {
      if Near(aspectRatio, ratios[j]) {
        alreadyExist := true;
      }
      j := j + 1;
    }
  }

  /** Setup's nested loops as written: the inner search stops at the first
      entry within the tolerance. */
  method BuildAspectRatios(input: seq<real>, flip: bool) returns (ratios: seq<real>)
    requires flip ==> NonZero(input)
    ensures ratios == AspectRatios(input, flip)
  {
    ratios := [1.0];
    var i := 0;
    while i < |input|
      invariant 0 <= i <= |input|
      invariant ratios == AddRatios([1.0], input[..i], flip)
    {
      var aspectRatio := input[i];
      var alreadyExist := FindNear(ratios, aspectRatio);
      AddRatiosPrefixStep(input, i, flip);
      ghost var before := ratios;
      if !alreadyExist {
        if flip {
          ratios := ratios + [aspectRatio, 1.0 / aspectRatio];
        } else {
          ratios := ratios + [aspectRatio];
        }
      }
      assert ratios == AddRatio(before, aspectRatio, flip);
      i := i + 1;
    }
    assert input[..i] == input;
  }

  /** Extending the processed prefix of the input by one ratio is one more
      step of the outer loop. */
  lemma AddRatiosPrefixStep(input: seq<real>, i: nat, flip: bool)
    requires flip ==> NonZero(input)
    requires i < |input|
    ensures flip ==> NonZero(input[..i]) && NonZero(input[..i + 1])
    ensures AddRatios([1.0], input[..i + 1], flip) == AddRatio(AddRatios([1.0], input[..i], flip), input[i], flip)
  {
    AddRatiosSnoc([1.0], input[..i], input[i], flip);
    assert input[..i + 1] == input[..i] + [input[i]];
  }

  /** Processing one more input ratio acts at the end of the list built so far:
      the list keeps insertion order. */
  lemma {:induction false} AddRatiosSnoc(list: seq<real>, input: seq<real>, x: real, flip: bool)
    requires flip ==> NonZero(input) && x != 0.0
    ensures flip ==> NonZero(input + [x])
    ensures AddRatios(list, input + [x], flip) == AddRatio(AddRatios(list, input, flip), x, flip)
    decreases |input|
  {
    if |input| > 0 {
      assert (input + [x])[1..] == input[1..] + [x];
      AddRatiosSnoc(AddRatio(list, input[0], flip), input[1..], x, flip);
    } else {
      assert (input + [x])[1..] == [];
    }
  }

  /** The list built is the starting list followed by the accepted ratios,
      each with its reciprocal when flipping. */
  lemma {:induction false} AddRatiosShape(list: seq<real>, input: seq<real>, flip: bool)
    requires flip ==> NonZero(input)
    ensures flip ==> NonZero(Accepted(list, input, flip))
    ensures AddRatios(list, input, flip) == list + Expand(Accepted(list, input, flip), flip)
    decreases |input|
  {
    if |input| > 0 {
      var next := AddRatio(list, input[0], flip);
      AddRatiosShape(next, input[1..], flip);
      if !NearAny(list, input[0]) {
        var acc := Accepted(list, input, flip);
        assert acc[1..] == Accepted(next, input[1..], flip);
      }
    }
  }

  /** The resolved list starts with 1.0; its length is one plus the number of
      accepted ratios, doubled when flipping. */
  lemma AspectRatiosLength(input: seq<real>, flip: bool)
    requires flip ==> NonZero(input)
    ensures |AspectRatios(input, flip)| == 1 + |Accepted([1.0], input, flip)| * (if flip then 2 else 1)
    ensures AspectRatios(input, flip)[0] == 1.0
  {
    AddRatiosShape([1.0], input, flip);
  }

  /** Deduplication loses no input: every input ratio lies within the
      tolerance of some entry of the resolved list. */
  lemma {:induction false} AddRatiosCoversInput(list: seq<real>, input: seq<real>, flip: bool)
    requires flip ==> NonZero(input)
    ensures forall x :: x in list ==> x in AddRatios(list, input, flip)
    ensures forall i :: 0 <= i < |input| ==> NearAny(AddRatios(list, input, flip), input[i])
    decreases |input|
  {
    if |input| > 0 {
      var next := AddRatio(list, input[0], flip);
      AddRatiosCoversInput(next, input[1..], flip);
      var result := AddRatios(list, input, flip);
      assert NearAny(next, input[0]) by {
        if !NearAny(list, input[0]) {
          assert next[|list|] == input[0];
          assert Near(input[0], next[|list|]);
        }
      }
      NearAnyMonotone(next, result, input[0]);
      forall i | 1 <= i < |input|
        ensures NearAny(result, input[i])
      {
        assert input[i] == input[1..][i - 1];
      }
    }
  }

  lemma NearAnyMonotone(small: seq<real>, big: seq<real>, r: real)
    requires forall x :: x in small ==> x in big
    requires NearAny(small, r)
    ensures NearAny(big, r)
  {
    var j :| 0 <= j < |small| && Near(r, small[j]);
    assert small[j] in big;
    var k :| 0 <= k < |big| && big[k] == small[j];
  }

  /** No two entries of a list are within the tolerance of each other. */
  predicate Separated(list: seq<real>)
  {
    forall i, j :: 0 <= i < j < |list| ==> !Near(list[i], list[j])
  }

  /** Without flipping, deduplication leaves a list whose entries are pairwise
      further apart than the tolerance. */
  lemma {:induction false} AddRatiosSeparated(list: seq<real>, input: seq<real>)
    requires Separated(list)
    ensures Separated(AddRatios(list, input, false))
    decreases |input|
  {
    if |input| > 0 {
      var r := input[0];
      var next := AddRatio(list, r, false);
      if !NearAny(list, r) {
        forall i, j | 0 <= i < j < |next|
          ensures !Near(next[i], next[j])
        {
          if j == |list| {
            assert next[j] == r;
            assert !Near(r, list[i]);
          }
        }
      }
      AddRatiosSeparated(next, input[1..]);
    }
  }

  /** Only the first entry of the list is within the tolerance of 1: the
      forward pass then skips exactly one ratio per min size. */
  predicate UnitOnlyFirst(ratios: seq<real>)
  {
    && |ratios| >= 1
    && Near(ratios[0], 1.0)
    && forall i :: 1 <= i < |ratios| ==> !Near(ratios[i], 1.0)
  }

  /** End of the window of ratios above 1 whose exact reciprocal falls within
      the tolerance of 1 although the ratio itself does not. */
  const FlipWindowEnd: real := 1.0 / (1.0 - Eps)

  /** A non-zero ratio at least the tolerance away from 1 has a reciprocal
      at least the tolerance away from 1, unless it lies in
      [1 + Eps, FlipWindowEnd). A negative ratio has a negative reciprocal. */
  lemma ReciprocalFarFromUnit(r: real)
    requires r != 0.0 && !Near(r, 1.0)
    requires r < 1.0 || r >= FlipWindowEnd
    ensures !Near(1.0 / r, 1.0)
  {
    if r < 0.0 {
      assert 1.0 / r < 0.0;
    } else if r < 1.0 {
      assert 1.0 - r >= Eps;
      var x := 1.0 / r - 1.0;
      assert x * r == 1.0 - r;
      assert x >= 0.0;
      assert x - x * r == x * (1.0 - r);
      ProductNonNegative(x, 1.0 - r);
      assert x >= 1.0 - r;
    } else {
      assert (1.0 - Eps) * FlipWindowEnd == 1.0;
      assert r * (1.0 - Eps) >= 1.0;
      assert (1.0 / r) * r == 1.0;
      assert 1.0 / r <= 1.0 - Eps;
    }
  }

  lemma ProductNonNegative(a: real, b: real)
    requires 0.0 <= a && 0.0 <= b
    ensures 0.0 <= a * b
  {
  }

  /** One accepted ratio keeps 1.0 the only unit entry when it lies outside
      the window. */
  lemma AddRatioUnitOnlyFirst(list: seq<real>, r: real, flip: bool)
    requires UnitOnlyFirst(list) && list[0] == 1.0
    requires flip ==> r != 0.0 && !(1.0 + Eps <= r < FlipWindowEnd)
    ensures AddRatio(list, r, flip)[0] == 1.0
    ensures UnitOnlyFirst(AddRatio(list, r, flip))
  {
    if !NearAny(list, r) {
      assert !Near(r, list[0]);
      if flip {
        ReciprocalFarFromUnit(r);
        var next := list + [r, 1.0 / r];
        assert next[|list|] == r && next[|list| + 1] == 1.0 / r;
      } else {
        var next := list + [r];
        assert next[|list|] == r;
      }
    }
  }

  /** In exact arithmetic the window is not empty: 1 + Eps is accepted, but
      its reciprocal is within the tolerance of 1. */
  lemma ReciprocalWindowInhabited()
    ensures !Near(1.0 + Eps, 1.0) && Near(1.0 / (1.0 + Eps), 1.0)
  {
  }

  /** No ratio lies in the window [1 + Eps, FlipWindowEnd). */
  predicate OutsideFlipWindow(rs: seq<real>)
  {
    forall i :: 0 <= i < |rs| ==> !(1.0 + Eps <= rs[i] < FlipWindowEnd)
  }

  /** The flipped reciprocals stay away from 1 when no input ratio falls in
      the window; the list then keeps 1.0 as its only unit entry. */
  lemma {:induction false} AddRatiosUnitOnlyFirst(list: seq<real>, input: seq<real>, flip: bool)
    requires UnitOnlyFirst(list) && list[0] == 1.0
    requires flip ==> NonZero(input) && OutsideFlipWindow(input)
    ensures UnitOnlyFirst(AddRatios(list, input, flip))
    ensures AddRatios(list, input, flip)[0] == 1.0
    decreases |input|
  {
    if |input| > 0 {
      var r := input[0];
      var next := AddRatio(list, r, flip);
      AddRatioUnitOnlyFirst(list, r, flip);
      var rest := input[1..];
      assert forall i :: 0 <= i < |rest| ==> rest[i] == input[i + 1];
      AddRatiosUnitOnlyFirst(next, rest, flip);
    }
  }

  /** When flipping with no input ratio in the window, and always without
      flipping, 1.0 is the only entry of the resolved list within the
      tolerance of 1. */
  lemma AspectRatiosUnitOnlyFirst(input: seq<real>, flip: bool)
    requires flip ==> NonZero(input) && OutsideFlipWindow(input)
    ensures UnitOnlyFirst(AspectRatios(input, flip))
  {
    assert Near(1.0, 1.0);
    AddRatiosUnitOnlyFirst([1.0], input, flip);
  }

  // ---------------------------------------------------------------------
  // Variance, image size and step
  // ---------------------------------------------------------------------

  /** More than one value must be exactly four, stored as given; a single
      value is stored alone; none gives the default. */
  function ResolveVariance(variance: seq<real>): (v: seq<real>)
    requires |variance| <= 1 || |variance| == 4
    ensures |v| == 1 || |v| == 4
    ensures 0 < |variance| ==> v == variance
    ensures |variance| == 0 ==> v == [DefaultVariance]
  {
    if |variance| > 1 then variance
    else if |variance| == 1 then [variance[0]]
    else [DefaultVariance]
  }

  /** Image size and step resolution: two entries are (height, width), one
      entry is a square, any other count gives the `zero` sentinel. */
  function ResolvePair<T>(v: seq<T>, zero: T): (hw: (T, T))
    ensures |v| == 1 || |v| == 2 ==> hw.0 == v[0] && hw.1 == v[|v| - 1]
    ensures |v| != 1 && |v| != 2 ==> hw == (zero, zero)
  {
    if |v| == 2 then (v[0], v[1])
    else if |v| == 1 then (v[0], v[0])
    else (zero, zero)
  }

  // ---------------------------------------------------------------------
  // Setup on a layer object
  // ---------------------------------------------------------------------

  /** The fields of a freshly constructed layer. */
  function FreshLayer(): Config
  {
    Config([], [], [], false, false, [], 0, 0, 0, 0.0, 0.0, 0.0)
  }

  /** Setup as written, run on a layer whose fields hold `prev`:
      `_aspectRatios` is cleared first, but `_variance` is only appended to
      (unless more than one variance is given) and `_maxSizes` is only
      assigned when the parameters give max sizes. */
  function SetupOnLayer(prev: Config, p: PriorBoxParam): (c: Config)
    requires SetupRequires(p)
    ensures c.aspectRatios == AspectRatios(p.aspectRatio, p.flip)
    ensures c.numPriors == |c.aspectRatios| * |p.minSize| + |p.maxSize|
    ensures |c.variance| == if |p.variance| > 1 then |p.variance| else |prev.variance| + 1
  {
    var ratios := AspectRatios(p.aspectRatio, p.flip);
    var imgHW := ResolvePair(p.imgSize, 0);
    var stepHW := ResolvePair(p.step, 0.0);
    Config(
      p.minSize,
      if |p.maxSize| > 0 then p.maxSize else prev.maxSizes,
      ratios,
      p.flip,
      p.clip,
      if |p.variance| > 1 then p.variance
      else prev.variance + (if |p.variance| == 1 then [p.variance[0]] else [DefaultVariance]),
      |ratios| * |p.minSize| + |p.maxSize|,
      imgHW.0, imgHW.1,
      stepHW.0, stepHW.1,
      p.offset)
  }

  /** Setup as evidently intended: every field is reset before it is filled,
      as `_aspectRatios` already is. */
  function SetupOnLayerCleared(prev: Config, p: PriorBoxParam): (c: Config)
    requires SetupRequires(p)
    ensures ValidConfig(c)
    ensures c.aspectRatios == AspectRatios(p.aspectRatio, p.flip)
    ensures c.minSizes == p.minSize && c.maxSizes == p.maxSize
    ensures c.numPriors == |c.aspectRatios| * |p.minSize| + |p.maxSize|
    ensures c.numPriors >= |p.minSize|
    ensures c.variance == ResolveVariance(p.variance)
    ensures (c.imgH, c.imgW) == ResolvePair(p.imgSize, 0)
    ensures (c.stepH, c.stepW) == ResolvePair(p.step, 0.0)
    ensures c.flip == p.flip && c.clip == p.clip && c.offset == p.offset
  {
    AspectRatiosLength(p.aspectRatio, p.flip);
    var cleared := prev.(maxSizes := [], variance := []);
    SetupOnLayer(cleared, p)
  }

  /** The configuration the layer holds after Setup. */
  function Setup(p: PriorBoxParam): (c: Config)
    requires SetupRequires(p)
    ensures ValidConfig(c)
  {
    SetupOnLayerCleared(FreshLayer(), p)
  }

  /** Setup establishes what the forward pass needs of the ratio list: 1.0 is
      its only entry within the tolerance of 1, unless flipping a ratio in the
      window [1 + Eps, FlipWindowEnd). */
  lemma SetupEstablishesUnitOnlyFirst(p: PriorBoxParam)
    requires SetupRequires(p)
    requires p.flip ==> OutsideFlipWindow(p.aspectRatio)
    ensures ValidConfig(Setup(p))
    ensures UnitOnlyFirst(Setup(p).aspectRatios)
  {
    AspectRatiosUnitOnlyFirst(p.aspectRatio, p.flip);
  }

  /** On a fresh layer the code as written and the corrected Setup agree. */
  lemma SetupOnFreshLayer(p: PriorBoxParam)
    requires SetupRequires(p)
    ensures SetupOnLayer(FreshLayer(), p) == Setup(p)
  {
  }

  /** The corrected Setup does not depend on what the layer held before, so
      running it again changes nothing. */
  lemma SetupOnLayerClearedIdempotent(prev: Config, p: PriorBoxParam)
    requires SetupRequires(p)
    ensures SetupOnLayerCleared(prev, p) == Setup(p)
    ensures SetupOnLayerCleared(Setup(p), p) == Setup(p)
  {
  }

  /** As written, a second Setup with one variance leaves two variances; the
      forward pass then takes the four-variance branch and reads past them. */
  lemma SetupTwiceBreaksVarianceCount()
    ensures var p := PriorBoxParam([30.0], [], [2.0], true, false, [0.2], [300], [], 0.5);
            && SetupRequires(p)
            && ValidConfig(SetupOnLayer(FreshLayer(), p))
            && SetupOnLayer(SetupOnLayer(FreshLayer(), p), p).variance == [0.2, 0.2]
            && !ValidConfig(SetupOnLayer(SetupOnLayer(FreshLayer(), p), p))
  {
    var p := PriorBoxParam([30.0], [], [2.0], true, false, [0.2], [300], [], 0.5);
    AspectRatiosLength(p.aspectRatio, p.flip);
  }

  /** As written, a second Setup without max sizes keeps the max sizes of the
      first one while the prior count no longer includes them, so the forward
      pass emits more boxes per cell than the output has room for. Setup reads
      the parameters the layer was built with, so this needs those parameters
      to change between the two calls. */
  lemma SetupTwiceKeepsStaleMaxSizes()
    ensures var first := PriorBoxParam([30.0], [60.0], [2.0], true, false, [], [300], [], 0.5);
            var second := first.(maxSize := []);
            var c := SetupOnLayer(SetupOnLayer(FreshLayer(), first), second);
            && SetupRequires(first) && SetupRequires(second)
            && c.maxSizes == [60.0]
            && c.numPriors == |c.aspectRatios| * |c.minSizes|
            && !ValidConfig(c)
  {
    var first := PriorBoxParam([30.0], [60.0], [2.0], true, false, [], [300], [], 0.5);
    AspectRatiosLength(first.aspectRatio, first.flip);
  }
}
