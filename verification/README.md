# Prior-box layer model

A Dafny model of Synet's SSD prior-box ("anchor") generator,
`PriorBoxLayer` in `src/Synet/PriorBoxLayer.h`, with proofs about it. The layer has three
stages:

- **Setup** turns the layer parameters into a resolved configuration. It builds the aspect-ratio
  list, which starts with 1.0. Each input ratio is deduplicated against the list built so far with a
  1e-6 tolerance. When flip is set, an accepted ratio is followed by its reciprocal. Setup also
  computes the prior count per cell, resolves the variance (four values, one value, or 0.1), and
  resolves the image size and step (two values, one value, or the 0 sentinel meaning "derive at
  forward time").
- **Reshape** gives the output shape `[1, 2, W * H * numPriors * 4]`.
- **ForwardCpu** fills the first half of the output. It visits the feature-map cells in row-major
  order and writes four normalised corners per box. Per min size it emits:
  - the min box;
  - then the sqrt(min * max) box, when max sizes exist;
  - then one box per aspect ratio not within 1e-6 of 1.

  The coordinate half is clipped to [0, 1] when clip is set. The second half holds the variances:
  either one value broadcast, or four values repeated once per box.

Files:

- `numerics.dfy` (module `Numerics`): the tolerance, `fabs`, C's `(int)` truncation, the clamp, and
  small integer facts used for the index arithmetic.
- `setup.dfy` (module `PriorBoxSetup`): parameters, the resolved configuration, the aspect-ratio
  list as a fold together with the loop that builds it, and the resolution of variance, image size
  and step. `Setup` is the call on a fresh layer. `SetupOnLayer` runs the same code on a layer whose
  fields may hold an earlier configuration.
- `shape.dfy` (module `PriorBoxShape`): the output shape, its volume, and the row-major box
  numbering `BoxIndex`.
- `forward.dfy` (module `PriorBoxForward`):
  - the geometry resolved at forward time;
  - the boxes of one cell;
  - the reference layout `CoordAt`, which says which value each index of the coordinate block
    holds;
  - the coordinate, clip and variance loops, each proved against that layout;
  - the whole forward pass.
- `examples.dfy` (module `PriorBoxExamples`): the deduplication example and a worked example.
  - Deduplication: `[1, 2, 2, 0.5]` with flip gives `[1, 2, 0.5]`.
  - Worked example: min size 30, ratio 2 with flip, a 300 x 300 image and a 2 x 2 map. This gives
    step 150, 3 priors, 48 coordinates, and a first box of `(0.2, 0.2, 0.3, 0.3)`.

Modelling choices:

- **Numbers.**
  - `float` is modelled as `real`.
  - `sqrt` is a function value the caller supplies (`Sqrt`). Lemmas that rely on it being a square
    root say so with `IsSqrtAt`.
  - `(int)x` truncates toward zero (`TruncToInt`).
- **The source's debug `assert`s become preconditions.** They are:
  - non-empty max sizes must match the min sizes in length;
  - more than one variance must be exactly four.

  A zero ratio under flip (a division by zero) is excluded the same way. The forward pass also
  requires the supplied `sqrt` to be non-zero at every ratio after the first (`SqrtReady`), which
  excludes a zero ratio even without flip.
- **Zero extents.**
  - When the image size is read from the second input, that image must have non-zero extents: the
    coordinates are divided by them.
  - On a feature map with a zero extent, the derived step (a division by zero in the layer) is never
    read, so the model sets it to 0.
- **Unit ratio.** The coordinate loop writes exactly `dim = H * W * numPriors * 4` values only when
  1.0 is the only ratio within the tolerance of 1 (`UnitOnlyFirst`). The forward pass requires this.
  - `SetupEstablishesUnitOnlyFirst` proves that Setup establishes it, always without flip and, with
    flip, provided no ratio lies in `[1 + 1e-6, 1 / (1 - 1e-6))`.
  - In that window the exact reciprocal of a ratio falls within the tolerance of 1, although the
    ratio itself does not (`ReciprocalWindowInhabited`). The reciprocal is never checked against the
    list.
  - No single-precision value lies in that window, so the window is an artefact of computing in
    exact reals.

## Model

| member | source | states |
|---|---|---|
| Numerics.TruncToInt | src/Synet/PriorBoxLayer.h:172-180 | The `(int)` casts truncate toward zero: the result lies within 1 of x, on the side of x toward zero. |
| Numerics.Clamp01 | src/Synet/PriorBoxLayer.h:202-206 | The clamp lands in [0, 1], keeps values already in range, and sends values below 0 to 0 and above 1 to 1. |
| Numerics.Clamp01Idempotent | src/Synet/PriorBoxLayer.h:205 | Clamping twice equals clamping once. |
| PriorBoxSetup.AddRatio | src/Synet/PriorBoxLayer.h:53-67 | One outer-loop step only appends, by at most two entries. It leaves the list unchanged exactly when the ratio is within 1e-6 of an existing entry. Afterwards the ratio is within 1e-6 of some entry. |
| PriorBoxSetup.AddRatios | src/Synet/PriorBoxLayer.h:51-68 | The outer loop never changes the entries already in the list; it only appends. |
| PriorBoxSetup.AspectRatios | src/Synet/PriorBoxLayer.h:49-69 | The resolved list is non-empty and starts with 1.0. |
| PriorBoxSetup.FindNear | src/Synet/PriorBoxLayer.h:54-62 | The inner search stops at the first entry within 1e-6 and reports exactly whether some entry is within 1e-6 of the ratio. |
| PriorBoxSetup.BuildAspectRatios | src/Synet/PriorBoxLayer.h:49-69 | The nested dedup loops, which stop the inner search at the first entry within 1e-6, compute exactly the fold `AspectRatios`: start from [1.0], skip a ratio near an existing entry, otherwise append it (and its reciprocal when flipping). |
| PriorBoxSetup.AddRatiosSnoc | src/Synet/PriorBoxLayer.h:51-68 | Processing one more input ratio only acts at the end of the list built so far, so the list keeps insertion order. |
| PriorBoxSetup.AddRatiosShape | src/Synet/PriorBoxLayer.h:49-69 | The resolved list is the starting list followed by the accepted input ratios in input order, each followed by its reciprocal when flipping. |
| PriorBoxSetup.AspectRatiosLength | src/Synet/PriorBoxLayer.h:49-69 | The list starts with 1.0 and has length 1 + accepted * (2 if flip else 1). |
| PriorBoxSetup.AddRatiosCoversInput | src/Synet/PriorBoxLayer.h:51-68 | Deduplication loses nothing: the entries already present stay, and every input ratio ends within 1e-6 of some entry. |
| PriorBoxSetup.AddRatiosSeparated | src/Synet/PriorBoxLayer.h:51-68 | Without flip, no two entries of the list are within 1e-6 of each other. |
| PriorBoxSetup.ReciprocalFarFromUnit | src/Synet/PriorBoxLayer.h:64-66 | A non-zero ratio at least 1e-6 from 1 and outside [1+1e-6, 1/(1-1e-6)) has a reciprocal at least 1e-6 from 1. |
| PriorBoxSetup.ReciprocalWindowInhabited | src/Synet/PriorBoxLayer.h:64-66 | In exact arithmetic, 1 + 1e-6 is accepted, but its reciprocal lies within 1e-6 of 1. |
| PriorBoxSetup.AddRatioUnitOnlyFirst | src/Synet/PriorBoxLayer.h:53-67 | One step of the outer loop keeps 1.0 as the only entry within 1e-6 of 1 when the ratio lies outside the window. |
| PriorBoxSetup.AddRatiosUnitOnlyFirst | src/Synet/PriorBoxLayer.h:51-68 | The whole loop keeps 1.0 first and as the only entry within 1e-6 of 1, always without flip and, with flip, for non-zero ratios outside the window. |
| PriorBoxSetup.AspectRatiosUnitOnlyFirst | src/Synet/PriorBoxLayer.h:49-69 | The resolved list has exactly one entry within 1e-6 of 1, its first, under the same conditions. |
| PriorBoxSetup.ResolveVariance | src/Synet/PriorBoxLayer.h:78-86 | More than one variance must be four and is stored as given; one is stored alone; none gives [0.1]; the result always has 1 or 4 entries. |
| PriorBoxSetup.ResolvePair | src/Synet/PriorBoxLayer.h:87-116 | Two entries give (height, width), one entry gives a square, any other count gives the 0 sentinel for both. |
| PriorBoxSetup.SetupOnLayer | src/Synet/PriorBoxLayer.h:44-118 | Setup as written on a layer that already holds a configuration: the ratio list and `numPriors` (ratio count times min-size count plus max-size count) are recomputed, but the variance count grows by one unless four values are given. |
| PriorBoxSetup.SetupOnLayerCleared | src/Synet/PriorBoxLayer.h:44-118 | Setup with every field reset first: yields a valid configuration with the given min and max sizes, the resolved ratios, variance, image size and step, and `numPriors` equal to the ratio count times the min-size count plus the max-size count. |
| PriorBoxSetup.Setup | src/Synet/PriorBoxLayer.h:44-118 | The configuration Setup produces on a fresh layer is valid: ratio list starting with 1.0, matching max-size count, one or four variances, and the prior count. |
| PriorBoxSetup.SetupEstablishesUnitOnlyFirst | src/Synet/PriorBoxLayer.h:49-76 | Setup also gives the forward pass its other requirement: 1.0 is the only ratio within 1e-6 of 1. This holds always without flip and, with flip, when no ratio lies in the exact-real window. |
| PriorBoxSetup.SetupOnFreshLayer | src/Synet/PriorBoxLayer.h:44-118 | On a fresh layer, Setup as written and Setup with reset fields agree. |
| PriorBoxSetup.SetupOnLayerClearedIdempotent | src/Synet/PriorBoxLayer.h:44-118 | Setup with reset fields ignores the previous state, so running it twice gives the same configuration. |
| PriorBoxSetup.SetupTwiceBreaksVarianceCount | src/Synet/PriorBoxLayer.h:78-86 | As written, a second Setup with one variance leaves two stored variances, which is not a valid configuration. |
| PriorBoxSetup.SetupTwiceKeepsStaleMaxSizes | src/Synet/PriorBoxLayer.h:70-76 | As written, if the parameters change so that a second Setup has no max sizes, the old max sizes stay while `numPriors` no longer counts them. |
| PriorBoxShape.OutputShape | src/Synet/PriorBoxLayer.h:120-129 | The shape is `[1, 2, W * H * numPriors * 4]`, read from axes 2 and 3 of the input. |
| PriorBoxShape.OutputShapeBlocks | src/Synet/PriorBoxLayer.h:120-129 | The output holds two blocks of `H * W * numPriors * 4` values each, and the last extent is a multiple of 4. |
| PriorBoxShape.MinimalShape | src/Synet/PriorBoxLayer.h:120-129 | A 1 x 1 map with one prior gives shape [1, 2, 4] and 8 values. |
| PriorBoxShape.BoxIndexBound | src/Synet/PriorBoxLayer.h:161-170 | Every prior of every cell has a row-major box number below `H * W * numPriors`. |
| PriorBoxShape.BoxIndexNextCell | src/Synet/PriorBoxLayer.h:163-170 | The box number after the last prior of cell (h, w) is the first prior of cell (h, w + 1). |
| PriorBoxShape.BoxIndexNextRow | src/Synet/PriorBoxLayer.h:161-170 | After the last cell of a row comes the first cell of the next row, and after the last row comes `H * W * numPriors`. |
| PriorBoxForward.ResolveGeometry | src/Synet/PriorBoxLayer.h:135-159 | Image extents come from the configuration, or from the second input when either is 0. When either configured step is 0, each step times its map extent equals the image extent. |
| PriorBoxForward.CentresInsideImage | src/Synet/PriorBoxLayer.h:148-168 | With derived steps and an offset in [0, 1), every cell centre lies inside the image. |
| PriorBoxForward.BoxShape | src/Synet/PriorBoxLayer.h:172-193 | For every box of a min size: the first is a square of side `(int)min`; the max box is a square of area `(int)min * (int)max`; each ratio box has the min box's area and is `ar` times as wide as it is tall. |
| PriorBoxForward.MaxBoxShape | src/Synet/PriorBoxLayer.h:178-181 | The max box is a square whose area is `(int)min * (int)max`. |
| PriorBoxForward.RatioBoxShape | src/Synet/PriorBoxLayer.h:187-193 | A ratio box has the min box's area, and its width is `ar` times its height. |
| PriorBoxForward.CountNotUnit | src/Synet/PriorBoxLayer.h:187-191 | The number of ratios the loop does not skip is at most the list length. |
| PriorBoxForward.CountNotUnitAll | src/Synet/PriorBoxLayer.h:187-191 | The ratio loop emits a box for every ratio if and only if none is within 1e-6 of 1. |
| PriorBoxForward.SkipsOnlyFirst | src/Synet/PriorBoxLayer.h:187-191 | For a list starting near 1, the loop skips exactly one ratio if and only if no later ratio is within 1e-6 of 1. |
| PriorBoxForward.NumPriorsCountsEmittedBoxes | src/Synet/PriorBoxLayer.h:70-75 | The configured `numPriors` equals the number of boxes the forward pass emits per cell: per min size, one min box, the max box if any, and one box per ratio not skipped. |
| PriorBoxForward.NumPriorsPerMinSize | src/Synet/PriorBoxLayer.h:70-75 | The priors of a cell form one group of (ratio count + 1 if max sizes exist, else ratio count) boxes per min size. |
| PriorBoxForward.InCellNext | src/Synet/PriorBoxLayer.h:170-199 | The boxes of min size s + 1 follow those of min size s, and after the last min size comes the end of the cell's `numPriors` boxes. |
| PriorBoxForward.PriorSlot | src/Synet/PriorBoxLayer.h:161-199 | Box t of min size s in cell (h, w) has box number `(h * W + w) * numPriors + s * perMin + t`, which is below `H * W * numPriors`, and the layout places exactly that box there. |
| PriorBoxForward.CoordsOfBox | src/Synet/PriorBoxLayer.h:174-177 | Box b's four coordinates occupy indices 4b to 4b + 3 in the order left, top, right, bottom. |
| PriorBoxForward.RowMajorLayout | src/Synet/PriorBoxLayer.h:161-199 | Corner j of box t of min size s in cell (h, w) sits at index `((h * W + w) * numPriors + s * perMin + t) * 4 + j`, below dim. |
| PriorBoxForward.CornersDescribeBox | src/Synet/PriorBoxLayer.h:174-177 | The four normalised corners describe the box: the midpoints of opposite corners give the normalised centre, and their differences give the normalised width and height. |
| PriorBoxForward.EmitBox | src/Synet/PriorBoxLayer.h:174-177 | The four `pDst[index++]` writes store the normalised corners at index to index + 3, touch nothing else, and advance the index by 4. |
| PriorBoxForward.EmitPrior | src/Synet/PriorBoxLayer.h:174-197 | Writing a box at its row-major slot extends the correctly filled prefix by four values and changes no other entry. |
| PriorBoxForward.EmitMinSize | src/Synet/PriorBoxLayer.h:170-198 | One min size's boxes (min, max if any, each ratio not within 1e-6 of 1) advance the write index from the group's first slot to the next group's first slot, keeping the filled prefix correct. Only the entries between the two slots change, so each is written once. |
| PriorBoxForward.FillCell | src/Synet/PriorBoxLayer.h:166-199 | The min-size loop of cell (h, w) advances the write index over exactly that cell's `numPriors` boxes, to the first slot of cell (h, w + 1). No entry outside that range changes. |
| PriorBoxForward.FillCoordinates | src/Synet/PriorBoxLayer.h:161-201 | The h, w, s, r loops leave the write index exactly at `H * W * numPriors * 4`. Every value written is the reference layout's value at that index. |
| PriorBoxForward.ClipCoordinates | src/Synet/PriorBoxLayer.h:202-206 | After clipping, every coordinate lies in [0, 1]; values already in range are unchanged; the rest become the nearer bound. |
| PriorBoxForward.ClipIdempotent | src/Synet/PriorBoxLayer.h:202-206 | Clipping an already clipped block changes nothing. |
| PriorBoxForward.EmitVariances | src/Synet/PriorBoxLayer.h:216-217 | The innermost variance loop writes the four variances at a multiple of 4, so entry k holds `variance[k % 4]`. No other entry changes. |
| PriorBoxForward.TileCell | src/Synet/PriorBoxLayer.h:212-218 | The prior loop of one cell writes one group of four variances per prior, from the cell's first slot to the next cell's, and changes no other entry. |
| PriorBoxForward.TileVariance | src/Synet/PriorBoxLayer.h:210-218 | The h, w, prior loops of the four-variance case fill the whole block with `variance[k % 4]` at entry k. |
| PriorBoxForward.FillVariance | src/Synet/PriorBoxLayer.h:208-218 | The variance block has dim entries: one value broadcast to every entry, or `variance[k % 4]` at entry k. |
| PriorBoxForward.VarianceAlignment | src/Synet/PriorBoxLayer.h:161-218 | In the forward output, corner j of box b is at index 4b + j (clamped when clip is set). The entry dim places later holds variance j, or the single broadcast variance. |
| PriorBoxForward.ForwardCpu | src/Synet/PriorBoxLayer.h:132-219 | The output fills exactly the Reshape volume, `2 * dim`. Index i < dim holds the layout's coordinate, clamped when clip is set; index i in [dim, 2 * dim) holds the variance for coordinate i - dim. |
| PriorBoxExamples.DedupExample | src/Synet/PriorBoxLayer.h:49-69 | [1, 2, 2, 0.5] with flip and [2] with flip both resolve to [1, 2, 0.5]. |
| PriorBoxExamples.WorkedExampleSetup | src/Synet/PriorBoxLayer.h:44-161 | Min 30, ratio 2 with flip, image 300 and a 2 x 2 map give ratios [1, 2, 0.5], 3 priors, step 150 and 48 coordinates. |
| PriorBoxExamples.WorkedExampleFirstBox | src/Synet/PriorBoxLayer.h:132-177 | For the example's Setup result and its 2 x 2 map, the configuration meets the forward pass's requirements. The first box of the first cell, centred at (75, 75), is (0.2, 0.2, 0.3, 0.3). |

## Left out

- `src/Synet/Layers/NormalizeLayer.h` is not part of this model. Its substance is floating-point
  L2 normalisation.
- IEEE single-precision rounding, infinities and NaN: values are exact reals and `sqrt` is supplied
  by the caller, so outputs are not bit-exact.
- The 32-bit `int` product `minS * maxS` and the `size_t` arithmetic of the shape and indices are
  unbounded integers in the model. Their overflow is not modelled.
- Numerics.TruncToInt: truncates every real, whereas converting a float outside the 32-bit `int`
  range with `(int)` is undefined behaviour in C++. The model does not bound the min and max sizes.
- PriorBoxForward.ForwardCpu: requires that 1.0 be the only ratio within 1e-6 of 1
  (`UnitOnlyFirst`) instead of handling the exact-real window where a flipped reciprocal is near 1.
  That window contains no single-precision value.
- PriorBoxForward.ForwardCpu: requires SqrtReady, so the supplied `sqrt` must be non-zero at every
  ratio after the first. This excludes a zero ratio with flip off, which Setup accepts: the layer
  then divides `minS` by sqrt(0), giving an infinite height that clipping would turn into 1. It
  also excludes any ratio whose supplied root is 0. Infinities are not modelled.
- PriorBoxForward.ValidInputs: requires non-zero image extents when they are read from the second
  input. The layer would divide by zero there.
- PriorBoxSetup.SetupRequires: the debug `assert`s (matching max-size count; exactly four variances
  when more than one) are preconditions, not error results. A zero aspect ratio under flip is also
  excluded, because its reciprocal is a division by zero.
- PriorBoxForward.ClipCoordinates and PriorBoxForward.FillVariance work on separate sequences.
  In the layer both halves are one tensor buffer, and the variance half starts at
  `dst[0]->Size(2)`, which equals dim for the Reshape shape. `ForwardCpu` concatenates the two halves.
- The `Layer<T>` base class, tensor allocation, `CpuData`, `CpuSet`, the performance macro and
  parameter deserialisation are framework code. Tensors are sequences of shapes and values, and
  parameters are a record.

## Findings

| source | as written | input that shows it | evidently intended | confidence | as-written member | corrected member |
|---|---|---|---|---|---|---|
| src/Synet/PriorBoxLayer.h:78-86 | `_variance` is appended to unless four values are given; it is never cleared, unlike `_aspectRatios` | Setup twice with variance [0.2]: the stored variance becomes [0.2, 0.2], and the forward pass then takes the four-variance branch and reads `_variance[2]` and `_variance[3]` | `_variance` reset before it is filled, so a repeated Setup gives the same configuration | low; not executed (only matters if Setup runs twice on one layer) | PriorBoxSetup.SetupTwiceBreaksVarianceCount | PriorBoxSetup.SetupOnLayerClearedIdempotent |
| src/Synet/PriorBoxLayer.h:70-76 | `_maxSizes` is only assigned when the parameters give max sizes | Setup with max [60], then the layer's parameters changed to have no max sizes and Setup run again: `_maxSizes` stays [60] but `_numPriors` counts no max boxes, so the forward pass writes past dim | `_maxSizes` reset before it is filled | low; not executed (needs the layer's parameters to change between two Setups, which nothing shown does) | PriorBoxSetup.SetupTwiceKeepsStaleMaxSizes | PriorBoxSetup.SetupOnLayerClearedIdempotent |
