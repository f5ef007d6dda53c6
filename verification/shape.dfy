/** Shape inference of the prior-box layer (`PriorBoxLayer::Reshape`). */
module PriorBoxShape {
  import opened Numerics
  import opened PriorBoxSetup

  /** A tensor shape, outermost axis first. */
  type Shape = seq<nat>

  /** Number of boxes for an H x W feature map: one per prior per cell. */
  function BoxCount(layerH: nat, layerW: nat, numPriors: nat): nat
  {
    layerH * layerW * numPriors
  }

  /** Number of coordinate values for an H x W feature map: four per box. */
  function CoordCount(layerH: nat, layerW: nat, numPriors: nat): nat
  {
    BoxCount(layerH, layerW, numPriors) * 4
  }

  /** Position of prior `k` of cell (h, w) among the boxes of the block, with
      cells in row-major order. */
  function BoxIndex(layerW: nat, numPriors: nat, h: nat, w: nat, k: nat): nat
  {
    (h * layerW + w) * numPriors + k
  }

  /** Every prior of every cell has a position inside the block. */
  lemma BoxIndexBound(layerH: nat, layerW: nat, numPriors: nat, h: nat, w: nat, k: nat)
    requires h < layerH && w < layerW && k < numPriors
    ensures BoxIndex(layerW, numPriors, h, w, k) < BoxCount(layerH, layerW, numPriors)
  {
    MulMonotone(h + 1, layerH, layerW);
    MulMonotone(h * layerW + w + 1, layerH * layerW, numPriors);
  }

  /** Past the last prior of a cell comes the first prior of the next cell. */
  lemma BoxIndexNextCell(layerW: nat, numPriors: nat, h: nat, w: nat)
    ensures BoxIndex(layerW, numPriors, h, w, numPriors) == BoxIndex(layerW, numPriors, h, w + 1, 0)
  {
  }

  /** Past the last cell of a row comes the first cell of the next row, and
      past the last row comes the end of the block. */
  lemma BoxIndexNextRow(layerH: nat, layerW: nat, numPriors: nat, h: nat)
    ensures BoxIndex(layerW, numPriors, h, layerW, 0) == BoxIndex(layerW, numPriors, h + 1, 0, 0)
    ensures BoxIndex(layerW, numPriors, layerH, 0, 0) == BoxCount(layerH, layerW, numPriors)
  {
    assert h * layerW + layerW == (h + 1) * layerW;
  }

  /** Output shape from the feature map's height (axis 2) and width (axis 3):
      one batch, two channels (coordinates, variances), four values per prior
      per cell. The contract fixes every extent from axes 2 and 3 alone, so
      repeating Reshape on the same resolution gives the same shape. */
  function OutputShape(c: Config, src0: Shape): (shape: Shape)
    requires |src0| >= 4
    ensures |shape| == 3 && shape[0] == 1 && shape[1] == 2
    ensures shape[2] == CoordCount(src0[2], src0[3], c.numPriors)
  {
    var layerW := src0[3];
    var layerH := src0[2];
    [1, 2, layerW * layerH * c.numPriors * 4]
  }

  /** Total number of elements of a shape. */
  function Volume(shape: Shape): nat
  {
    if |shape| == 0 then 1 else shape[0] * Volume(shape[1..])
  }

  /** The output holds exactly one coordinate block and one variance block of
      the same length, and that length is a multiple of four. */
  lemma OutputShapeBlocks(c: Config, src0: Shape)
    requires |src0| >= 4
    ensures Volume(OutputShape(c, src0)) == 2 * CoordCount(src0[2], src0[3], c.numPriors)
    ensures OutputShape(c, src0)[2] % 4 == 0
  {
    var shape := OutputShape(c, src0);
    var n := shape[2];
    assert shape[1..][1..] == [n];
    assert Volume([n]) == n by {
      assert [n][1..] == [];
    }
    assert Volume(shape[1..]) == 2 * n;
  }

  /** A 1 x 1 map with a single prior gives 4 coordinates and 4 variances. */
  lemma MinimalShape(c: Config)
    requires c.numPriors == 1
    ensures OutputShape(c, [1, 1, 1, 1]) == [1, 2, 4]
    ensures Volume(OutputShape(c, [1, 1, 1, 1])) == 8
  {
    OutputShapeBlocks(c, [1, 1, 1, 1]);
  }
}
