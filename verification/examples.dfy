/** Concrete configurations worked through the model. */
module PriorBoxExamples {
  import opened Numerics
  import opened PriorBoxSetup
  import opened PriorBoxShape
  import opened PriorBoxForward

  /** Repeated and reciprocal ratios are dropped: [1, 2, 2, 0.5] with flip
      resolves to the same list as [2]. */
  lemma DedupExample()
    ensures AspectRatios([1.0, 2.0, 2.0, 0.5], true) == [1.0, 2.0, 0.5]
    ensures AspectRatios([2.0], true) == [1.0, 2.0, 0.5]
  {
    var l0: seq<real> := [1.0];
    var l1: seq<real> := [1.0, 2.0, 0.5];
    assert Near(1.0, l0[0]);
    assert AddRatio(l0, 1.0, true) == l0;
    assert !Near(2.0, l0[0]);
    assert AddRatio(l0, 2.0, true) == l1;
    assert Near(2.0, l1[1]);
    assert AddRatio(l1, 2.0, true) == l1;
    assert Near(0.5, l1[2]);
    assert AddRatio(l1, 0.5, true) == l1;
    var input: seq<real> := [1.0, 2.0, 2.0, 0.5];
    assert input[1..] == [2.0, 2.0, 0.5];
    assert input[1..][1..] == [2.0, 0.5];
    assert input[1..][1..][1..] == [0.5];
    assert input[1..][1..][1..][1..] == [];
    assert AddRatios(l1, [], true) == l1;
    assert AddRatios(l1, [0.5], true) == l1;
    assert AddRatios(l1, [2.0, 0.5], true) == l1;
    assert AddRatios(l0, [2.0, 2.0, 0.5], true) == l1;
    assert [2.0][1..] == [];
  }

  /** Min size 30, ratio 2 with flip, a 300 x 300 image, offset 0.5. */
  function ExampleParam(): PriorBoxParam
  {
    PriorBoxParam([30.0], [], [2.0], true, false, [], [300], [], 0.5)
  }

  /** A 2 x 2 feature map. */
  function ExampleInput(): seq<Shape>
  {
    [[1, 256, 2, 2]]
  }

  /** The example resolves to ratios [1, 2, 0.5], 3 priors per cell and
      48 coordinates, with a step of 150 pixels. */
  lemma WorkedExampleSetup()
    ensures SetupRequires(ExampleParam())
    ensures var c := Setup(ExampleParam());
            && c.minSizes == [30.0] && c.maxSizes == [] && c.offset == 0.5
            && c.aspectRatios == [1.0, 2.0, 0.5]
            && c.numPriors == 3
            && UnitOnlyFirst(c.aspectRatios)
            && ValidInputs(c, ExampleInput())
            && var g := ResolveGeometry(c, ExampleInput());
            && g == Geometry(2, 2, 300, 300, 150.0, 150.0)
            && CoordCount(g.layerH, g.layerW, c.numPriors) == 48
  {
    DedupExample();
    var c := Setup(ExampleParam());
    assert c.aspectRatios == [1.0, 2.0, 0.5];
    assert Near(1.0, 1.0) && !Near(2.0, 1.0) && !Near(0.5, 1.0);
    assert CoordCount(2, 2, 3) == 48;
  }

  /** In the example the first box of the first cell is the 30 x 30 min box
      centred at (75, 75). */
  lemma ExampleFirstBox(c: Config, sqrt: Sqrt, j: nat)
    requires Ready(c, Geometry(2, 2, 300, 300, 150.0, 150.0), sqrt)
    requires c.minSizes == [30.0] && c.maxSizes == [] && c.offset == 0.5 && c.numPriors == 3
    requires j < 4
    ensures CoordAt(c, Geometry(2, 2, 300, 300, 150.0, 150.0), sqrt, j)
            == Corner(Box(75.0, 75.0, 30.0, 30.0), 300, 300, j)
  {
    var g := Geometry(2, 2, 300, 300, 150.0, 150.0);
    assert BoxAt(c, g, sqrt, 0) == PriorBox(c, g, sqrt, 0, 0, 0, 0);
    assert PriorBox(c, g, sqrt, 0, 0, 0, 0) == Box(75.0, 75.0, 30.0, 30.0) by {
      assert TruncToInt(30.0) == 30;
    }
    CoordsOfBox(c, g, sqrt, 0, j);
  }

  /** The first box of the first cell of the example, centred at (75, 75),
      is (0.2, 0.2, 0.3, 0.3). */
  lemma WorkedExampleFirstBox(sqrt: Sqrt)
    requires sqrt(2.0) != 0.0 && sqrt(0.5) != 0.0
    ensures var c := Setup(ExampleParam());
            var g := ResolveGeometry(c, ExampleInput());
            && Ready(c, g, sqrt)
            && CoordAt(c, g, sqrt, 0) == 0.2 && CoordAt(c, g, sqrt, 1) == 0.2
            && CoordAt(c, g, sqrt, 2) == 0.3 && CoordAt(c, g, sqrt, 3) == 0.3
  {
    WorkedExampleSetup();
    var c := Setup(ExampleParam());
    assert SqrtReady(c, sqrt);
    var box := Box(75.0, 75.0, 30.0, 30.0);
    assert Corner(box, 300, 300, 0) == 0.2 && Corner(box, 300, 300, 1) == 0.2;
    assert Corner(box, 300, 300, 2) == 0.3 && Corner(box, 300, 300, 3) == 0.3;
    ExampleFirstBox(c, sqrt, 0);
    ExampleFirstBox(c, sqrt, 1);
    ExampleFirstBox(c, sqrt, 2);
    ExampleFirstBox(c, sqrt, 3);
  }
}
