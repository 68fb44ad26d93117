/** src/context/console_index.rs: the console layers the game draws on, a
    base layer, the world layers and a UI layer, as lists of console
    indices. */
module ConsoleIndexes {
  import opened Seqs

  const LayerCount: nat := 1

  /** ConsoleIndex: base, LAYER_COUNT world layers, ui. */
  datatype ConsoleIndex = ConsoleIndex(base: nat, layers: seq<nat>, ui: nat)

  /** The layers array has LAYER_COUNT entries. */
  predicate ValidIndex(c: ConsoleIndex) {
    |c.layers| == LayerCount
  }

  /** The indices of the game: CONSOLE_INDEX. */
  const TheConsoleIndex := ConsoleIndex(0, [1], 2)

  /** Every console: base, the layers, ui. */
  function AllIndices(c: ConsoleIndex): seq<nat> {
    [c.base] + c.layers + [c.ui]
  }

  /** The world consoles: the base when asked for, then the layers. */
  function WorldIndices(c: ConsoleIndex, includeBase: bool): seq<nat> {
    (if includeBase then [c.base] else []) + c.layers
  }

  /** All indices number LAYER_COUNT + 2; the world indices with the base
      are all of them but the last, which is ui, and without the base they
      are the layers alone. */
  lemma IndicesShape(c: ConsoleIndex)
    requires ValidIndex(c)
    ensures |AllIndices(c)| == LayerCount + 2
    ensures WorldIndices(c, true) == AllIndices(c)[..|AllIndices(c)| - 1]
    ensures AllIndices(c)[|AllIndices(c)| - 1] == c.ui
    ensures WorldIndices(c, false) == c.layers == WorldIndices(c, true)[1..]
  {
    assert AllIndices(c)[..|AllIndices(c)| - 1] == [c.base] + c.layers;
  }

  /** The game's own indices are [0, 1, 2], none repeated. */
  lemma GameIndices()
    ensures AllIndices(TheConsoleIndex) == [0, 1, 2] && Distinct(AllIndices(TheConsoleIndex))
    ensures WorldIndices(TheConsoleIndex, true) == [0, 1] && WorldIndices(TheConsoleIndex, false) == [1]
  {
  }

  /** The loop that pushes every layer. */
  method PushLayers(start: seq<nat>, layers: seq<nat>) returns (indices: seq<nat>)
    ensures indices == start + layers
  {
    indices := start;
    var i := 0;
    while i < |layers|
      invariant 0 <= i <= |layers|
      invariant indices == start + layers[..i]
    {
      assert layers[..i + 1] == layers[..i] + [layers[i]];
      indices := indices + [layers[i]];
      i := i + 1;
    }
    assert layers[..i] == layers;
  }

  /** ConsoleIndex::get_all_indices. */
  method GetAllIndices(c: ConsoleIndex) returns (indices: seq<nat>)
    ensures indices == AllIndices(c)
  {
    indices := [];
    indices := indices + [c.base];
    indices := PushLayers(indices, c.layers);
    indices := indices + [c.ui];
  }

  /** ConsoleIndex::get_world_indices. */
  method GetWorldIndices(c: ConsoleIndex, includeBase: bool) returns (indices: seq<nat>)
    ensures indices == WorldIndices(c, includeBase)
  {
    indices := [];
    if includeBase {
      indices := indices + [c.base];
    }
    indices := PushLayers(indices, c.layers);
  }
}
