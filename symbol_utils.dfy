/**
 * The ordering/symbol assigner of symbolUtils.js: the canonical traversal
 * order of a cube's subcube grid (centre, then de-duplicated corners, then
 * layer/row/column raster order), the base-26 symbol of a position in that
 * order, and the two linear-search lookups between cells and symbols.
 */
module SymbolUtils {
  import opened Scene

  // ---------------------------------------------------------------------
  // Symbols
  // ---------------------------------------------------------------------

  /** The k-th upper-case letter, `chars[k]` for chars = 'A'..'Z'. */
  function Letter(k: nat): (ch: char)
    requires k < 26
    ensures 'A' <= ch <= 'Z'
  {
    (('A' as int) + k) as char
  }

  predicate IsUpper(s: string)
  {
    forall j :: 0 <= j < |s| ==> 'A' <= s[j] <= 'Z'
  }

  /**
   * Closed form of the symbol of position i: the lowest base-26 digits of i
   * (at most four), most significant first, and a single digit padded on
   * the RIGHT with 'A'.
   */
  function Symbol(i: nat): (s: string)
    ensures 2 <= |s| <= 4 && IsUpper(s)
  {
    if i < 26 then [Letter(i), 'A']
    else if i < 26 * 26 then [Letter(i / 26), Letter(i % 26)]
    else if i < 26 * 26 * 26 then [Letter(i / 26 / 26), Letter(i / 26 % 26), Letter(i % 26)]
    else [Letter(i / 26 / 26 / 26 % 26), Letter(i / 26 / 26 % 26), Letter(i / 26 % 26), Letter(i % 26)]
  }

  /** The do-while loop of `generateSymbol`, proved to compute Symbol. */
  method GenerateSymbol(index: nat) returns (symbol: string)
    ensures symbol == Symbol(index)
  {
    var value := index;
    symbol := [Letter(value % 26)] + [];
    value := value / 26;
    while value > 0 && |symbol| < 4
      invariant 1 <= |symbol| <= 4
      invariant |symbol| == 1 ==> symbol == [Letter(index % 26)] && value == index / 26
      invariant |symbol| == 2 ==> index >= 26 && value == index / 26 / 26
      invariant |symbol| == 2 ==> symbol == [Letter(index / 26 % 26), Letter(index % 26)]
      invariant |symbol| == 3 ==> index >= 26 * 26 && value == index / 26 / 26 / 26
      invariant |symbol| == 3 ==> symbol == [Letter(index / 26 / 26 % 26), Letter(index / 26 % 26), Letter(index % 26)]
      invariant |symbol| == 4 ==> index >= 26 * 26 * 26
      invariant |symbol| == 4 ==> symbol == [Letter(index / 26 / 26 / 26 % 26), Letter(index / 26 / 26 % 26), Letter(index / 26 % 26), Letter(index % 26)]
      decreases 4 - |symbol|
    {
      symbol := [Letter(value % 26)] + symbol;
      value := value / 26;
    }
    if |symbol| < 2 {
      symbol := symbol + ['A'];
    }
  }

  /** Below 26 positions the symbol is injective. */
  lemma SymbolInjectiveBelow26(i: nat, j: nat)
    requires i < 26 && j < 26 && Symbol(i) == Symbol(j)
    ensures i == j
  {
    assert Symbol(i)[0] == Symbol(j)[0];
  }

  /**
   * Because the digits are padded on the right, position 26k has the same
   * symbol as position k for 1 <= k <= 25 ("BA" is both 1 and 26).
   */
  lemma SymbolCollides(k: nat)
    requires 1 <= k <= 25
    ensures Symbol(26 * k) == Symbol(k) && 26 * k != k
  {
    assert 26 * k / 26 == k && 26 * k % 26 == 0;
  }

  /** The base-26 value of a string of capital letters, most significant first. */
  function Decode(s: string): int
    decreases |s|
  {
    if s == [] then 0 else 26 * Decode(s[..|s| - 1]) + ((s[|s| - 1] as int) - ('A' as int))
  }

  /** Appending a letter shifts the value one base-26 digit up. */
  lemma DecodeSnoc(s: string, ch: char)
    ensures Decode(s + [ch]) == 26 * Decode(s) + ((ch as int) - ('A' as int))
  {
    assert (s + [ch])[..|s|] == s;
  }

  /** The value of the letters for digits a, b, c, d (most significant first). */
  lemma DecodeLetters(a: nat, b: nat, c: nat, d: nat)
    requires a < 26 && b < 26 && c < 26 && d < 26
    ensures Decode([Letter(a), Letter(b)]) == 26 * a + b
    ensures Decode([Letter(a), Letter(b), Letter(c)]) == 26 * (26 * a + b) + c
    ensures Decode([Letter(a), Letter(b), Letter(c), Letter(d)]) == 26 * (26 * (26 * a + b) + c) + d
  {
    DecodeSnoc([], Letter(a));
    assert [] + [Letter(a)] == [Letter(a)];
    DecodeSnoc([Letter(a)], Letter(b));
    assert [Letter(a)] + [Letter(b)] == [Letter(a), Letter(b)];
    DecodeSnoc([Letter(a), Letter(b)], Letter(c));
    assert [Letter(a), Letter(b)] + [Letter(c)] == [Letter(a), Letter(b), Letter(c)];
    DecodeSnoc([Letter(a), Letter(b), Letter(c)], Letter(d));
    assert [Letter(a), Letter(b), Letter(c)] + [Letter(d)] == [Letter(a), Letter(b), Letter(c), Letter(d)];
  }

  /** Reading a symbol back gives its position, except that a padded single digit reads as 26 times it. */
  lemma SymbolDecodes(i: nat)
    requires i < 26 * 26 * 26 * 26
    ensures Decode(Symbol(i)) == if i < 26 then 26 * i else i
  {
    var d0, d1, d2, d3 := i % 26, i / 26 % 26, i / 26 / 26 % 26, i / 26 / 26 / 26;
    assert i == 26 * (i / 26) + d0;
    assert i / 26 == 26 * (i / 26 / 26) + d1;
    assert i / 26 / 26 == 26 * d3 + d2;
    if i < 26 {
      DecodeLetters(i, 0, 0, 0);
      assert Letter(0) == 'A';
    } else if i < 26 * 26 {
      DecodeLetters(i / 26, d0, 0, 0);
    } else if i < 26 * 26 * 26 {
      DecodeLetters(i / 26 / 26, d1, d0, 0);
    } else {
      assert d3 < 26 && d3 % 26 == d3;
      DecodeLetters(d3, d2, d1, d0);
    }
  }


  /**
   * The exact collision set below 26^4 positions: two different positions
   * share a symbol iff one of them is k in [1, 25] and the other is 26k.
   */
  lemma SymbolCollisionsExactly(i: nat, j: nat)
    requires i < j < 26 * 26 * 26 * 26
    ensures Symbol(i) == Symbol(j) <==> 1 <= i <= 25 && j == 26 * i
  {
    SymbolDecodes(i);
    SymbolDecodes(j);
    if 1 <= i <= 25 && j == 26 * i {
      SymbolCollides(i);
    }
  }

  // ---------------------------------------------------------------------
  // Canonical traversal order
  // ---------------------------------------------------------------------

  /** The centre cell, `Math.floor(n / 2)` per axis (Euclidean division by 2 is floor division). */
  function Center(dims: Dims): Cell
  {
    Cell(dims.rows / 2, dims.cols / 2, dims.layers / 2)
  }

  /** The eight corner candidates, in the order the source lists them. */
  function Corners(dims: Dims): seq<Cell>
  {
    var r, c, l := dims.rows - 1, dims.cols - 1, dims.layers - 1;
    [Cell(0, 0, 0), Cell(0, 0, l), Cell(0, c, 0), Cell(0, c, l),
     Cell(r, 0, 0), Cell(r, 0, l), Cell(r, c, 0), Cell(r, c, l)]
  }

  /** Cells (row, 0, layer) .. (row, cols - 1, layer) in column order. */
  function RowCells(layer: int, row: int, cols: int): (s: seq<Cell>)
    ensures |s| == if cols <= 0 then 0 else cols
    decreases cols
  {
    if cols <= 0 then [] else RowCells(layer, row, cols - 1) + [Cell(row, cols - 1, layer)]
  }

  /** The first `rows` rows of one layer, each in column order. */
  function RowsOf(dims: Dims, layer: int, rows: int): seq<Cell>
    decreases rows
  {
    if rows <= 0 then [] else RowsOf(dims, layer, rows - 1) + RowCells(layer, rows - 1, dims.cols)
  }

  /** The first `layers` layers in raster order: layer, then row, then column. */
  function LayersOf(dims: Dims, layers: int): seq<Cell>
    decreases layers
  {
    if layers <= 0 then [] else LayersOf(dims, layers - 1) + RowsOf(dims, layers - 1, dims.rows)
  }

  lemma {:induction false} RowCellsMembers(layer: int, row: int, cols: int)
    ensures forall x :: x in RowCells(layer, row, cols) <==> x.layer == layer && x.row == row && 0 <= x.col < cols
    decreases cols
  {
    if cols > 0 {
      RowCellsMembers(layer, row, cols - 1);
    }
  }

  lemma {:induction false} RowsOfMembers(dims: Dims, layer: int, rows: int)
    ensures forall x :: x in RowsOf(dims, layer, rows) <==> x.layer == layer && 0 <= x.row < rows && 0 <= x.col < dims.cols
    decreases rows
  {
    if rows > 0 {
      RowsOfMembers(dims, layer, rows - 1);
      RowCellsMembers(layer, rows - 1, dims.cols);
    }
  }

  /** The raster pass visits exactly the in-range cells of the first `layers` layers. */
  lemma {:induction false} LayersOfMembers(dims: Dims, layers: int)
    ensures forall x :: x in LayersOf(dims, layers) <==> 0 <= x.layer < layers && 0 <= x.row < dims.rows && 0 <= x.col < dims.cols
    decreases layers
  {
    if layers > 0 {
      var before, last := LayersOf(dims, layers - 1), RowsOf(dims, layers - 1, dims.rows);
      assert LayersOf(dims, layers) == before + last;
      LayersOfMembers(dims, layers - 1);
      RowsOfMembers(dims, layers - 1, dims.rows);
      forall x: Cell
        ensures x in before + last <==> 0 <= x.layer < layers && 0 <= x.row < dims.rows && 0 <= x.col < dims.cols
      {
        assert x in before + last <==> x in before || x in last;
      }
    }
  }

  /** A loop bound as a count: the source's `for (i = 0; i < n; i++)` runs `n` times, or not at all. */
  function Times(n: int): nat
  {
    if n <= 0 then 0 else n
  }

  /** Where a cell falls in the raster pass: layer, then row, then column. */
  function RasterPosition(dims: Dims, x: Cell): int
  {
    x.layer * (Times(dims.rows) * Times(dims.cols)) + x.row * Times(dims.cols) + x.col
  }

  /** A row visits its columns in order: entry c is column c. */
  lemma {:induction false} RowCellsOrder(layer: int, row: int, cols: int)
    ensures forall c :: 0 <= c < |RowCells(layer, row, cols)| ==> RowCells(layer, row, cols)[c] == Cell(row, c, layer)
    decreases cols
  {
    if cols > 0 {
      RowCellsOrder(layer, row, cols - 1);
    }
  }

  /** The rows of one layer are visited row by row, each in column order. */
  lemma {:induction false} RowsOfOrder(dims: Dims, layer: int, rows: int)
    ensures |RowsOf(dims, layer, rows)| == Times(rows) * Times(dims.cols)
    ensures forall i :: 0 <= i < |RowsOf(dims, layer, rows)| ==>
      RowsOf(dims, layer, rows)[i].layer == layer && RowsOf(dims, layer, rows)[i].row * Times(dims.cols) + RowsOf(dims, layer, rows)[i].col == i
    decreases rows
  {
    if rows > 0 {
      var w := Times(dims.cols);
      var before: seq<Cell>, last: seq<Cell> := RowsOf(dims, layer, rows - 1), RowCells(layer, rows - 1, dims.cols);
      RowsOfOrder(dims, layer, rows - 1);
      RowCellsOrder(layer, rows - 1, dims.cols);
      assert |before| == (rows - 1) * w;
      assert |before + last| == rows * w by {
        assert (rows - 1) * w + w == rows * w;
      }
      forall i | |before| <= i < |before| + |last|
        ensures (before + last)[i].layer == layer && (before + last)[i].row * w + (before + last)[i].col == i
      {
        assert (before + last)[i] == Cell(rows - 1, i - |before|, layer);
      }
    }
  }

  /**
   * The raster pass of the first `layers` layers: layers × rows × columns
   * entries, entry i being the cell whose raster position is i, so layer by
   * layer, then row by row, then column by column.
   */
  lemma {:induction false} LayersOfOrder(dims: Dims, layers: int)
    ensures |LayersOf(dims, layers)| == Times(layers) * (Times(dims.rows) * Times(dims.cols))
    ensures forall i :: 0 <= i < |LayersOf(dims, layers)| ==> RasterPosition(dims, LayersOf(dims, layers)[i]) == i
    decreases layers
  {
    if layers > 0 {
      var area := Times(dims.rows) * Times(dims.cols);
      var before, last := LayersOf(dims, layers - 1), RowsOf(dims, layers - 1, dims.rows);
      assert LayersOf(dims, layers) == before + last;
      LayersOfOrder(dims, layers - 1);
      RowsOfOrder(dims, layers - 1, dims.rows);
      assert |before| == (layers - 1) * area;
      assert |before + last| == layers * area by {
        assert (layers - 1) * area + area == layers * area;
      }
      forall i | |before| <= i < |before| + |last|
        ensures RasterPosition(dims, (before + last)[i]) == i
      {
        var x := last[i - |before|];
        assert (before + last)[i] == x;
        assert x.layer == layers - 1;
      }
    }
  }

  function Raster(dims: Dims): seq<Cell>
  {
    LayersOf(dims, dims.layers)
  }

  /** Every cell the traversal offers, duplicates included: centre, corners, raster. */
  function Candidates(dims: Dims): seq<Cell>
  {
    [Center(dims)] + Corners(dims) + Raster(dims)
  }

  predicate Distinct(s: seq<Cell>)
  {
    forall i, j :: 0 <= i < j < |s| ==> s[i] != s[j]
  }

  /** One `pushEntry` guarded by the "already listed" test. */
  function Push(acc: seq<Cell>, x: Cell, present: set<Cell>): seq<Cell>
  {
    if x in present && x !in acc then acc + [x] else acc
  }

  /**
   * Offers the candidates one by one, keeping those present in the grid
   * and not listed yet.
   */
  function Process(xs: seq<Cell>, present: set<Cell>): seq<Cell>
    decreases |xs|
  {
    if xs == [] then []
    else Push(Process(xs[..|xs| - 1], present), xs[|xs| - 1], present)
  }

  /** The processed list has no repetition and holds exactly the offered cells that are present. */
  lemma {:induction false} ProcessFacts(xs: seq<Cell>, present: set<Cell>)
    ensures Distinct(Process(xs, present))
    ensures forall x :: x in Process(xs, present) <==> x in xs && x in present
    decreases |xs|
  {
    if xs != [] {
      var init := xs[..|xs| - 1];
      ProcessFacts(init, present);
      assert xs == init + [xs[|xs| - 1]];
    }
  }

  /**
   * The list `orderSubCubes` returns: empty when `subInfo` or `subMatrix`
   * is missing; otherwise the candidates filtered by the cells that hold a
   * group, without repetition.
   */
  function Order(subInfo: Option<Dims>, cells: Option<set<Cell>>): seq<Cell>
  {
    if subInfo.None? || cells.None? then [] else Process(Candidates(subInfo.value), cells.value)
  }

  /** The ordering lists every candidate cell that holds a group exactly once, and nothing else. */
  lemma OrderFacts(subInfo: Option<Dims>, cells: Option<set<Cell>>)
    ensures Distinct(Order(subInfo, cells))
    ensures subInfo.Some? && cells.Some? ==>
      forall x :: x in Order(subInfo, cells) <==> x in Candidates(subInfo.value) && x in cells.value
    ensures subInfo.None? || cells.None? ==> Order(subInfo, cells) == []
  {
    if subInfo.Some? && cells.Some? {
      ProcessFacts(Candidates(subInfo.value), cells.value);
    }
  }

  lemma ProcessSnoc(xs: seq<Cell>, x: Cell, present: set<Cell>)
    ensures Process(xs + [x], present) == Push(Process(xs, present), x, present)
  {
    assert (xs + [x])[..|xs|] == xs;
  }

  /** Steps 1 and 2 of `orderSubCubes`: the centre, then each corner not listed yet. */
  method CenterAndCorners(dims: Dims, present: set<Cell>) returns (result: seq<Cell>)
    ensures result == Process([Center(dims)] + Corners(dims), present)
  {
    result := [];
    var center := Cell(dims.rows / 2, dims.cols / 2, dims.layers / 2);
    if center in present {
      result := result + [center];
    }
    ghost var seen := [center];
    assert result == Process(seen, present) by { ProcessSnoc([], center, present); }
    var corners := Corners(dims);
    var i := 0;
    while i < |corners|
      invariant 0 <= i <= |corners|
      invariant seen == [center] + corners[..i]
      invariant result == Process(seen, present)
    {
      var co := corners[i];
      if co !in result {
        if co in present {
          result := result + [co];
        }
      }
      ProcessSnoc(seen, co, present);
      seen := seen + [co];
      assert corners[..i + 1] == corners[..i] + [co];
      i := i + 1;
    }
    assert corners[..i] == corners;
  }

  /** `orderSubCubes`: the centre and corners, then the raster pass guarded by the `added` set. */
  method OrderSubCubes(subInfo: Option<Dims>, cells: Option<set<Cell>>) returns (result: seq<Cell>)
    ensures result == Order(subInfo, cells)
  {
    if subInfo.None? || cells.None? {
      return [];
    }
    var dims, present := subInfo.value, cells.value;
    result := CenterAndCorners(dims, present);
    ghost var head := [Center(dims)] + Corners(dims);
    var added := Elems(result);
    assert head + [] == head;
    assert Tracks(head, [], present, result, added);
    ghost var raster: seq<Cell> := [];
    var d := 0;
    while d < dims.layers
      invariant 0 <= d && (d <= dims.layers || d == 0)
      invariant raster == LayersOf(dims, d)
      invariant Tracks(head, raster, present, result, added)
    {
      GridVisit(dims, d);
      result, added := RasterLayer(dims, present, d, result, added, head, raster);
      raster := raster + RowsOf(dims, d, dims.rows);
      d := d + 1;
    }
    assert raster == Raster(dims);
  }

  /**
   * The relation the raster pass keeps: `ordered` is what the candidates
   * offered so far (`head`, then `raster`) produce, and `added` holds the
   * cells already listed plus the raster cells already offered.
   */
  ghost predicate Tracks(head: seq<Cell>, raster: seq<Cell>, present: set<Cell>, result: seq<Cell>, added: set<Cell>)
  {
    result == Process(head + raster, present) && added == Elems(result) + Elems(raster)
  }

  /** One layer of the raster pass of getSubCubeSymbol's ordering: every row of layer `d`. */
  method RasterLayer(dims: Dims, present: set<Cell>, d: int, result0: seq<Cell>, added0: set<Cell>,
                     ghost head: seq<Cell>, ghost prefix: seq<Cell>)
    returns (result: seq<Cell>, added: set<Cell>)
    requires forall x :: x in prefix ==> x.layer < d
    requires Tracks(head, prefix, present, result0, added0)
    ensures Tracks(head, prefix + RowsOf(dims, d, dims.rows), present, result, added)
  {
    result, added := result0, added0;
    ghost var raster := prefix;
    assert prefix + RowsOf(dims, d, 0) == prefix;
    var r := 0;
    while r < dims.rows
      invariant 0 <= r && (r <= dims.rows || r == 0)
      invariant raster == prefix + RowsOf(dims, d, r)
      invariant Tracks(head, raster, present, result, added)
    {
      LayerVisit(dims, prefix, raster, d, r);
      result, added := RasterRow(dims, present, d, r, result, added, head, raster);
      raster := raster + RowCells(d, r, dims.cols);
      r := r + 1;
    }
    assert RowsOf(dims, d, r) == RowsOf(dims, d, dims.rows);
  }

  /** One row of the raster pass of getSubCubeSymbol's ordering: every column of row `r` in layer `d`. */
  method RasterRow(dims: Dims, present: set<Cell>, d: int, r: int, result0: seq<Cell>, added0: set<Cell>,
                   ghost head: seq<Cell>, ghost prefix: seq<Cell>)
    returns (result: seq<Cell>, added: set<Cell>)
    requires forall x :: x in prefix ==> x.layer < d || (x.layer == d && x.row < r)
    requires Tracks(head, prefix, present, result0, added0)
    ensures Tracks(head, prefix + RowCells(d, r, dims.cols), present, result, added)
  {
    result, added := result0, added0;
    ghost var raster := prefix;
    assert prefix + RowCells(d, r, 0) == prefix;
    var c := 0;
    while c < dims.cols
      invariant 0 <= c && (c <= dims.cols || c == 0)
      invariant raster == prefix + RowCells(d, r, c)
      invariant Tracks(head, raster, present, result, added)
      decreases dims.cols - c
    {
      var key := Cell(r, c, d);
      RowVisit(prefix, raster, d, r, c);
      VisitKeeps(head, raster, key, present, result, added);
      if key !in added {
        if key in present {
          result := result + [key];
        }
        added := added + {key};
      }
      raster := raster + [key];
      c := c + 1;
    }
    assert RowCells(d, r, c) == RowCells(d, r, dims.cols);
  }

  /** Column `c` of row `r` in layer `d` is offered for the first time, right after the columns before it. */
  lemma RowVisit(prefix: seq<Cell>, raster: seq<Cell>, d: int, r: int, c: int)
    requires forall x :: x in prefix ==> x.layer < d || (x.layer == d && x.row < r)
    requires 0 <= c && raster == prefix + RowCells(d, r, c)
    ensures Cell(r, c, d) !in raster
    ensures raster + [Cell(r, c, d)] == prefix + RowCells(d, r, c + 1)
  {
    RowCellsMembers(d, r, c);
    assert RowCells(d, r, c + 1) == RowCells(d, r, c) + [Cell(r, c, d)];
  }

  /** Row `r` of layer `d` comes right after the rows before it, and none of its cells was offered yet. */
  lemma LayerVisit(dims: Dims, prefix: seq<Cell>, raster: seq<Cell>, d: int, r: int)
    requires forall x :: x in prefix ==> x.layer < d
    requires 0 <= r && raster == prefix + RowsOf(dims, d, r)
    ensures forall x :: x in raster ==> x.layer < d || (x.layer == d && x.row < r)
    ensures raster + RowCells(d, r, dims.cols) == prefix + RowsOf(dims, d, r + 1)
  {
    RowsOfMembers(dims, d, r);
    assert RowsOf(dims, d, r + 1) == RowsOf(dims, d, r) + RowCells(d, r, dims.cols);
  }

  /** Layer `d` comes right after the layers before it, and none of its cells was offered yet. */
  lemma GridVisit(dims: Dims, d: int)
    requires 0 <= d
    ensures forall x :: x in LayersOf(dims, d) ==> x.layer < d
    ensures LayersOf(dims, d) + RowsOf(dims, d, dims.rows) == LayersOf(dims, d + 1)
  {
    LayersOfMembers(dims, d);
  }

  /** Visiting one raster cell not visited before keeps the loop's relation between `ordered`, `added` and the cells offered so far. */
  lemma VisitKeeps(head: seq<Cell>, raster: seq<Cell>, key: Cell, present: set<Cell>, result: seq<Cell>, added: set<Cell>)
    requires key !in raster
    requires Tracks(head, raster, present, result, added)
    ensures Tracks(head, raster + [key], present,
                   if key !in added && key in present then result + [key] else result,
                   if key !in added then added + {key} else added)
  {
    ElemsSnoc(raster, key);
    ElemsSnoc(result, key);
    ProcessSnoc(head + raster, key, present);
    assert head + (raster + [key]) == (head + raster) + [key];
  }

  function Elems(s: seq<Cell>): (e: set<Cell>)
    ensures forall x :: x in e <==> x in s
  {
    set x | x in s
  }

  lemma ElemsSnoc(s: seq<Cell>, x: Cell)
    ensures Elems(s + [x]) == Elems(s) + {x}
  {
  }

  // ---------------------------------------------------------------------
  // Properties of the order
  // ---------------------------------------------------------------------

  /** All in-range cells: the cells of a fully populated subMatrix. */
  function FullGrid(dims: Dims): set<Cell>
  {
    set x: Cell | x in Raster(dims)
  }

  lemma {:induction false} DistinctCard(s: seq<Cell>)
    requires Distinct(s)
    ensures |set x | x in s| == |s|
    decreases |s|
  {
    if s != [] {
      var t := s[..|s| - 1];
      DistinctCard(t);
      assert s == t + [s[|s| - 1]];
      assert (set x | x in s) == (set x | x in t) + {s[|s| - 1]};
    }
  }

  lemma {:induction false} RowCellsDistinct(layer: int, row: int, cols: int)
    ensures Distinct(RowCells(layer, row, cols))
    decreases cols
  {
    if cols > 0 {
      RowCellsDistinct(layer, row, cols - 1);
      RowCellsMembers(layer, row, cols - 1);
      DistinctConcat(RowCells(layer, row, cols - 1), [Cell(row, cols - 1, layer)]);
    }
  }

  lemma DistinctConcat(a: seq<Cell>, b: seq<Cell>)
    requires Distinct(a) && Distinct(b)
    requires forall x :: x in a ==> x !in b
    ensures Distinct(a + b)
  {
    forall i, j | 0 <= i < j < |a + b| ensures (a + b)[i] != (a + b)[j] {
      if j < |a| {
        assert (a + b)[i] == a[i] && (a + b)[j] == a[j];
      } else if i < |a| {
        assert (a + b)[i] == a[i] && (a + b)[j] == b[j - |a|];
        assert a[i] in a;
      } else {
        assert (a + b)[i] == b[i - |a|] && (a + b)[j] == b[j - |a|];
      }
    }
  }

  lemma {:induction false} RowsOfDistinct(dims: Dims, layer: int, rows: int)
    ensures Distinct(RowsOf(dims, layer, rows))
    decreases rows
  {
    if rows > 0 {
      RowsOfDistinct(dims, layer, rows - 1);
      RowCellsDistinct(layer, rows - 1, dims.cols);
      RowsOfMembers(dims, layer, rows - 1);
      RowCellsMembers(layer, rows - 1, dims.cols);
      DistinctConcat(RowsOf(dims, layer, rows - 1), RowCells(layer, rows - 1, dims.cols));
    }
  }

  lemma {:induction false} RowsOfLength(dims: Dims, layer: int, rows: nat)
    requires dims.cols >= 0
    ensures |RowsOf(dims, layer, rows)| == rows * dims.cols
    decreases rows
  {
    if rows > 0 {
      RowsOfLength(dims, layer, rows - 1);
      assert (rows - 1) * dims.cols + dims.cols == rows * dims.cols;
    }
  }

  lemma {:induction false} LayersOfDistinct(dims: Dims, layers: int)
    ensures Distinct(LayersOf(dims, layers))
    decreases layers
  {
    if layers > 0 {
      LayersOfDistinct(dims, layers - 1);
      RowsOfDistinct(dims, layers - 1, dims.rows);
      LayersOfMembers(dims, layers - 1);
      RowsOfMembers(dims, layers - 1, dims.rows);
      DistinctConcat(LayersOf(dims, layers - 1), RowsOf(dims, layers - 1, dims.rows));
    }
  }

  lemma {:induction false} LayersOfLength(dims: Dims, layers: nat)
    requires dims.rows >= 0 && dims.cols >= 0
    ensures |LayersOf(dims, layers)| == layers * (dims.rows * dims.cols)
    decreases layers
  {
    if layers > 0 {
      LayersOfLength(dims, layers - 1);
      RowsOfLength(dims, layers - 1, dims.rows);
      assert (layers - 1) * (dims.rows * dims.cols) + dims.rows * dims.cols == layers * (dims.rows * dims.cols);
    }
  }

  /**
   * On a fully populated grid of positive extents the order lists every
   * in-range cell exactly once: it has no repetition, holds exactly the
   * in-range cells, and its length is rows * cols * layers.
   */
  lemma FullOrderIsPermutation(dims: Dims)
    requires dims.rows >= 1 && dims.cols >= 1 && dims.layers >= 1
    ensures var o := Order(Some(dims), Some(FullGrid(dims)));
      && Distinct(o)
      && (forall x :: x in o <==> InGrid(dims, x))
      && |o| == dims.rows * dims.cols * dims.layers
  {
    var o := Order(Some(dims), Some(FullGrid(dims)));
    OrderFacts(Some(dims), Some(FullGrid(dims)));
    LayersOfDistinct(dims, dims.layers);
    LayersOfMembers(dims, dims.layers);
    LayersOfLength(dims, dims.layers);
    assert dims.layers * (dims.rows * dims.cols) == dims.rows * dims.cols * dims.layers;
    DistinctCard(o);
    DistinctCard(Raster(dims));
    assert (set x | x in o) == (set x | x in Raster(dims));
  }

  /** On a fully populated grid the first entry is the centre cell. */
  lemma FullOrderStartsAtCenter(dims: Dims)
    requires dims.rows >= 1 && dims.cols >= 1 && dims.layers >= 1
    ensures var o := Order(Some(dims), Some(FullGrid(dims)));
      |o| > 0 && o[0] == Center(dims)
  {
    var cands := Candidates(dims);
    LayersOfMembers(dims, dims.layers);
    assert Center(dims) in FullGrid(dims);
    ProcessPrefix(cands, 1, FullGrid(dims));
    assert cands[..1] == [Center(dims)];
    ProcessSnoc([], Center(dims), FullGrid(dims));
  }

  /** The output for a prefix of the candidates is a prefix of the whole output. */
  lemma {:induction false} ProcessPrefix(xs: seq<Cell>, k: nat, present: set<Cell>)
    requires k <= |xs|
    ensures var p := Process(xs[..k], present);
      |p| <= |Process(xs, present)| && p == Process(xs, present)[..|p|]
    decreases |xs| - k
  {
    if k < |xs| {
      ProcessPrefix(xs, k + 1, present);
      ProcessSnoc(xs[..k], xs[k], present);
      assert xs[..k + 1] == xs[..k] + [xs[k]];
    } else {
      assert xs[..k] == xs;
    }
  }

  /** The cells of `s` present in the grid and not in `listed`, in the order of `s`. */
  function Remaining(s: seq<Cell>, present: set<Cell>, listed: seq<Cell>): (r: seq<Cell>)
    ensures forall x :: x in r ==> x in s && x in present && x !in listed
    decreases |s|
  {
    if s == [] then []
    else
      var last := s[|s| - 1];
      Remaining(s[..|s| - 1], present, listed) + (if last in present && last !in listed then [last] else [])
  }

  lemma SnocSplit(h: seq<Cell>, s: seq<Cell>)
    requires s != []
    ensures h + s == (h + s[..|s| - 1]) + [s[|s| - 1]]
  {
    assert s == s[..|s| - 1] + [s[|s| - 1]];
  }

  lemma {:induction false} ProcessThenDistinct(h: seq<Cell>, s: seq<Cell>, present: set<Cell>)
    requires Distinct(s)
    ensures Process(h + s, present) == Process(h, present) + Remaining(s, present, Process(h, present))
    decreases |s|
  {
    if s == [] {
      assert h + s == h;
    } else {
      var t, last := s[..|s| - 1], s[|s| - 1];
      assert Distinct(t);
      ProcessThenDistinct(h, t, present);
      var ph := Process(h, present);
      var rt := Remaining(t, present, ph);
      var tail := if last in present && last !in ph then [last] else [];
      assert last !in rt;
      calc {
        Process(h + s, present);
        { SnocSplit(h, s); }
        Process((h + t) + [last], present);
        { ProcessSnoc(h + t, last, present); }
        Push(ph + rt, last, present);
        ph + rt + tail;
        ph + (rt + tail);
        ph + Remaining(s, present, ph);
      }
    }
  }

  /**
   * The shape of the order: first the centre and corners as listed
   * (present ones, repetitions skipped), then every remaining present
   * cell in layer, row, column order.
   */
  lemma OrderShape(dims: Dims, present: set<Cell>)
    ensures var head := Process([Center(dims)] + Corners(dims), present);
      Order(Some(dims), Some(present)) == head + Remaining(Raster(dims), present, head)
  {
    LayersOfDistinct(dims, dims.layers);
    ProcessThenDistinct([Center(dims)] + Corners(dims), Raster(dims), present);
  }

  // ---------------------------------------------------------------------
  // Lookups between cells and symbols
  // ---------------------------------------------------------------------

  /** The first position of x in s, or |s| when x is not listed. */
  function IndexOf(s: seq<Cell>, x: Cell): (k: nat)
    ensures k <= |s| && (k < |s| <==> x in s)
    ensures k < |s| ==> s[k] == x
    ensures forall j :: 0 <= j < k ==> s[j] != x
    decreases |s|
  {
    if s == [] then 0 else if s[0] == x then 0 else 1 + IndexOf(s[1..], x)
  }

  /** The first position below n whose symbol is `sym`, or n. */
  function SymbolIndex(n: nat, sym: string): (k: nat)
    ensures k <= n
    ensures k < n ==> Symbol(k) == sym
    decreases n
  {
    if n == 0 then 0
    else
      var k := SymbolIndex(n - 1, sym);
      if k < n - 1 then k else if Symbol(n - 1) == sym then n - 1 else n
  }

  /** No position before the one SymbolIndex finds carries the symbol. */
  lemma {:induction false} SymbolIndexFirst(n: nat, sym: string, j: nat)
    requires j < SymbolIndex(n, sym)
    ensures Symbol(j) != sym
    decreases n
  {
    var k := SymbolIndex(n - 1, sym);
    if j < k {
      SymbolIndexFirst(n - 1, sym, j);
    } else {
      assert j == n - 1 && k == n - 1 && SymbolIndex(n, sym) == n;
    }
  }

  /** What `getSubCubeSymbol` answers for a listed order. */
  function CellSymbol(ordered: seq<Cell>, x: Cell): string
  {
    var k := IndexOf(ordered, x);
    if k < |ordered| then Symbol(k) else "AA"
  }

  /** What `getRowColLayerFromSymbol` answers for a listed order. */
  function SymbolCell(ordered: seq<Cell>, sym: string): Cell
  {
    var k := SymbolIndex(|ordered|, sym);
    if k < |ordered| then ordered[k] else Cell(0, 0, 0)
  }

  /** `getSubCubeSymbol`: linear search of the order, 'AA' when the cell is not listed. */
  method GetSubCubeSymbol(subInfo: Option<Dims>, cells: Option<set<Cell>>, target: Cell) returns (symbol: string)
    ensures symbol == CellSymbol(Order(subInfo, cells), target)
  {
    var ordered := OrderSubCubes(subInfo, cells);
    var i := 0;
    while i < |ordered|
      invariant i <= IndexOf(ordered, target)
    {
      if ordered[i] == target {
        assert IndexOf(ordered, target) == i;
        symbol := GenerateSymbol(i);
        return;
      }
      i := i + 1;
    }
    symbol := "AA";
  }

  /** A listed cell gets the symbol of its first position; any other cell gets "AA". */
  lemma CellSymbolMeaning(ordered: seq<Cell>, x: Cell)
    ensures x in ordered ==>
      exists i :: 0 <= i < |ordered| && ordered[i] == x && CellSymbol(ordered, x) == Symbol(i)
        && forall j :: 0 <= j < i ==> ordered[j] != x
    ensures x !in ordered ==> CellSymbol(ordered, x) == "AA"
  {
    var k := IndexOf(ordered, x);
    if k < |ordered| {
      assert ordered[k] == x && CellSymbol(ordered, x) == Symbol(k);
    }
  }

  /** `getRowColLayerFromSymbol`: the first listed cell whose position has this symbol, else (0, 0, 0). */
  method GetRowColLayerFromSymbol(subInfo: Option<Dims>, cells: Option<set<Cell>>, symbol: string) returns (cell: Cell)
    ensures cell == SymbolCell(Order(subInfo, cells), symbol)
  {
    var ordered := OrderSubCubes(subInfo, cells);
    var i := 0;
    while i < |ordered|
      invariant i <= SymbolIndex(|ordered|, symbol)
    {
      var s := GenerateSymbol(i);
      if s == symbol {
        if i < SymbolIndex(|ordered|, symbol) {
          SymbolIndexFirst(|ordered|, symbol, i);
        }
        return ordered[i];
      }
      i := i + 1;
    }
    cell := Cell(0, 0, 0);
  }

  /**
   * A symbol some listed position carries resolves to the cell at the first
   * such position; a symbol no listed position carries resolves to (0, 0, 0).
   */
  lemma SymbolCellMeaning(ordered: seq<Cell>, sym: string)
    ensures (exists i :: 0 <= i < |ordered| && Symbol(i) == sym) ==>
      exists i :: 0 <= i < |ordered| && Symbol(i) == sym && SymbolCell(ordered, sym) == ordered[i]
        && forall j :: 0 <= j < i ==> Symbol(j) != sym
    ensures (forall i :: 0 <= i < |ordered| ==> Symbol(i) != sym) ==> SymbolCell(ordered, sym) == Cell(0, 0, 0)
  {
    var k := SymbolIndex(|ordered|, sym);
    if i :| 0 <= i < |ordered| && Symbol(i) == sym {
      if k > i {
        SymbolIndexFirst(|ordered|, sym, i);
      }
      forall j | 0 <= j < k
        ensures Symbol(j) != sym
      {
        SymbolIndexFirst(|ordered|, sym, j);
      }
    }
  }

  /** With at most 26 listed cells, cell -> symbol -> cell is the identity. */
  lemma CellSymbolRoundTrip(ordered: seq<Cell>, x: Cell)
    requires Distinct(ordered) && |ordered| <= 26 && x in ordered
    ensures SymbolCell(ordered, CellSymbol(ordered, x)) == x
  {
    var k := IndexOf(ordered, x);
    var j := SymbolIndex(|ordered|, Symbol(k));
    if k < j {
      SymbolIndexFirst(|ordered|, Symbol(k), k);
    }
    if j < k {
      SymbolInjectiveBelow26(j, k);
    }
  }

  /** With at most 26 listed cells, symbol -> cell -> symbol is the identity on the symbols in use. */
  lemma SymbolCellRoundTrip(ordered: seq<Cell>, k: nat)
    requires Distinct(ordered) && |ordered| <= 26 && k < |ordered|
    ensures CellSymbol(ordered, SymbolCell(ordered, Symbol(k))) == Symbol(k)
  {
    var j := SymbolIndex(|ordered|, Symbol(k));
    if k < j {
      SymbolIndexFirst(|ordered|, Symbol(k), k);
    }
    if j < k {
      SymbolInjectiveBelow26(j, k);
    }
    assert IndexOf(ordered, ordered[k]) == k;
  }

  /**
   * From 27 listed cells on the lookups are not inverse: the 27th cell
   * gets symbol "BA", which resolves back to the second cell.
   */
  lemma RoundTripFailsFrom27(ordered: seq<Cell>)
    requires Distinct(ordered) && |ordered| >= 27
    ensures SymbolCell(ordered, CellSymbol(ordered, ordered[26])) == ordered[1] != ordered[26]
  {
    assert IndexOf(ordered, ordered[26]) == 26;
    SymbolCollides(1);
    assert Symbol(0) != Symbol(1);
    if 1 < SymbolIndex(|ordered|, Symbol(26)) {
      SymbolIndexFirst(|ordered|, Symbol(26), 1);
    }
  }

  /** For a grid whose order has at most 26 entries the two lookups are mutual inverses. */
  lemma LookupsInverse(subInfo: Option<Dims>, cells: Option<set<Cell>>, x: Cell, k: nat)
    requires |Order(subInfo, cells)| <= 26
    ensures x in Order(subInfo, cells) ==>
      SymbolCell(Order(subInfo, cells), CellSymbol(Order(subInfo, cells), x)) == x
    ensures k < |Order(subInfo, cells)| ==>
      CellSymbol(Order(subInfo, cells), SymbolCell(Order(subInfo, cells), Symbol(k))) == Symbol(k)
  {
    var o := Order(subInfo, cells);
    OrderFacts(subInfo, cells);
    if x in o { CellSymbolRoundTrip(o, x); }
    if k < |o| { SymbolCellRoundTrip(o, k); }
  }
}
