/**
 * The grid helpers of main.js: centred coordinates and grid indices, the
 * linear buffer index of a cell, the corner/soft tag persistSubCube gives
 * each vertex, 8-bit colour conversion, and the loops of
 * blendAllSubCubeColors and createSubCubeGrid over one cube's grid.
 */
module MainGrid {
  import opened Scene
  import SubcubeBlending
  import SubpixelMatrix

  // ---------------------------------------------------------------------
  // Centred coordinates
  // ---------------------------------------------------------------------

  /** `(count - 1) / 2`: the coordinate offset of index 0. */
  function Half(count: int): real
  {
    (count - 1) as real / 2.0
  }

  /** `Math.round`: the nearest integer, halves rounded up. */
  function Round(x: real): int
  {
    (x + 0.5).Floor
  }

  /** `indexToCoord`: the centred coordinate of a grid index. */
  function IndexToCoord(index: int, count: int): real
  {
    index as real - Half(count)
  }

  /** `coordToIndex`: the grid index nearest a centred coordinate, clamped to the grid. */
  function CoordToIndex(coord: real, count: int): (idx: int)
    ensures count >= 1 ==> 0 <= idx < count
  {
    var rounded := Round(coord + Half(count));
    var low := if rounded < 0 then 0 else rounded;
    if low > count - 1 then count - 1 else low
  }

  /** Converting an index to its coordinate and back gives the index. */
  lemma CoordRoundTrip(i: int, count: int)
    requires 0 <= i < count
    ensures CoordToIndex(IndexToCoord(i, count), count) == i
  {
    assert IndexToCoord(i, count) + Half(count) == i as real;
  }

  /**
   * Inside the grid's coordinate range the index found is the nearest one:
   * its coordinate lies within half a cell of the given coordinate; outside
   * the range the first or last index is found.
   */
  lemma CoordToIndexNearest(coord: real, count: int)
    requires count >= 1
    ensures var idx := CoordToIndex(coord, count);
      (IndexToCoord(0, count) - 0.5 <= coord < IndexToCoord(count - 1, count) + 0.5 ==>
         IndexToCoord(idx, count) - 0.5 <= coord < IndexToCoord(idx, count) + 0.5)
      && (coord < IndexToCoord(0, count) - 0.5 ==> idx == 0)
      && (coord >= IndexToCoord(count - 1, count) + 0.5 ==> idx == count - 1)
  {
    var x := coord + Half(count);
    assert (x + 0.5).Floor as real <= x + 0.5 < (x + 0.5).Floor as real + 1.0;
  }

  // ---------------------------------------------------------------------
  // Linear buffer index
  // ---------------------------------------------------------------------

  /** `d * rows * cols + r * cols + c`: a cell's position in the colour and weight buffers. */
  function LinearIndex(dims: Dims, c: Cell): int
  {
    c.layer * dims.rows * dims.cols + c.row * dims.cols + c.col
  }

  /** The number of cells of a grid. */
  function Size(dims: Dims): int
  {
    dims.layers * dims.rows * dims.cols
  }

  /** The cell at a linear index. */
  function CellAt(dims: Dims, i: nat): Cell
    requires dims.rows >= 1 && dims.cols >= 1
  {
    Cell((i / dims.cols) % dims.rows, i % dims.cols, i / (dims.rows * dims.cols))
  }

  /** A positive multiple of m is at least m. */
  lemma MulMono(a: int, m: int)
    requires m >= 1 && a >= 1
    ensures a * m >= m
  {
    assert a * m == (a - 1) * m + m;
  }
  /** Division with remainder determines quotient and remainder. */
  lemma DivMod(n: int, q: int, r: int, m: int)
    requires m >= 1 && 0 <= r < m && n == q * m + r
    ensures n / m == q && n % m == r
  {
    var q', r' := n / m, n % m;
    assert n == q' * m + r';
    assert (q - q') * m == r' - r;
    if q - q' >= 1 { MulMono(q - q', m); assert false; }
    if q' - q >= 1 { MulMono(q' - q, m); assert false; }
  }
  /** q * m + r with 0 <= r < m and 0 <= q < k lies in [0, k * m). */
  lemma Below(q: int, r: int, m: int, k: int)
    requires m >= 1 && 0 <= r < m && 0 <= q < k
    ensures 0 <= q * m + r < k * m
  {
    assert k * m == (k - q - 1) * m + q * m + m;
    if k - q - 1 >= 1 { MulMono(k - q - 1, m); }
  }
  /** The linear index of an in-grid cell lies in [0, size) and leads back to the cell. */
  lemma LinearIndexInverse(dims: Dims, c: Cell)
    requires InGrid(dims, c)
    ensures 0 <= LinearIndex(dims, c) < Size(dims)
    ensures CellAt(dims, LinearIndex(dims, c)) == c
  {
    var R, C := dims.rows, dims.cols;
    var i := LinearIndex(dims, c);
    var q := c.layer * R + c.row;
    assert i == q * C + c.col;
    assert i == c.layer * (R * C) + (c.row * C + c.col);
    Below(c.row, c.col, C, R);
    Below(c.layer, c.row * C + c.col, R * C, dims.layers);
    assert Size(dims) == dims.layers * (R * C);
    DivMod(i, q, c.col, C);
    DivMod(q, c.layer, c.row, R);
    DivMod(i, c.layer, c.row * C + c.col, R * C);
  }
  /** Every linear index in [0, size) is the index of an in-grid cell. */
  lemma CellAtInverse(dims: Dims, i: nat)
    requires dims.rows >= 1 && dims.cols >= 1 && i < Size(dims)
    ensures InGrid(dims, CellAt(dims, i)) && LinearIndex(dims, CellAt(dims, i)) == i
  {
    var R, C := dims.rows, dims.cols;
    var c := CellAt(dims, i);
    var q := i / C;
    var l := q / R;
    assert i == q * C + c.col;
    assert q == l * R + c.row;
    assert i == l * (R * C) + (c.row * C + c.col);
    Below(c.row, c.col, C, R);
    DivMod(i, l, c.row * C + c.col, R * C);
    assert c.layer == l;
    assert LinearIndex(dims, c) == i;
    assert Size(dims) == dims.layers * (R * C);
    if l >= dims.layers {
      MulMono(1 + l - dims.layers, R * C);
      assert false;
    }
  }

  // ---------------------------------------------------------------------
  // Vertex blend tags (persistSubCube)
  // ---------------------------------------------------------------------

  /** The sign of vertex i's offset from its subcube's centre along each axis (x = col, y = row, z = layer). */
  const Signs: seq<(int, int, int)> :=
    [(-1, -1, -1), (1, -1, -1), (1, 1, -1), (-1, 1, -1),
     (-1, -1, 1), (1, -1, 1), (1, 1, 1), (-1, 1, 1)]

  const Corner := "blendCorner"
  const Soft := "blendsoft"

  /** The vertex points at the grid boundary along one axis: first cell and negative sign, or last cell and positive sign. */
  predicate AtBoundary(pos: int, count: int, sign: int)
  {
    (pos == 0 && sign < 0) || (pos == count - 1 && sign > 0)
  }

  /** `matchAxes`: on how many axes vertex i of the cell points at the grid boundary. */
  function MatchAxes(dims: Dims, c: Cell, i: nat): nat
    requires i < 8
  {
    (if AtBoundary(c.col, dims.cols, Signs[i].0) then 1 else 0)
    + (if AtBoundary(c.row, dims.rows, Signs[i].1) then 1 else 0)
    + (if AtBoundary(c.layer, dims.layers, Signs[i].2) then 1 else 0)
  }

  /** The blend tag persistSubCube stores for vertex i of a cell. */
  function Tag(dims: Dims, c: Cell, i: nat): string
    requires i < 8
  {
    if MatchAxes(dims, c, i) >= 2 then Corner else Soft
  }

  /**
   * The per-vertex loop of persistSubCube, keeping only its blend tags:
   * count the axes on which the vertex points at the boundary, then tag it.
   */
  method VertexTags(dims: Dims, c: Cell) returns (tags: seq<string>)
    ensures |tags| == 8
    ensures forall i :: 0 <= i < 8 ==> tags[i] == Tag(dims, c, i)
  {
    var left, right := c.col == 0, c.col == dims.cols - 1;
    var bottom, top := c.row == 0, c.row == dims.rows - 1;
    var back, front := c.layer == 0, c.layer == dims.layers - 1;
    tags := [];
    for i := 0 to 8
      invariant |tags| == i
      invariant forall j :: 0 <= j < i ==> tags[j] == Tag(dims, c, j)
    {
      var s := Signs[i];
      var matchAxes := 0;
      if (left && s.0 < 0) || (right && s.0 > 0) { matchAxes := matchAxes + 1; }
      if (bottom && s.1 < 0) || (top && s.1 > 0) { matchAxes := matchAxes + 1; }
      if (back && s.2 < 0) || (front && s.2 > 0) { matchAxes := matchAxes + 1; }
      var blend := if matchAxes >= 2 then Corner else Soft;
      tags := tags + [blend];
    }
  }

  /**
   * Vertex i of a cell sits at lattice point `2 * pos + 1 + sign` along each
   * axis, in half-subcube units from the grid's outer face at 0; the
   * opposite outer face is at `2 * count`.
   */
  function Lattice(pos: int, sign: int): int
  {
    2 * pos + 1 + sign
  }

  predicate OnOuterFace(x: int, count: int)
  {
    x == 0 || x == 2 * count
  }

  /** The number of outer faces of the whole grid that vertex i of the cell lies on. */
  function OuterFaces(dims: Dims, c: Cell, i: nat): nat
    requires i < 8
  {
    (if OnOuterFace(Lattice(c.col, Signs[i].0), dims.cols) then 1 else 0)
    + (if OnOuterFace(Lattice(c.row, Signs[i].1), dims.rows) then 1 else 0)
    + (if OnOuterFace(Lattice(c.layer, Signs[i].2), dims.layers) then 1 else 0)
  }

  /** Along one axis, pointing at the boundary is lying on an outer face. */
  lemma AtBoundaryIsOuterFace(pos: int, count: int, sign: int)
    requires 0 <= pos < count && (sign == 1 || sign == -1)
    ensures AtBoundary(pos, count, sign) <==> OnOuterFace(Lattice(pos, sign), count)
  {
  }

  /**
   * Geometrically: a vertex of an in-grid cell is tagged 'blendCorner'
   * exactly when it lies on at least two outer faces of the whole grid,
   * i.e. on an edge or corner of the big cube.
   */
  lemma TagIsGeometric(dims: Dims, c: Cell, i: nat)
    requires InGrid(dims, c) && i < 8
    ensures Tag(dims, c, i) == Corner <==> OuterFaces(dims, c, i) >= 2
  {
    AtBoundaryIsOuterFace(c.col, dims.cols, Signs[i].0);
    AtBoundaryIsOuterFace(c.row, dims.rows, Signs[i].1);
    AtBoundaryIsOuterFace(c.layer, dims.layers, Signs[i].2);
  }

  /** In a 1x1x1 grid every vertex of the one cell is tagged 'blendCorner'. */
  lemma SingleCellAllCorners(i: nat)
    requires i < 8
    ensures Tag(Dims(1, 1, 1), Cell(0, 0, 0), i) == Corner
  {
  }

  /** A cell touching no boundary of the grid has only 'blendsoft' vertices. */
  lemma InteriorAllSoft(dims: Dims, c: Cell, i: nat)
    requires 0 < c.row < dims.rows - 1 && 0 < c.col < dims.cols - 1 && 0 < c.layer < dims.layers - 1
    requires i < 8
    ensures Tag(dims, c, i) == Soft
  {
  }

  // ---------------------------------------------------------------------
  // 8-bit colours
  // ---------------------------------------------------------------------

  /** `Math.round(channel * 255)`. */
  function ToByte(x: real): int
  {
    Round(x * 255.0)
  }

  /** `channel / 255`, as the load path writes a stored channel back. */
  function FromByte(k: int): real
  {
    k as real / 255.0
  }

  /** A stored integer channel survives loading and persisting again. */
  lemma ByteRoundTrip(k: int)
    ensures ToByte(FromByte(k)) == k
  {
    assert FromByte(k) * 255.0 == k as real;
  }

  /** A channel in [0, 1] becomes a byte in [0, 255] within half a step of it. */
  lemma ToByteBounds(x: real)
    requires 0.0 <= x <= 1.0
    ensures 0 <= ToByte(x) <= 255
    ensures x * 255.0 - 0.5 < ToByte(x) as real <= x * 255.0 + 0.5
  {
  }

  /** The colour persistSubCube stores for a cell's vertices: its buffer triple in bytes, red if the buffer is too short. */
  function PersistedColor(colors: seq<real>, idx: nat): (rgb: seq<int>)
    ensures |rgb| == 3
  {
    if |colors| > idx * 3 + 2 then [ToByte(colors[idx * 3]), ToByte(colors[idx * 3 + 1]), ToByte(colors[idx * 3 + 2])]
    else [255, 0, 0]
  }

  /** Loading a persisted colour gives the buffer colour to within half an 8-bit step, or pure red for the fallback. */
  lemma PersistedColorLoads(colors: seq<real>, idx: nat)
    requires forall k :: 0 <= k < |colors| ==> 0.0 <= colors[k] <= 1.0
    ensures var rgb := PersistedColor(colors, idx);
      if |colors| > idx * 3 + 2 then
        forall j :: 0 <= j < 3 ==> -0.5 / 255.0 < FromByte(rgb[j]) - colors[idx * 3 + j] <= 0.5 / 255.0
      else
        FromByte(rgb[0]) == 1.0 && FromByte(rgb[1]) == 0.0 && FromByte(rgb[2]) == 0.0
  {
    if |colors| > idx * 3 + 2 {
      forall j | 0 <= j < 3
        ensures -0.5 / 255.0 < FromByte(PersistedColor(colors, idx)[j]) - colors[idx * 3 + j] <= 0.5 / 255.0
      {
        ToByteBounds(colors[idx * 3 + j]);
      }
    }
  }

  // ---------------------------------------------------------------------
  // Blending every cell into the colour buffer (blendAllSubCubeColors)
  // ---------------------------------------------------------------------

  /** `weights[idx] || 1`: a missing or zero weight counts as 1. */
  function WeightAt(weights: seq<real>, idx: nat): (w: real)
    ensures w != 0.0
  {
    if idx < |weights| && weights[idx] != 0.0 then weights[idx] else 1.0
  }

  /** The vertices blendAllSubCubeColors hands to the blender: one per colour triple, all weighted w. */
  function CellVertices(buf: seq<real>, w: real): (vs: seq<SubcubeBlending.Vertex>)
    ensures |vs| == |buf| / 3
    ensures forall vi :: 0 <= vi < |vs| ==> vs[vi].weight == Some(w)
  {
    seq(|buf| / 3, vi requires 0 <= vi < |buf| / 3 =>
      SubcubeBlending.Vertex(Rgb(buf[3 * vi], buf[3 * vi + 1], buf[3 * vi + 2]), Some(w)))
  }

  /** The colour a cell is given: the 'weighted' blend of its vertex colours. */
  function CellColor(buf: seq<real>, w: real): Rgb
  {
    SubcubeBlending.Blend(Some(CellVertices(buf, w)), SubcubeBlending.Weighted)
  }

  /**
   * Since every vertex of a cell carries the same weight, the weight only
   * matters through its sign: a positive weight gives the clamped mean of
   * the vertex colours (the 'average' blend), a negative one black, and a
   * cell without vertices is black.
   */
  lemma CellColorIsMean(buf: seq<real>, w: real)
    requires w != 0.0
    ensures |buf| < 3 ==> CellColor(buf, w) == Rgb(0.0, 0.0, 0.0)
    ensures |buf| >= 3 && w > 0.0 ==>
      CellColor(buf, w) == SubcubeBlending.Blend(Some(CellVertices(buf, w)), SubcubeBlending.Average)
    ensures |buf| >= 3 && w < 0.0 ==> CellColor(buf, w) == Rgb(0.0, 0.0, 0.0)
  {
    var vs := CellVertices(buf, w);
    if |buf| < 3 {
      SubcubeBlending.EmptyIsBlack(Some(vs), SubcubeBlending.Weighted);
    } else if w > 0.0 {
      SubcubeBlending.UniformWeightIsAverage(vs, w);
    } else {
      SubcubeBlending.UniformSums(vs, SubcubeBlending.Weighted, w);
      SubcubeBlending.TimesIsProduct(w, |vs|);
      assert w * (|vs| as real) < 0.0;
      SubcubeBlending.NonPositiveWeightIsBlack(vs);
    }
  }

  /** Whether the loop writes the triple of linear index i: an in-grid cell with a colour attribute whose triple fits the buffer. */
  predicate Written(dims: Dims, cells: map<Cell, seq<real>>, len: nat, i: nat)
  {
    dims.rows >= 1 && dims.cols >= 1 && i < Size(dims) && CellAt(dims, i) in cells && 3 * i + 2 < len
  }

  /** Channel k (0, 1 or 2) of the colour of the cell at linear index i. */
  function BlendedChannel(dims: Dims, cells: map<Cell, seq<real>>, weights: seq<real>, len: nat, i: nat, k: nat): real
    requires Written(dims, cells, len, i)
  {
    SubpixelMatrix.Channel(CellColor(cells[CellAt(dims, i)], WeightAt(weights, i)), k)
  }

  /** The colour buffer after the loop: every written triple blended, everything else as before. */
  function Blended(dims: Dims, cells: map<Cell, seq<real>>, weights: seq<real>, colors: seq<real>): (out: seq<real>)
    ensures |out| == |colors|
  {
    seq(|colors|, k requires 0 <= k < |colors| =>
      if Written(dims, cells, |colors|, k / 3) then BlendedChannel(dims, cells, weights, |colors|, k / 3, k % 3) else colors[k])
  }

  /** The colour buffer once the loop has visited the first n linear indices. */
  ghost function BlendedUpTo(dims: Dims, cells: map<Cell, seq<real>>, weights: seq<real>, colors: seq<real>, n: int): (out: seq<real>)
    ensures |out| == |colors|
  {
    seq(|colors|, k requires 0 <= k < |colors| =>
      if k / 3 < n && Written(dims, cells, |colors|, k / 3) then BlendedChannel(dims, cells, weights, |colors|, k / 3, k % 3) else colors[k])
  }

  /**
   * What blendAllSubCubeColors does to one cube's colour buffer: for each
   * in-grid cell with a colour attribute whose triple fits the buffer, the
   * triple becomes the cell's blended colour; every other entry keeps its
   * value.
   */
  lemma BlendedCells(dims: Dims, cells: map<Cell, seq<real>>, weights: seq<real>, colors: seq<real>, cell: Cell)
    requires InGrid(dims, cell)
    ensures var i, out := LinearIndex(dims, cell), Blended(dims, cells, weights, colors);
      (cell in cells && 3 * i + 2 < |colors| ==>
         Rgb(out[3 * i], out[3 * i + 1], out[3 * i + 2]) == CellColor(cells[cell], WeightAt(weights, i)))
      && (cell !in cells ==> forall k :: 3 * i <= k < 3 * i + 3 && k < |colors| ==> out[k] == colors[k])
  {
    var i := LinearIndex(dims, cell);
    LinearIndexInverse(dims, cell);
    var out := Blended(dims, cells, weights, colors);
    if cell in cells && 3 * i + 2 < |colors| {
      assert (3 * i) / 3 == i && (3 * i + 1) / 3 == i && (3 * i + 2) / 3 == i;
      assert (3 * i) % 3 == 0 && (3 * i + 1) % 3 == 1 && (3 * i + 2) % 3 == 2;
    }
    forall k | 3 * i <= k < 3 * i + 3 && k < |colors| && cell !in cells
      ensures out[k] == colors[k]
    {
      assert k / 3 == i;
    }
  }

  /** Entries past the grid's cells are never written. */
  lemma BlendedOutsideGrid(dims: Dims, cells: map<Cell, seq<real>>, weights: seq<real>, colors: seq<real>, k: nat)
    requires k < |colors| && k >= 3 * Size(dims)
    ensures Blended(dims, cells, weights, colors)[k] == colors[k]
  {
  }

  /** Every blended channel lies in [0, 1]. */
  lemma BlendedInUnit(dims: Dims, cells: map<Cell, seq<real>>, weights: seq<real>, colors: seq<real>, k: nat)
    requires k < |colors| && Written(dims, cells, |colors|, k / 3)
    ensures 0.0 <= Blended(dims, cells, weights, colors)[k] <= 1.0
  {
    var i := k / 3;
    var c := CellColor(cells[CellAt(dims, i)], WeightAt(weights, i));
    SubcubeBlending.BlendInUnit(Some(CellVertices(cells[CellAt(dims, i)], WeightAt(weights, i))), SubcubeBlending.Weighted);
    assert SubcubeBlending.InUnit(c);
  }

  /** The colour triples of every attribute, as the loop reads them. */
  ghost function Snapshot(attrs: map<Cell, VertexAttr>): map<Cell, seq<real>>
    reads set cell | cell in attrs :: attrs[cell].buffer
  {
    map cell | cell in attrs :: attrs[cell].buffer[..]
  }

  /** The inner loop of one cell: one vertex per colour triple, all with weight w. */
  method ReadVertices(attr: VertexAttr, w: real) returns (verts: seq<SubcubeBlending.Vertex>)
    ensures verts == CellVertices(attr.buffer[..], w)
  {
    verts := [];
    for vi := 0 to attr.Count()
      invariant verts == CellVertices(attr.buffer[..], w)[..vi]
    {
      var b := attr.buffer;
      verts := verts + [SubcubeBlending.Vertex(Rgb(b[vi * 3], b[vi * 3 + 1], b[vi * 3 + 2]), Some(w))];
    }
  }

  /** The attributes and the weights are not the colour buffer being written. */
  predicate ApartFrom(attrs: map<Cell, VertexAttr>, colors: array<real>)
  {
    forall cell :: cell in attrs ==> attrs[cell].buffer != colors
  }

  /** The last row of layer d ends where layer d + 1 begins. */
  lemma LayerEnd(d: int, rows: int, cols: int)
    ensures d * rows * cols + rows * cols == (d + 1) * rows * cols
  {
  }

  /** Blend one cube's grid into its colour buffer. */
  method BlendGrid(dims: Dims, attrs: map<Cell, VertexAttr>, weights: seq<real>, colors: array<real>)
    requires ApartFrom(attrs, colors)
    modifies colors
    ensures colors[..] == Blended(dims, Snapshot(attrs), weights, old(colors[..]))
  {
    ghost var orig := colors[..];
    ghost var cells := Snapshot(attrs);
    if dims.rows < 1 || dims.cols < 1 {
      // the row or column loop has no iteration
      assert colors[..] == Blended(dims, cells, weights, orig);
      return;
    }
    var d := 0;
    while d < dims.layers
      invariant 0 <= d && (dims.layers >= 0 ==> d <= dims.layers)
      invariant Snapshot(attrs) == cells
      invariant colors[..] == BlendedUpTo(dims, cells, weights, orig, d * dims.rows * dims.cols)
    {
      BlendLayer(dims, attrs, weights, colors, cells, orig, d);
      d := d + 1;
    }
    assert d * dims.rows * dims.cols >= Size(dims);
    assert colors[..] == Blended(dims, cells, weights, orig);
  }

  method BlendLayer(dims: Dims, attrs: map<Cell, VertexAttr>, weights: seq<real>, colors: array<real>,
                    ghost cells: map<Cell, seq<real>>, ghost orig: seq<real>, d: int)
    requires ApartFrom(attrs, colors) && dims.rows >= 1 && dims.cols >= 1 && 0 <= d < dims.layers
    requires Snapshot(attrs) == cells
    requires colors[..] == BlendedUpTo(dims, cells, weights, orig, d * dims.rows * dims.cols)
    modifies colors
    ensures Snapshot(attrs) == cells
    ensures colors[..] == BlendedUpTo(dims, cells, weights, orig, (d + 1) * dims.rows * dims.cols)
  {
    for r := 0 to dims.rows
      invariant Snapshot(attrs) == cells
      invariant colors[..] == BlendedUpTo(dims, cells, weights, orig, d * dims.rows * dims.cols + r * dims.cols)
    {
      BlendRow(dims, attrs, weights, colors, cells, orig, d, r);
    }
    assert d * dims.rows * dims.cols + dims.rows * dims.cols == (d + 1) * dims.rows * dims.cols;
  }

  method BlendRow(dims: Dims, attrs: map<Cell, VertexAttr>, weights: seq<real>, colors: array<real>,
                  ghost cells: map<Cell, seq<real>>, ghost orig: seq<real>, d: int, r: int)
    requires ApartFrom(attrs, colors) && 0 <= d < dims.layers && 0 <= r < dims.rows && dims.cols >= 1
    requires Snapshot(attrs) == cells
    requires colors[..] == BlendedUpTo(dims, cells, weights, orig, d * dims.rows * dims.cols + r * dims.cols)
    modifies colors
    ensures Snapshot(attrs) == cells
    ensures colors[..] == BlendedUpTo(dims, cells, weights, orig, d * dims.rows * dims.cols + (r + 1) * dims.cols)
  {
    for c := 0 to dims.cols
      invariant Snapshot(attrs) == cells
      invariant colors[..] == BlendedUpTo(dims, cells, weights, orig, d * dims.rows * dims.cols + r * dims.cols + c)
    {
      BlendCell(dims, attrs, weights, colors, cells, orig, Cell(r, c, d));
    }
  }

  /** The body of the innermost loop: blend one cell and write its triple if it fits. */
  method BlendCell(dims: Dims, attrs: map<Cell, VertexAttr>, weights: seq<real>, colors: array<real>,
                   ghost cells: map<Cell, seq<real>>, ghost orig: seq<real>, cell: Cell)
    requires ApartFrom(attrs, colors) && InGrid(dims, cell)
    requires Snapshot(attrs) == cells
    requires colors[..] == BlendedUpTo(dims, cells, weights, orig, LinearIndex(dims, cell))
    modifies colors
    ensures Snapshot(attrs) == cells
    ensures colors[..] == BlendedUpTo(dims, cells, weights, orig, LinearIndex(dims, cell) + 1)
  {
    var idx := LinearIndex(dims, cell);
    LinearIndexInverse(dims, cell);
    assert (cell in cells && 3 * idx + 2 < colors.Length) == Written(dims, cells, |orig|, idx);
    if cell in attrs {
      assert cells[cell] == attrs[cell].buffer[..];
      var col := BlendAttr(attrs[cell], WeightAt(weights, idx));
      if colors.Length > idx * 3 + 2 {
        BlendedStepWrite(dims, cells, weights, orig, idx);
        WriteTriple(colors, idx, col);
        return;
      }
    }
    BlendedStepSkip(dims, cells, weights, orig, idx);
  }

  /** Read a cell's vertices and blend them, every vertex weighted w. */
  method BlendAttr(attr: VertexAttr, w: real) returns (col: Rgb)
    ensures col == CellColor(attr.buffer[..], w)
  {
    var verts := ReadVertices(attr, w);
    col := SubcubeBlending.BlendVertices(Some(verts), SubcubeBlending.Weighted);
  }

  /** Write a colour into the triple of linear index i. */
  method WriteTriple(colors: array<real>, i: nat, col: Rgb)
    requires 3 * i + 2 < colors.Length
    modifies colors
    ensures colors[..] == old(colors[..])[3 * i := col.r][3 * i + 1 := col.g][3 * i + 2 := col.b]
  {
    colors[i * 3] := col.r;
    colors[i * 3 + 1] := col.g;
    colors[i * 3 + 2] := col.b;
  }

  /** Visiting an index that is not written changes nothing. */
  lemma BlendedStepSkip(dims: Dims, cells: map<Cell, seq<real>>, weights: seq<real>, orig: seq<real>, i: nat)
    requires !Written(dims, cells, |orig|, i)
    ensures BlendedUpTo(dims, cells, weights, orig, i + 1) == BlendedUpTo(dims, cells, weights, orig, i)
  {
  }

  /** Visiting a written index sets its three channels. */
  lemma BlendedStepWrite(dims: Dims, cells: map<Cell, seq<real>>, weights: seq<real>, orig: seq<real>, i: nat)
    requires Written(dims, cells, |orig|, i)
    ensures var c := CellColor(cells[CellAt(dims, i)], WeightAt(weights, i));
      BlendedUpTo(dims, cells, weights, orig, i + 1)
      == BlendedUpTo(dims, cells, weights, orig, i)[3 * i := c.r][3 * i + 1 := c.g][3 * i + 2 := c.b]
  {
    assert (3 * i) / 3 == i && (3 * i + 1) / 3 == i && (3 * i + 2) / 3 == i;
    assert (3 * i) % 3 == 0 && (3 * i + 1) % 3 == 1 && (3 * i + 2) % 3 == 2;
  }

  // ---------------------------------------------------------------------
  // Single-cell weight edits (applyWeightToSubCube)
  // ---------------------------------------------------------------------

  /**
   * The cell applyWeightToSubCube edits: the grid indices nearest the given
   * centred coordinates, provided the grid has a subcube there; none when
   * the cube has no subMatrix or no subInfo.
   */
  function Target(subInfo: Option<Dims>, subMatrix: Option<map<Cell, VertexAttr>>, row: real, col: real, layer: real): Option<Cell>
  {
    if subMatrix.None? || subInfo.None? then None
    else
      var dims := subInfo.value;
      var cell := Cell(CoordToIndex(row, dims.rows), CoordToIndex(col, dims.cols), CoordToIndex(layer, dims.layers));
      if cell in subMatrix.value then Some(cell) else None
  }

  /** The weight buffer after the edit: the target's entry set to w when it lies in the buffer. */
  function WeightEdit(weights: seq<real>, subInfo: Option<Dims>, target: Option<Cell>, w: real): (out: seq<real>)
    ensures |out| == |weights|
  {
    if target.Some? && subInfo.Some? && 0 <= LinearIndex(subInfo.value, target.value) < |weights|
    then weights[LinearIndex(subInfo.value, target.value) := w]
    else weights
  }

  /** The coordinates of an existing subcube address exactly that subcube. */
  lemma TargetOfCoords(dims: Dims, m: map<Cell, VertexAttr>, cell: Cell)
    requires InGrid(dims, cell) && cell in m
    ensures Target(Some(dims), Some(m), IndexToCoord(cell.row, dims.rows), IndexToCoord(cell.col, dims.cols),
                   IndexToCoord(cell.layer, dims.layers)) == Some(cell)
  {
    CoordRoundTrip(cell.row, dims.rows);
    CoordRoundTrip(cell.col, dims.cols);
    CoordRoundTrip(cell.layer, dims.layers);
  }

  /**
   * On a grid of at least one cell per axis the edit changes the weight of
   * the target cell and of no other cell; the target is always in the grid.
   */
  lemma WeightEditOnlyTarget(weights: seq<real>, dims: Dims, target: Option<Cell>, w: real, i: nat)
    requires dims.rows >= 1 && dims.cols >= 1 && dims.layers >= 1 && |weights| == Size(dims) && i < |weights|
    requires target.Some? ==> InGrid(dims, target.value)
    ensures WeightEdit(weights, Some(dims), target, w)[i] == if target == Some(CellAt(dims, i)) then w else weights[i]
  {
    CellAtInverse(dims, i);
    if target.Some? {
      LinearIndexInverse(dims, target.value);
    }
  }

  /** With at least one cell per axis the edited cell lies in the grid. */
  lemma TargetInGrid(subInfo: Option<Dims>, subMatrix: Option<map<Cell, VertexAttr>>, row: real, col: real, layer: real)
    requires subInfo.Some? && subInfo.value.rows >= 1 && subInfo.value.cols >= 1 && subInfo.value.layers >= 1
    ensures var t := Target(subInfo, subMatrix, row, col, layer); t.Some? ==> InGrid(subInfo.value, t.value)
  {
  }

  // ---------------------------------------------------------------------
  // Grid set-up (createSubCubeGrid)
  // ---------------------------------------------------------------------

  /** `x | 0` on the GUI's control values: truncation toward zero. */
  function Truncate(x: real): int
  {
    if x >= 0.0 then x.Floor else -((-x).Floor)
  }

  /** `Math.max(1, control | 0)`: the extent a control value gives an axis. */
  function Extent(x: real): int
  {
    var t := Truncate(x);
    if t < 1 then 1 else t
  }

  function GridDims(rowsCtl: real, colsCtl: real, depthCtl: real): Dims
  {
    Dims(Extent(rowsCtl), Extent(colsCtl), Extent(depthCtl))
  }

  /** A control of at least 1 gives its whole part; anything smaller gives 1. */
  lemma ExtentOfControl(x: real)
    ensures Extent(x) >= 1
    ensures x >= 1.0 ==> Extent(x) as real <= x < Extent(x) as real + 1.0
    ensures x < 1.0 ==> Extent(x) == 1
  {
    if x < 0.0 {
      assert (-x).Floor >= 0;
    }
  }

  /**
   * What the per-cell loop of createSubCubeGrid works from: the new
   * extents, the saved colours and weights, the default colour, and whether
   * the colour and weight buffers of the right size were kept.
   */
  datatype GridSetup = GridSetup(dims: Dims, savedColors: map<Cell, Rgb>, savedWeights: map<Cell, real>,
                                 defaultColor: Rgb, keepColors: bool, keepWeights: bool)

  predicate Positive(dims: Dims)
  {
    dims.rows >= 1 && dims.cols >= 1 && dims.layers >= 1
  }

  /** The weight of linear index i: its saved weight, else the kept buffer's entry, else 1. */
  function InitialWeight(g: GridSetup, kept: seq<real>, i: nat): real
    requires g.dims.rows >= 1 && g.dims.cols >= 1
  {
    var cell := CellAt(g.dims, i);
    if cell in g.savedWeights then g.savedWeights[cell]
    else if g.keepWeights && i < |kept| then kept[i]
    else 1.0
  }

  /** Channel k % 3 of linear index k / 3: the saved colour, else the kept buffer's entry, else the default colour. */
  function InitialColor(g: GridSetup, kept: seq<real>, k: nat): real
    requires g.dims.rows >= 1 && g.dims.cols >= 1
  {
    var cell := CellAt(g.dims, k / 3);
    if cell in g.savedColors then SubpixelMatrix.Channel(g.savedColors[cell], k % 3)
    else if g.keepColors && k < |kept| then kept[k]
    else SubpixelMatrix.Channel(g.defaultColor, k % 3)
  }

  function InitialWeights(g: GridSetup, kept: seq<real>): (ws: seq<real>)
    requires Positive(g.dims)
    ensures |ws| == Size(g.dims)
  {
    seq(Size(g.dims), i requires 0 <= i < Size(g.dims) => InitialWeight(g, kept, i))
  }

  function InitialColors(g: GridSetup, kept: seq<real>): (cs: seq<real>)
    requires Positive(g.dims)
    ensures |cs| == 3 * Size(g.dims)
  {
    seq(3 * Size(g.dims), k requires 0 <= k < 3 * Size(g.dims) => InitialColor(g, kept, k))
  }

  /**
   * Cell by cell: a saved weight wins, then the kept buffer's weight, and a
   * freshly allocated buffer gives 1; likewise a saved colour wins, then
   * the kept buffer's triple, else the default colour. Index i holds the
   * values of the in-grid cell at i.
   */
  lemma InitialCell(g: GridSetup, keptColors: seq<real>, keptWeights: seq<real>, i: nat)
    requires Positive(g.dims) && i < Size(g.dims)
    requires |keptColors| == 3 * Size(g.dims) && |keptWeights| == Size(g.dims)
    ensures InGrid(g.dims, CellAt(g.dims, i)) && LinearIndex(g.dims, CellAt(g.dims, i)) == i
    ensures var cell, ws := CellAt(g.dims, i), InitialWeights(g, keptWeights);
      ws[i] == (if cell in g.savedWeights then g.savedWeights[cell] else if g.keepWeights then keptWeights[i] else 1.0)
    ensures var cell, cs := CellAt(g.dims, i), InitialColors(g, keptColors);
      Rgb(cs[3 * i], cs[3 * i + 1], cs[3 * i + 2]) ==
        (if cell in g.savedColors then g.savedColors[cell]
         else if g.keepColors then Rgb(keptColors[3 * i], keptColors[3 * i + 1], keptColors[3 * i + 2])
         else g.defaultColor)
  {
    CellAtInverse(g.dims, i);
    assert (3 * i) / 3 == i && (3 * i + 1) / 3 == i && (3 * i + 2) / 3 == i;
    assert (3 * i) % 3 == 0 && (3 * i + 1) % 3 == 1 && (3 * i + 2) % 3 == 2;
  }

  /** A fresh weight buffer with nothing saved is all ones. */
  lemma FreshWeightsAreOnes(g: GridSetup, kept: seq<real>)
    requires Positive(g.dims) && !g.keepWeights && g.savedWeights == map[]
    ensures forall i :: 0 <= i < Size(g.dims) ==> InitialWeights(g, kept)[i] == 1.0
  {
  }

  /** Without a kept buffer the old contents are never consulted. */
  lemma InitialIgnoresDropped(g: GridSetup, a: seq<real>, b: seq<real>)
    requires Positive(g.dims)
    ensures !g.keepColors ==> InitialColors(g, a) == InitialColors(g, b)
    ensures !g.keepWeights ==> InitialWeights(g, a) == InitialWeights(g, b)
  {
  }

  /** The buffers once the loop has visited the first n linear indices. */
  ghost function ColorsUpTo(g: GridSetup, start: seq<real>, n: int): (cs: seq<real>)
    requires g.dims.rows >= 1 && g.dims.cols >= 1
    ensures |cs| == |start|
  {
    seq(|start|, k requires 0 <= k < |start| => if k / 3 < n then InitialColor(g, start, k) else start[k])
  }

  ghost function WeightsUpTo(g: GridSetup, start: seq<real>, n: int): (ws: seq<real>)
    requires g.dims.rows >= 1 && g.dims.cols >= 1
    ensures |ws| == |start|
  {
    seq(|start|, i requires 0 <= i < |start| => if i < n then InitialWeight(g, start, i) else start[i])
  }

  /** Visiting index n sets its colour triple, unless the kept buffer is used and nothing is saved. */
  lemma ColorsStep(g: GridSetup, start: seq<real>, n: nat)
    requires Positive(g.dims) && n < Size(g.dims) && |start| == 3 * Size(g.dims)
    ensures var cell := CellAt(g.dims, n);
      if cell in g.savedColors || !g.keepColors then
        var c := if cell in g.savedColors then g.savedColors[cell] else g.defaultColor;
        ColorsUpTo(g, start, n + 1) == ColorsUpTo(g, start, n)[3 * n := c.r][3 * n + 1 := c.g][3 * n + 2 := c.b]
      else ColorsUpTo(g, start, n + 1) == ColorsUpTo(g, start, n)
  {
    assert (3 * n) / 3 == n && (3 * n + 1) / 3 == n && (3 * n + 2) / 3 == n;
    assert (3 * n) % 3 == 0 && (3 * n + 1) % 3 == 1 && (3 * n + 2) % 3 == 2;
  }

  /** Visiting index n sets its weight. */
  lemma WeightsStep(g: GridSetup, start: seq<real>, n: nat)
    requires Positive(g.dims) && n < |start|
    ensures WeightsUpTo(g, start, n + 1) == WeightsUpTo(g, start, n)[n := InitialWeight(g, start, n)]
  {
  }

  /** A fresh weight buffer: allocated, then set to 1 entry by entry. */
  method Ones(count: nat) returns (buffer: array<real>)
    ensures fresh(buffer) && buffer.Length == count
    ensures forall i :: 0 <= i < count ==> buffer[i] == 1.0
  {
    buffer := new real[count](_ => 0.0);
    for i := 0 to count
      invariant forall j :: 0 <= j < i ==> buffer[j] == 1.0
    {
      buffer[i] := 1.0;
    }
  }

  /** `rows * cols * layers` counts the cells. */
  lemma CountIsSize(dims: Dims)
    ensures dims.rows * dims.cols * dims.layers == Size(dims)
  {
  }

  /** The set-up for new extents: a buffer is kept when it exists with exactly the size the extents need. */
  function Setup(dims: Dims, savedColors: map<Cell, Rgb>, savedWeights: map<Cell, real>, defaultColor: Rgb,
                 colorBuffer: Option<array<real>>, weightBuffer: Option<array<real>>): GridSetup
  {
    GridSetup(dims, savedColors, savedWeights, defaultColor,
              colorBuffer.Some? && colorBuffer.value.Length == 3 * Size(dims),
              weightBuffer.Some? && weightBuffer.value.Length == Size(dims))
  }

  /** A buffer's contents, empty when there is none. */
  ghost function Contents(buffer: Option<array<real>>): seq<real>
    reads if buffer.Some? then {buffer.value} else {}
  {
    if buffer.Some? then buffer.value[..] else []
  }

  /**
   * Keep each buffer that already has the size the grid needs, else
   * allocate it: colours as zeros, weights as ones. The result says which
   * were kept; a dropped buffer's contents are never consulted again.
   */
  method PrepareBuffers(dims: Dims, colorBuffer: Option<array<real>>, weightBuffer: Option<array<real>>)
    returns (colors: array<real>, weights: array<real>, existingBuffer: bool, existingWeightBuffer: bool)
    requires Positive(dims)
    requires colorBuffer.Some? && weightBuffer.Some? ==> colorBuffer.value != weightBuffer.value
    ensures var g := Setup(dims, map[], map[], Rgb(0.0, 0.0, 0.0), colorBuffer, weightBuffer);
      existingBuffer == g.keepColors && existingWeightBuffer == g.keepWeights
    ensures colors != weights && colors.Length == 3 * Size(dims) && weights.Length == Size(dims)
    ensures if existingBuffer then colorBuffer == Some(colors) else fresh(colors)
    ensures if existingWeightBuffer then weightBuffer == Some(weights) else fresh(weights)
  {
    var count := dims.rows * dims.cols * dims.layers;
    CountIsSize(dims);
    existingBuffer := colorBuffer.Some? && colorBuffer.value.Length == count * 3;
    if existingBuffer {
      colors := colorBuffer.value;
    } else {
      colors := new real[count * 3](_ => 0.0);
    }
    existingWeightBuffer := weightBuffer.Some? && weightBuffer.value.Length == count;
    if existingWeightBuffer {
      weights := weightBuffer.value;
    } else {
      weights := Ones(count);
    }
  }

  /** The per-cell loop of createSubCubeGrid over both buffers. */
  method FillGrid(g: GridSetup, colors: array<real>, weights: array<real>)
    requires Positive(g.dims) && colors != weights
    requires colors.Length == 3 * Size(g.dims) && weights.Length == Size(g.dims)
    modifies colors, weights
    ensures colors[..] == InitialColors(g, old(colors[..]))
    ensures weights[..] == InitialWeights(g, old(weights[..]))
  {
    ghost var c0, w0 := colors[..], weights[..];
    for d := 0 to g.dims.layers
      invariant colors[..] == ColorsUpTo(g, c0, d * g.dims.rows * g.dims.cols)
      invariant weights[..] == WeightsUpTo(g, w0, d * g.dims.rows * g.dims.cols)
    {
      FillLayer(g, colors, weights, c0, w0, d);
    }
    assert g.dims.layers * g.dims.rows * g.dims.cols == Size(g.dims);
  }

  method FillLayer(g: GridSetup, colors: array<real>, weights: array<real>, ghost c0: seq<real>, ghost w0: seq<real>, d: int)
    requires Positive(g.dims) && colors != weights && 0 <= d < g.dims.layers
    requires |c0| == colors.Length == 3 * Size(g.dims) && |w0| == weights.Length == Size(g.dims)
    requires colors[..] == ColorsUpTo(g, c0, d * g.dims.rows * g.dims.cols)
    requires weights[..] == WeightsUpTo(g, w0, d * g.dims.rows * g.dims.cols)
    modifies colors, weights
    ensures colors[..] == ColorsUpTo(g, c0, (d + 1) * g.dims.rows * g.dims.cols)
    ensures weights[..] == WeightsUpTo(g, w0, (d + 1) * g.dims.rows * g.dims.cols)
  {
    for r := 0 to g.dims.rows
      invariant colors[..] == ColorsUpTo(g, c0, d * g.dims.rows * g.dims.cols + r * g.dims.cols)
      invariant weights[..] == WeightsUpTo(g, w0, d * g.dims.rows * g.dims.cols + r * g.dims.cols)
    {
      FillRow(g, colors, weights, c0, w0, d, r);
    }
    LayerEnd(d, g.dims.rows, g.dims.cols);
  }

  method FillRow(g: GridSetup, colors: array<real>, weights: array<real>, ghost c0: seq<real>, ghost w0: seq<real>, d: int, r: int)
    requires Positive(g.dims) && colors != weights && 0 <= d < g.dims.layers && 0 <= r < g.dims.rows
    requires |c0| == colors.Length == 3 * Size(g.dims) && |w0| == weights.Length == Size(g.dims)
    requires colors[..] == ColorsUpTo(g, c0, d * g.dims.rows * g.dims.cols + r * g.dims.cols)
    requires weights[..] == WeightsUpTo(g, w0, d * g.dims.rows * g.dims.cols + r * g.dims.cols)
    modifies colors, weights
    ensures colors[..] == ColorsUpTo(g, c0, d * g.dims.rows * g.dims.cols + (r + 1) * g.dims.cols)
    ensures weights[..] == WeightsUpTo(g, w0, d * g.dims.rows * g.dims.cols + (r + 1) * g.dims.cols)
  {
    for c := 0 to g.dims.cols
      invariant colors[..] == ColorsUpTo(g, c0, d * g.dims.rows * g.dims.cols + r * g.dims.cols + c)
      invariant weights[..] == WeightsUpTo(g, w0, d * g.dims.rows * g.dims.cols + r * g.dims.cols + c)
    {
      FillCell(g, colors, weights, c0, w0, Cell(r, c, d));
    }
  }

  /** The body of the innermost loop: the cell's colour triple, then its weight. */
  method FillCell(g: GridSetup, colors: array<real>, weights: array<real>, ghost c0: seq<real>, ghost w0: seq<real>, cell: Cell)
    requires Positive(g.dims) && colors != weights && InGrid(g.dims, cell)
    requires |c0| == colors.Length == 3 * Size(g.dims) && |w0| == weights.Length == Size(g.dims)
    requires colors[..] == ColorsUpTo(g, c0, LinearIndex(g.dims, cell))
    requires weights[..] == WeightsUpTo(g, w0, LinearIndex(g.dims, cell))
    modifies colors, weights
    ensures colors[..] == ColorsUpTo(g, c0, LinearIndex(g.dims, cell) + 1)
    ensures weights[..] == WeightsUpTo(g, w0, LinearIndex(g.dims, cell) + 1)
  {
    var idx := LinearIndex(g.dims, cell);
    LinearIndexInverse(g.dims, cell);
    ColorsStep(g, c0, idx);
    WeightsStep(g, w0, idx);
    if cell in g.savedColors {
      WriteTriple(colors, idx, g.savedColors[cell]);
    } else if !g.keepColors {
      WriteTriple(colors, idx, g.defaultColor);
    }
    var weightVal := 1.0;
    if cell in g.savedWeights {
      weightVal := g.savedWeights[cell];
    } else if !g.keepWeights {
      weightVal := 1.0;
    } else {
      weightVal := weights[idx];
    }
    weights[idx] := weightVal;
  }

  /** A subcube's point colours (`pColors`): its colour triple once for each of its eight vertices. */
  function PointColors(colors: seq<real>, i: nat): seq<real>
    requires 3 * i + 2 < |colors|
  {
    seq(24, k requires 0 <= k < 24 => colors[3 * i + k % 3])
  }

  /** Vertex vi of the point colours carries the subcube's colour triple. */
  lemma PointColorsVertex(colors: seq<real>, i: nat, vi: nat)
    requires 3 * i + 2 < |colors| && vi < 8
    ensures var p := PointColors(colors, i);
      p[3 * vi] == colors[3 * i] && p[3 * vi + 1] == colors[3 * i + 1] && p[3 * vi + 2] == colors[3 * i + 2]
  {
    assert (3 * vi) % 3 == 0 && (3 * vi + 1) % 3 == 1 && (3 * vi + 2) % 3 == 2;
  }

  /** Reading the point colours back gives the subcube's colour at each of the eight vertices. */
  lemma PointColorsTriples(colors: seq<real>, i: nat)
    requires 3 * i + 2 < |colors|
    ensures SubpixelMatrix.Triples(PointColors(colors, i))
      == seq(8, _ => Some(Rgb(colors[3 * i], colors[3 * i + 1], colors[3 * i + 2])))
  {
    var t := SubpixelMatrix.Triples(PointColors(colors, i));
    forall vi | 0 <= vi < 8
      ensures t[vi] == Some(Rgb(colors[3 * i], colors[3 * i + 1], colors[3 * i + 2]))
    {
      assert (3 * vi) % 3 == 0 && (3 * vi + 1) % 3 == 1 && (3 * vi + 2) % 3 == 2;
    }
  }

  /**
   * Blending a freshly built subcube with a positive weight gives its own
   * colour back, clamped: the eight vertices all carry it.
   */
  lemma BlendPointColors(colors: seq<real>, i: nat, w: real)
    requires 3 * i + 2 < |colors| && w > 0.0
    ensures CellColor(PointColors(colors, i), w) == SubcubeBlending.ClampRgb(Rgb(colors[3 * i], colors[3 * i + 1], colors[3 * i + 2]))
  {
    var c := Rgb(colors[3 * i], colors[3 * i + 1], colors[3 * i + 2]);
    var vs := CellVertices(PointColors(colors, i), w);
    CellColorIsMean(PointColors(colors, i), w);
    forall vi | 0 <= vi < |vs|
      ensures vs[vi].color == c
    {
      PointColorsVertex(colors, i, vi);
    }
    SubcubeBlending.AverageOfOneColour(vs, c);
  }

  /**
   * Blending a grid whose every cell carries its own colour on all eight
   * vertices clamps each colour into [0, 1] where the cell's weight is
   * positive and makes it black where the weight is negative.
   */
  lemma BlendOfPointColors(dims: Dims, cells: map<Cell, seq<real>>, weights: seq<real>, colors: seq<real>)
    requires Positive(dims) && |colors| == 3 * Size(dims)
    requires forall cell :: cell in cells <==> InGrid(dims, cell)
    requires forall cell :: cell in cells ==>
      0 <= LinearIndex(dims, cell) && 3 * LinearIndex(dims, cell) + 2 < |colors|
      && cells[cell] == PointColors(colors, LinearIndex(dims, cell))
    ensures forall k :: 0 <= k < |colors| ==>
      Blended(dims, cells, weights, colors)[k]
      == (if WeightAt(weights, k / 3) > 0.0 then SubcubeBlending.Clamp(colors[k]) else 0.0)
  {
    var out := Blended(dims, cells, weights, colors);
    forall k | 0 <= k < |colors|
      ensures out[k] == (if WeightAt(weights, k / 3) > 0.0 then SubcubeBlending.Clamp(colors[k]) else 0.0)
    {
      var i := k / 3;
      CellAtInverse(dims, i);
      assert Written(dims, cells, |colors|, i);
      var w := WeightAt(weights, i);
      assert k == 3 * i + k % 3;
      if w > 0.0 {
        BlendPointColors(colors, i, w);
      } else {
        CellColorIsMean(PointColors(colors, i), w);
      }
    }
  }

  /**
   * The containers built for the cells before linear index n: each has its
   * own attribute and buffer, holds the cell's point colours and asks for
   * an upload.
   */
  ghost predicate Built(dims: Dims, colors: seq<real>, m: map<Cell, VertexAttr>, n: int)
    reads set cell | cell in m :: m[cell], set cell | cell in m :: m[cell].buffer
  {
    SubpixelMatrix.Separate(m)
    && (forall cell :: cell in m <==> InGrid(dims, cell) && LinearIndex(dims, cell) < n)
    && (forall cell :: cell in m ==>
          var i := LinearIndex(dims, cell);
          0 <= 3 * i + 2 < |colors| && m[cell].needsUpdate && m[cell].buffer[..] == PointColors(colors, i))
  }

  /** Before the first cell no container is built: every in-grid cell has a non-negative index. */
  lemma NoneBuilt(dims: Dims, colors: seq<real>)
    ensures Built(dims, colors, map[], 0)
  {
    forall cell | InGrid(dims, cell)
      ensures LinearIndex(dims, cell) >= 0
    {
      LinearIndexInverse(dims, cell);
    }
  }

  /** The vertex loop of one subcube: its colour triple copied to each of the eight vertices. */
  method PointBuffer(colors: array<real>, idx: nat) returns (p: array<real>)
    requires 3 * idx + 2 < colors.Length
    ensures fresh(p) && p[..] == PointColors(colors[..], idx)
  {
    p := new real[24](_ => 0.0);
    for vi := 0 to 8
      invariant forall k :: 0 <= k < 3 * vi ==> p[k] == colors[3 * idx + k % 3]
    {
      p[vi * 3] := colors[idx * 3];
      p[vi * 3 + 1] := colors[idx * 3 + 1];
      p[vi * 3 + 2] := colors[idx * 3 + 2];
    }
  }

  /**
   * The containers createSubCubeGrid builds for a new grid: one fresh
   * colour attribute per cell, coloured from the finished colour buffer.
   */
  method BuildContainers(dims: Dims, colors: array<real>) returns (m: map<Cell, VertexAttr>)
    requires Positive(dims) && colors.Length == 3 * Size(dims)
    ensures Built(dims, colors[..], m, Size(dims))
    ensures forall cell :: cell in m <==> InGrid(dims, cell)
    ensures forall cell :: cell in m ==> fresh(m[cell]) && fresh(m[cell].buffer)
  {
    m := map[];
    NoneBuilt(dims, colors[..]);
    for d := 0 to dims.layers
      invariant Built(dims, colors[..], m, d * dims.rows * dims.cols)
      invariant forall cell :: cell in m ==> fresh(m[cell]) && fresh(m[cell].buffer)
    {
      m := BuildLayer(dims, colors, m, d);
    }
    CountIsSize(dims);
    forall cell | InGrid(dims, cell)
      ensures cell in m
    {
      LinearIndexInverse(dims, cell);
    }
  }

  method BuildLayer(dims: Dims, colors: array<real>, m0: map<Cell, VertexAttr>, d: int) returns (m: map<Cell, VertexAttr>)
    requires Positive(dims) && colors.Length == 3 * Size(dims) && 0 <= d < dims.layers
    requires Built(dims, colors[..], m0, d * dims.rows * dims.cols)
    ensures Built(dims, colors[..], m, (d + 1) * dims.rows * dims.cols)
    ensures forall cell :: cell in m ==> (cell in m0 && m[cell] == m0[cell]) || (fresh(m[cell]) && fresh(m[cell].buffer))
  {
    m := m0;
    for r := 0 to dims.rows
      invariant Built(dims, colors[..], m, d * dims.rows * dims.cols + r * dims.cols)
      invariant forall cell :: cell in m ==> (cell in m0 && m[cell] == m0[cell]) || (fresh(m[cell]) && fresh(m[cell].buffer))
    {
      m := BuildRow(dims, colors, m, d, r);
    }
    LayerEnd(d, dims.rows, dims.cols);
  }

  method BuildRow(dims: Dims, colors: array<real>, m0: map<Cell, VertexAttr>, d: int, r: int) returns (m: map<Cell, VertexAttr>)
    requires Positive(dims) && colors.Length == 3 * Size(dims) && 0 <= d < dims.layers && 0 <= r < dims.rows
    requires Built(dims, colors[..], m0, d * dims.rows * dims.cols + r * dims.cols)
    ensures Built(dims, colors[..], m, d * dims.rows * dims.cols + (r + 1) * dims.cols)
    ensures forall cell :: cell in m ==> (cell in m0 && m[cell] == m0[cell]) || (fresh(m[cell]) && fresh(m[cell].buffer))
  {
    m := m0;
    for c := 0 to dims.cols
      invariant Built(dims, colors[..], m, d * dims.rows * dims.cols + r * dims.cols + c)
      invariant forall cell :: cell in m ==> (cell in m0 && m[cell] == m0[cell]) || (fresh(m[cell]) && fresh(m[cell].buffer))
    {
      m := BuildCell(dims, colors, m, Cell(r, c, d));
    }
  }

  /** The body of the innermost loop: the cell's point colours, attribute and upload flag. */
  method BuildCell(dims: Dims, colors: array<real>, m0: map<Cell, VertexAttr>, cell: Cell) returns (m: map<Cell, VertexAttr>)
    requires Positive(dims) && colors.Length == 3 * Size(dims) && InGrid(dims, cell)
    requires Built(dims, colors[..], m0, LinearIndex(dims, cell))
    ensures Built(dims, colors[..], m, LinearIndex(dims, cell) + 1)
    ensures cell !in m0 && m == m0[cell := m[cell]] && fresh(m[cell]) && fresh(m[cell].buffer)
  {
    var idx := LinearIndex(dims, cell);
    LinearIndexInverse(dims, cell);
    var p := PointBuffer(colors, idx);
    var attr := new VertexAttr(p);
    attr.needsUpdate := true;
    m := m0[cell := attr];
    forall x | InGrid(dims, x) && LinearIndex(dims, x) == idx
      ensures x == cell
    {
      LinearIndexInverse(dims, x);
    }
  }

  /** The colours the GPU read-back writes: cell i takes the red, green and blue of pixel i (four floats a pixel). */
  function ReadColors(read: seq<real>, count: nat): (cs: seq<real>)
    requires 4 * count <= |read|
    ensures |cs| == 3 * count
  {
    seq(3 * count, k requires 0 <= k < 3 * count => read[4 * (k / 3) + k % 3])
  }

  /** Each cell's triple in ReadColors is its pixel without the alpha channel. */
  lemma ReadColorsCell(read: seq<real>, count: nat, i: nat)
    requires 4 * count <= |read| && i < count
    ensures var cs := ReadColors(read, count);
      cs[3 * i .. 3 * i + 3] == read[4 * i .. 4 * i + 3]
  {
    assert (3 * i) / 3 == i && (3 * i + 1) / 3 == i && (3 * i + 2) / 3 == i;
    assert (3 * i) % 3 == 0 && (3 * i + 1) % 3 == 1 && (3 * i + 2) % 3 == 2;
  }

  /** The first n triples of top over the rest of start. */
  ghost function Overlay(start: seq<real>, top: seq<real>, n: int): (cs: seq<real>)
    requires |start| == |top|
    ensures |cs| == |start|
  {
    seq(|start|, k requires 0 <= k < |start| => if k / 3 < n then top[k] else start[k])
  }

  /**
   * The colours a new grid holds before the final blend: the read-back's
   * when the GPU is there (read holds its pixels) and no colour is saved,
   * otherwise the initial colours.
   */
  function Painted(g: GridSetup, kept: seq<real>, read: Option<seq<real>>): (cs: seq<real>)
    requires Positive(g.dims)
    requires read.Some? ==> 4 * Size(g.dims) <= |read.value|
    ensures |cs| == 3 * Size(g.dims)
  {
    if read.Some? && g.savedColors == map[] then ReadColors(read.value, Size(g.dims)) else InitialColors(g, kept)
  }

  /** The vertex loop of the read-back: one colour on every vertex of an attribute. */
  method PaintVertices(attr: VertexAttr, c: Rgb)
    modifies attr.buffer
    ensures forall k :: 0 <= k < 3 * attr.Count() ==> attr.buffer[k] == SubpixelMatrix.Channel(c, k % 3)
    ensures forall k :: 3 * attr.Count() <= k < attr.buffer.Length ==> attr.buffer[k] == old(attr.buffer[k])
  {
    for vi := 0 to attr.Count()
      invariant forall k :: 0 <= k < 3 * vi ==> attr.buffer[k] == SubpixelMatrix.Channel(c, k % 3)
      invariant forall k :: 3 * vi <= k < attr.buffer.Length ==> attr.buffer[k] == old(attr.buffer[k])
    {
      attr.buffer[vi * 3] := c.r;
      attr.buffer[vi * 3 + 1] := c.g;
      attr.buffer[vi * 3 + 2] := c.b;
    }
  }

  /**
   * The GPU read-back of createSubCubeGrid. The containers are visited in
   * the order the grid loop created them, so the i-th one is the cell at
   * linear index i and takes pixel i: its eight vertices and its colour
   * triple become that pixel's colour. The containers keep matching the
   * colour buffer, and their upload flags stay set.
   */
  method ReadBack(dims: Dims, colors: array<real>, m: map<Cell, VertexAttr>, read: seq<real>)
    requires Positive(dims) && colors.Length == 3 * Size(dims) && 4 * Size(dims) <= |read|
    requires ApartFrom(m, colors) && Built(dims, colors[..], m, Size(dims))
    modifies colors, set cell | cell in m :: m[cell].buffer
    ensures colors[..] == ReadColors(read, Size(dims))
    ensures Built(dims, colors[..], m, Size(dims))
  {
    ghost var c0 := colors[..];
    for d := 0 to dims.layers
      invariant colors[..] == Overlay(c0, ReadColors(read, Size(dims)), d * dims.rows * dims.cols)
      invariant Built(dims, colors[..], m, Size(dims))
    {
      ReadLayer(dims, colors, m, read, c0, d);
    }
    assert dims.layers * dims.rows * dims.cols == Size(dims);
  }

  method ReadLayer(dims: Dims, colors: array<real>, m: map<Cell, VertexAttr>, read: seq<real>, ghost c0: seq<real>, d: int)
    requires Positive(dims) && colors.Length == 3 * Size(dims) && |c0| == colors.Length && 4 * Size(dims) <= |read|
    requires 0 <= d < dims.layers
    requires ApartFrom(m, colors) && Built(dims, colors[..], m, Size(dims))
    requires colors[..] == Overlay(c0, ReadColors(read, Size(dims)), d * dims.rows * dims.cols)
    modifies colors, set cell | cell in m :: m[cell].buffer
    ensures Built(dims, colors[..], m, Size(dims))
    ensures colors[..] == Overlay(c0, ReadColors(read, Size(dims)), (d + 1) * dims.rows * dims.cols)
  {
    for r := 0 to dims.rows
      invariant Built(dims, colors[..], m, Size(dims))
      invariant colors[..] == Overlay(c0, ReadColors(read, Size(dims)), d * dims.rows * dims.cols + r * dims.cols)
    {
      ReadRow(dims, colors, m, read, c0, d, r);
    }
    LayerEnd(d, dims.rows, dims.cols);
  }

  method ReadRow(dims: Dims, colors: array<real>, m: map<Cell, VertexAttr>, read: seq<real>, ghost c0: seq<real>, d: int, r: int)
    requires Positive(dims) && colors.Length == 3 * Size(dims) && |c0| == colors.Length && 4 * Size(dims) <= |read|
    requires 0 <= d < dims.layers && 0 <= r < dims.rows
    requires ApartFrom(m, colors) && Built(dims, colors[..], m, Size(dims))
    requires colors[..] == Overlay(c0, ReadColors(read, Size(dims)), d * dims.rows * dims.cols + r * dims.cols)
    modifies colors, set cell | cell in m :: m[cell].buffer
    ensures Built(dims, colors[..], m, Size(dims))
    ensures colors[..] == Overlay(c0, ReadColors(read, Size(dims)), d * dims.rows * dims.cols + (r + 1) * dims.cols)
  {
    for c := 0 to dims.cols
      invariant Built(dims, colors[..], m, Size(dims))
      invariant colors[..] == Overlay(c0, ReadColors(read, Size(dims)), d * dims.rows * dims.cols + r * dims.cols + c)
    {
      ReadCell(dims, colors, m, read, c0, Cell(r, c, d));
    }
  }

  /** One container of the read-back: the cell takes the colour of its pixel. */
  method ReadCell(dims: Dims, colors: array<real>, m: map<Cell, VertexAttr>, read: seq<real>, ghost c0: seq<real>, cell: Cell)
    requires Positive(dims) && colors.Length == 3 * Size(dims) && |c0| == colors.Length && 4 * Size(dims) <= |read|
    requires InGrid(dims, cell)
    requires ApartFrom(m, colors) && Built(dims, colors[..], m, Size(dims))
    requires colors[..] == Overlay(c0, ReadColors(read, Size(dims)), LinearIndex(dims, cell))
    modifies colors, set x | x in m :: m[x].buffer
    ensures Built(dims, colors[..], m, Size(dims))
    ensures colors[..] == Overlay(c0, ReadColors(read, Size(dims)), LinearIndex(dims, cell) + 1)
  {
    var idx := LinearIndex(dims, cell);
    LinearIndexInverse(dims, cell);
    var px := 4 * idx;
    ReadColorsCell(read, Size(dims), idx);
    OverlayStep(c0, ReadColors(read, Size(dims)), idx);
    PaintCell(dims, colors, m, cell, Rgb(read[px], read[px + 1], read[px + 2]));
  }

  /** Visiting index n lays its triple of top over the buffer. */
  lemma OverlayStep(start: seq<real>, top: seq<real>, n: nat)
    requires |start| == |top| && 3 * n + 2 < |top|
    ensures Overlay(start, top, n + 1) == Overlay(start, top, n)[3 * n := top[3 * n]][3 * n + 1 := top[3 * n + 1]][3 * n + 2 := top[3 * n + 2]]
  {
    assert (3 * n) / 3 == n && (3 * n + 1) / 3 == n && (3 * n + 2) / 3 == n;
  }

  /** The writes for one cell: the colour on its container's eight vertices and in its triple. */
  method PaintCell(dims: Dims, colors: array<real>, m: map<Cell, VertexAttr>, cell: Cell, col: Rgb)
    requires Positive(dims) && colors.Length == 3 * Size(dims) && InGrid(dims, cell)
    requires 0 <= LinearIndex(dims, cell) < Size(dims)
    requires ApartFrom(m, colors) && Built(dims, colors[..], m, Size(dims))
    modifies colors, set x | x in m :: m[x].buffer
    ensures Built(dims, colors[..], m, Size(dims))
    ensures var idx := LinearIndex(dims, cell);
      colors[..] == old(colors[..])[3 * idx := col.r][3 * idx + 1 := col.g][3 * idx + 2 := col.b]
  {
    var idx := LinearIndex(dims, cell);
    LinearIndexInverse(dims, cell);
    var attr := m[cell];
    PaintVertices(attr, col);
    WriteTriple(colors, idx, col);
    ghost var after := colors[..];
    assert attr.buffer[..] == PointColors(after, idx);
    forall x | x in m && x != cell
      ensures m[x].buffer[..] == PointColors(after, LinearIndex(dims, x))
    {
      LinearIndexInverse(dims, x);
      assert m[x].buffer[..] == old(m[x].buffer[..]);
    }
  }

  /** The array an optional buffer holds, as a set. */
  function ArrayOf(buffer: Option<array<real>>): set<array<real>>
  {
    if buffer.Some? then {buffer.value} else {}
  }

  /**
   * The body of createSubCubeGrid for the set-up g, up to its final blend:
   * keep or allocate the two buffers, set every cell's colour and weight,
   * build one fresh container per cell from those colours, and, when the
   * GPU is there and no colour is saved, read every cell's colour back
   * from it. read holds the pixels the GPU delivers, or None without a GPU.
   */
  method PaintGrid(g: GridSetup, colorBuffer: Option<array<real>>, weightBuffer: Option<array<real>>, read: Option<seq<real>>)
    returns (colors: array<real>, weights: array<real>, containers: map<Cell, VertexAttr>)
    requires Positive(g.dims)
    requires read.Some? ==> 4 * Size(g.dims) <= |read.value|
    requires g == Setup(g.dims, g.savedColors, g.savedWeights, g.defaultColor, colorBuffer, weightBuffer)
    requires colorBuffer.Some? && weightBuffer.Some? ==> colorBuffer.value != weightBuffer.value
    modifies ArrayOf(colorBuffer), ArrayOf(weightBuffer)
    ensures colors != weights
    ensures if g.keepColors then colorBuffer == Some(colors) else fresh(colors)
    ensures if g.keepWeights then weightBuffer == Some(weights) else fresh(weights)
    ensures colors[..] == Painted(g, old(Contents(colorBuffer)), read)
    ensures weights[..] == InitialWeights(g, old(Contents(weightBuffer)))
    ensures Built(g.dims, colors[..], containers, Size(g.dims))
    ensures forall cell :: cell in containers <==> InGrid(g.dims, cell)
    ensures forall cell :: cell in containers ==> fresh(containers[cell]) && fresh(containers[cell].buffer)
    ensures ApartFrom(containers, colors)
  {
    var existingBuffer, existingWeightBuffer;
    colors, weights, existingBuffer, existingWeightBuffer := PrepareBuffers(g.dims, colorBuffer, weightBuffer);
    FillGrid(g, colors, weights);
    containers := BuildContainers(g.dims, colors);
    if read.Some? && g.savedColors == map[] {
      ReadBack(g.dims, colors, containers, read.value);
    }
  }

  /**
   * What createSubCubeGrid leaves for the set-up g, given the kept buffers'
   * old contents and the GPU's pixels: two distinct buffers; each cell's
   * weight as InitialWeights gives it; one container per in-grid cell,
   * each with its own buffer holding the painted colour on its eight
   * vertices; and the colour buffer holding the blend of those containers.
   */
  ghost predicate GridCreated(g: GridSetup, keptColors: seq<real>, keptWeights: seq<real>, read: Option<seq<real>>,
                              colors: array<real>, weights: array<real>, containers: map<Cell, VertexAttr>)
    requires Positive(g.dims) && (read.Some? ==> 4 * Size(g.dims) <= |read.value|)
    reads colors, weights, set cell | cell in containers :: containers[cell], set cell | cell in containers :: containers[cell].buffer
  {
    var painted := Painted(g, keptColors, read);
    colors != weights
    && weights[..] == InitialWeights(g, keptWeights)
    && Built(g.dims, painted, containers, Size(g.dims))
    && (forall cell :: cell in containers <==> InGrid(g.dims, cell))
    && colors[..] == Blended(g.dims, Snapshot(containers), weights[..], painted)
    && ApartFrom(containers, colors)
  }

  /**
   * The whole of createSubCubeGrid for the set-up g: PaintGrid, then the
   * closing blendAllSubCubeColors as it acts on this cube, which blends the
   * new grid into the colour buffer. The containers keep the painted colours.
   */
  method NewGrid(g: GridSetup, colorBuffer: Option<array<real>>, weightBuffer: Option<array<real>>, read: Option<seq<real>>)
    returns (colors: array<real>, weights: array<real>, containers: map<Cell, VertexAttr>)
    requires Positive(g.dims)
    requires read.Some? ==> 4 * Size(g.dims) <= |read.value|
    requires g == Setup(g.dims, g.savedColors, g.savedWeights, g.defaultColor, colorBuffer, weightBuffer)
    requires colorBuffer.Some? && weightBuffer.Some? ==> colorBuffer.value != weightBuffer.value
    modifies ArrayOf(colorBuffer), ArrayOf(weightBuffer)
    ensures if g.keepColors then colorBuffer == Some(colors) else fresh(colors)
    ensures if g.keepWeights then weightBuffer == Some(weights) else fresh(weights)
    ensures GridCreated(g, old(Contents(colorBuffer)), old(Contents(weightBuffer)), read, colors, weights, containers)
    ensures forall cell :: cell in containers ==> fresh(containers[cell]) && fresh(containers[cell].buffer)
  {
    colors, weights, containers := PaintGrid(g, colorBuffer, weightBuffer, read);
    BlendGrid(g.dims, containers, weights[..], colors);
  }
}
