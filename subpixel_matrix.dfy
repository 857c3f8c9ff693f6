/**
 * The sub-pixel matrix of subpixelMatrix.js: the per-vertex colour triples
 * of every subcube of a cube, copied out of the subcubes' colour
 * attributes into a dictionary keyed by cell, and written back from such a
 * dictionary into the attributes in place.
 */
module SubpixelMatrix {
  import opened Scene

  /**
   * What the two functions read of a cube: its grid extents (`subInfo`) and
   * the colour attribute of each subcube that has one (`subMatrix`); a
   * missing cube or `userData` reads as both missing.
   */
  datatype Cube = Cube(subInfo: Option<Dims>, subMatrix: Option<map<Cell, VertexAttr>>)

  /** The dictionary: for each cell, one colour triple (or `null`) per vertex. */
  type Matrix = map<Cell, seq<Option<Rgb>>>

  /** The cell → attribute map, empty when the subMatrix is missing. */
  function Attrs(cube: Cube): map<Cell, VertexAttr>
  {
    if cube.subMatrix.Some? then cube.subMatrix.value else map[]
  }

  function AttrObjects(cube: Cube): set<VertexAttr>
  {
    set cell | cell in Attrs(cube) :: Attrs(cube)[cell]
  }

  function Buffers(cube: Cube): set<array<real>>
  {
    set cell | cell in Attrs(cube) :: Attrs(cube)[cell].buffer
  }

  /** Each subcube has its own attribute and its own buffer. */
  predicate Separate(attrs: map<Cell, VertexAttr>)
  {
    forall a, b :: a in attrs && b in attrs && a != b ==> attrs[a] != attrs[b] && attrs[a].buffer != attrs[b].buffer
  }

  /** The colour triples of a buffer, vertex by vertex (`count` of them). */
  function Triples(buf: seq<real>): (t: seq<Option<Rgb>>)
    ensures |t| == |buf| / 3
  {
    seq(|buf| / 3, vi requires 0 <= vi < |buf| / 3 => Some(Rgb(buf[3 * vi], buf[3 * vi + 1], buf[3 * vi + 2])))
  }

  /** Channel k (0, 1 or 2) of a colour triple. */
  function Channel(c: Rgb, k: nat): real
  {
    if k == 0 then c.r else if k == 1 then c.g else c.b
  }

  /**
   * A buffer after applying one cell's entry: vertex vi takes the entry's
   * triple when vi is below both `count` and the entry's length and the
   * triple is not null; every other value stays.
   */
  function Overwrite(buf: seq<real>, verts: seq<Option<Rgb>>): (r: seq<real>)
    ensures |r| == |buf|
  {
    seq(|buf|, k requires 0 <= k < |buf| =>
      if k / 3 < |buf| / 3 && k / 3 < |verts| && verts[k / 3].Some? then Channel(verts[k / 3].value, k % 3) else buf[k])
  }

  /** `extractSubPixelMatrix`: null without subMatrix or subInfo, else every in-grid cell's triples. */
  function Extracted(cube: Cube): Option<Matrix>
    reads Buffers(cube)
  {
    if cube.subMatrix.None? || cube.subInfo.None? then None
    else Some(map cell | cell in Attrs(cube) && InGrid(cube.subInfo.value, cell) :: Triples(Attrs(cube)[cell].buffer[..]))
  }

  /** Whether `applySubPixelMatrix` writes into a cell: everything present, the cell in the grid and in the matrix. */
  predicate Hit(cube: Cube, matrix: Option<Matrix>, cell: Cell)
  {
    matrix.Some? && cube.subMatrix.Some? && cube.subInfo.Some?
    && cell in matrix.value && cell in Attrs(cube) && InGrid(cube.subInfo.value, cell)
  }

  /** Cells visited before position (d, r, c) of the layer/row/column loops. */
  predicate DoneAt(cell: Cell, d: int, r: int, c: int)
  {
    cell.layer < d || (cell.layer == d && (cell.row < r || (cell.row == r && cell.col < c)))
  }

  // ---------------------------------------------------------------------
  // extract
  // ---------------------------------------------------------------------

  /** The inner loop of `extractSubPixelMatrix`: one triple per vertex. */
  method ReadTriples(attr: VertexAttr) returns (verts: seq<Option<Rgb>>)
    ensures verts == Triples(attr.buffer[..])
  {
    var a := attr.buffer;
    verts := [];
    for vi := 0 to a.Length / 3
      invariant |verts| == vi
      invariant forall k :: 0 <= k < vi ==> verts[k] == Some(Rgb(a[3 * k], a[3 * k + 1], a[3 * k + 2]))
    {
      verts := verts + [Some(Rgb(a[vi * 3], a[vi * 3 + 1], a[vi * 3 + 2]))];
    }
  }

  /** What the extraction loops have collected once every cell before (d, r, c) is visited. */
  ghost predicate Collected(cube: Cube, dims: Dims, data: Matrix, d: int, r: int, c: int)
    reads Buffers(cube)
  {
    forall cell ::
      (cell in data <==> cell in Attrs(cube) && InGrid(dims, cell) && DoneAt(cell, d, r, c))
      && (cell in data ==> data[cell] == Triples(Attrs(cube)[cell].buffer[..]))
  }

  /** `extractSubPixelMatrix`. */
  method ExtractSubPixelMatrix(cube: Cube) returns (m: Option<Matrix>)
    ensures m == Extracted(cube)
  {
    if cube.subMatrix.None? || cube.subInfo.None? {
      return None;
    }
    var dims := cube.subInfo.value;
    var data: Matrix := map[];
    var d := 0;
    while d < dims.layers
      invariant Collected(cube, dims, data, d, 0, 0)
    {
      data := ExtractLayer(cube, dims, data, d);
      d := d + 1;
    }
    assert forall cell :: InGrid(dims, cell) ==> DoneAt(cell, d, 0, 0);
    var e := Extracted(cube).value;
    assert forall cell :: cell in data <==> cell in e;
    assert forall cell :: cell in data ==> data[cell] == e[cell];
    assert data == e;
    return Some(data);
  }

  /** The row loop of one layer. */
  method ExtractLayer(cube: Cube, dims: Dims, data0: Matrix, d: int) returns (data: Matrix)
    requires cube.subMatrix.Some? && 0 <= d < dims.layers
    requires Collected(cube, dims, data0, d, 0, 0)
    ensures Collected(cube, dims, data, d + 1, 0, 0)
  {
    data := data0;
    var r := 0;
    while r < dims.rows
      invariant Collected(cube, dims, data, d, if r < 0 then 0 else r, 0)
    {
      data := ExtractRow(cube, dims, data, d, r);
      r := r + 1;
    }
    assert forall cell :: InGrid(dims, cell) ==> (DoneAt(cell, d, if r < 0 then 0 else r, 0) <==> DoneAt(cell, d + 1, 0, 0));
  }

  /** The column loop of one row. */
  method ExtractRow(cube: Cube, dims: Dims, data0: Matrix, d: int, r: int) returns (data: Matrix)
    requires cube.subMatrix.Some? && 0 <= d < dims.layers && 0 <= r < dims.rows
    requires Collected(cube, dims, data0, d, r, 0)
    ensures Collected(cube, dims, data, d, r + 1, 0)
  {
    data := data0;
    var attrs := cube.subMatrix.value;
    var c := 0;
    while c < dims.cols
      invariant Collected(cube, dims, data, d, r, if c < 0 then 0 else c)
    {
      var cell := Cell(r, c, d);
      if cell in attrs {
        var verts := ReadTriples(attrs[cell]);
        data := data[cell := verts];
      }
      c := c + 1;
    }
    assert forall cell :: InGrid(dims, cell) ==> (DoneAt(cell, d, r, if c < 0 then 0 else c) <==> DoneAt(cell, d, r + 1, 0));
  }

  // ---------------------------------------------------------------------
  // apply
  // ---------------------------------------------------------------------

  /** The vertex loop of `applySubPixelMatrix` on one attribute, then the update flag. */
  method ApplyToAttr(attr: VertexAttr, verts: seq<Option<Rgb>>)
    modifies attr, attr.buffer
    ensures attr.buffer[..] == Overwrite(old(attr.buffer[..]), verts)
    ensures attr.needsUpdate
  {
    var a := attr.buffer;
    var n := if a.Length / 3 < |verts| then a.Length / 3 else |verts|;
    for vi := 0 to n
      invariant forall k :: 0 <= k < a.Length ==>
        a[k] == if k / 3 < vi && verts[k / 3].Some? then Channel(verts[k / 3].value, k % 3) else old(a[k])
    {
      if verts[vi].Some? {
        var col := verts[vi].value;
        a[vi * 3] := col.r;
        a[vi * 3 + 1] := col.g;
        a[vi * 3 + 2] := col.b;
      }
    }
    attr.needsUpdate := true;
  }

  /** The state of one cell's attribute once every cell before (d, r, c) is visited. */
  ghost predicate AppliedCell(cube: Cube, matrix: Option<Matrix>, before: map<Cell, seq<real>>, flags: map<Cell, bool>,
                              d: int, r: int, c: int, cell: Cell)
    requires cell in Attrs(cube)
    reads Attrs(cube)[cell], Attrs(cube)[cell].buffer
  {
    cell in before && cell in flags
    && var hit := Hit(cube, matrix, cell) && DoneAt(cell, d, r, c);
       Attrs(cube)[cell].buffer[..] == (if hit then Overwrite(before[cell], matrix.value[cell]) else before[cell])
       && Attrs(cube)[cell].needsUpdate == (hit || flags[cell])
  }

  /** The state of every attribute once every cell before (d, r, c) is visited. */
  ghost predicate Applied(cube: Cube, matrix: Option<Matrix>, before: map<Cell, seq<real>>, flags: map<Cell, bool>,
                          d: int, r: int, c: int)
    reads AttrObjects(cube), Buffers(cube)
  {
    forall cell :: cell in Attrs(cube) ==> AppliedCell(cube, matrix, before, flags, d, r, c, cell)
  }

  /**
   * `applySubPixelMatrix`: every in-grid cell with an entry and an attribute
   * has its buffer overwritten by the entry and its update flag set; every
   * other attribute is left as it was.
   */
  method ApplySubPixelMatrix(cube: Cube, matrix: Option<Matrix>)
    requires Separate(Attrs(cube))
    modifies AttrObjects(cube), Buffers(cube)
    ensures forall cell :: cell in Attrs(cube) ==>
      Attrs(cube)[cell].buffer[..]
        == (if Hit(cube, matrix, cell) then Overwrite(old(Attrs(cube)[cell].buffer[..]), matrix.value[cell])
            else old(Attrs(cube)[cell].buffer[..]))
      && Attrs(cube)[cell].needsUpdate == (Hit(cube, matrix, cell) || old(Attrs(cube)[cell].needsUpdate))
  {
    if matrix.None? || cube.subMatrix.None? || cube.subInfo.None? {
      return;
    }
    var dims := cube.subInfo.value;
    ghost var before := map cell | cell in Attrs(cube) :: Attrs(cube)[cell].buffer[..];
    ghost var flags := map cell | cell in Attrs(cube) :: Attrs(cube)[cell].needsUpdate;
    var d := 0;
    while d < dims.layers
      invariant Applied(cube, matrix, before, flags, d, 0, 0)
    {
      ApplyLayer(cube, matrix, before, flags, d);
      d := d + 1;
    }
    assert forall cell :: cell in Attrs(cube) ==> (Hit(cube, matrix, cell) && DoneAt(cell, d, 0, 0) <==> Hit(cube, matrix, cell));
  }

  /** The row loop of one layer. */
  method ApplyLayer(cube: Cube, matrix: Option<Matrix>, ghost before: map<Cell, seq<real>>, ghost flags: map<Cell, bool>, d: int)
    requires Separate(Attrs(cube)) && matrix.Some? && cube.subMatrix.Some? && cube.subInfo.Some?
    requires 0 <= d < cube.subInfo.value.layers
    requires Applied(cube, matrix, before, flags, d, 0, 0)
    modifies AttrObjects(cube), Buffers(cube)
    ensures Applied(cube, matrix, before, flags, d + 1, 0, 0)
  {
    var dims := cube.subInfo.value;
    var r := 0;
    while r < dims.rows
      invariant Applied(cube, matrix, before, flags, d, if r < 0 then 0 else r, 0)
    {
      ApplyRow(cube, matrix, before, flags, d, r);
      r := r + 1;
    }
    assert forall cell :: InGrid(dims, cell) ==> (DoneAt(cell, d, if r < 0 then 0 else r, 0) <==> DoneAt(cell, d + 1, 0, 0));
  }

  /** The column loop of one row. */
  method ApplyRow(cube: Cube, matrix: Option<Matrix>, ghost before: map<Cell, seq<real>>, ghost flags: map<Cell, bool>,
                  d: int, r: int)
    requires Separate(Attrs(cube)) && matrix.Some? && cube.subMatrix.Some? && cube.subInfo.Some?
    requires 0 <= d < cube.subInfo.value.layers && 0 <= r < cube.subInfo.value.rows
    requires Applied(cube, matrix, before, flags, d, r, 0)
    modifies AttrObjects(cube), Buffers(cube)
    ensures Applied(cube, matrix, before, flags, d, r + 1, 0)
  {
    var dims := cube.subInfo.value;
    var c := 0;
    while c < dims.cols
      invariant Applied(cube, matrix, before, flags, d, r, if c < 0 then 0 else c)
    {
      ApplyCell(cube, matrix, before, flags, d, r, c);
      c := c + 1;
    }
    assert forall cell :: InGrid(dims, cell) ==> (DoneAt(cell, d, r, if c < 0 then 0 else c) <==> DoneAt(cell, d, r + 1, 0));
  }

  /** The body of the column loop: cell (r, c, d). */
  method ApplyCell(cube: Cube, matrix: Option<Matrix>, ghost before: map<Cell, seq<real>>, ghost flags: map<Cell, bool>,
                   d: int, r: int, c: int)
    requires Separate(Attrs(cube)) && matrix.Some? && cube.subMatrix.Some? && cube.subInfo.Some?
    requires 0 <= d < cube.subInfo.value.layers && 0 <= r < cube.subInfo.value.rows && 0 <= c < cube.subInfo.value.cols
    requires Applied(cube, matrix, before, flags, d, r, c)
    modifies AttrObjects(cube), Buffers(cube)
    ensures Applied(cube, matrix, before, flags, d, r, c + 1)
  {
    var attrs := cube.subMatrix.value;
    var m := matrix.value;
    var here := Cell(r, c, d);
    if here in m && here in attrs {
      ApplyToAttr(attrs[here], m[here]);
      forall cell | cell in attrs
        ensures AppliedCell(cube, matrix, before, flags, d, r, c + 1, cell)
      {
        assert old(AppliedCell(cube, matrix, before, flags, d, r, c, cell));
        if cell != here {
          assert attrs[cell] != attrs[here] && attrs[cell].buffer != attrs[here].buffer;
          assert attrs[cell].buffer[..] == old(attrs[cell].buffer[..]);
          assert attrs[cell].needsUpdate == old(attrs[cell].needsUpdate);
        }
      }
    }
  }

  // ---------------------------------------------------------------------
  // Properties
  // ---------------------------------------------------------------------

  /** Writing a buffer's own triples back changes nothing. */
  lemma OverwriteOwnTriples(buf: seq<real>)
    ensures Overwrite(buf, Triples(buf)) == buf
  {
    forall k | 0 <= k < |buf|
      ensures Overwrite(buf, Triples(buf))[k] == buf[k]
    {
      var vi := k / 3;
      if vi < |buf| / 3 {
        assert k == 3 * vi + k % 3;
      }
    }
  }

  /** Reading back after a write returns every triple that was written, and the old triple elsewhere. */
  lemma TriplesAfterOverwrite(buf: seq<real>, verts: seq<Option<Rgb>>)
    ensures forall vi :: 0 <= vi < |buf| / 3 ==>
      Triples(Overwrite(buf, verts))[vi] == if vi < |verts| && verts[vi].Some? then verts[vi] else Triples(buf)[vi]
  {
    var w := Overwrite(buf, verts);
    forall vi | 0 <= vi < |buf| / 3
      ensures Triples(w)[vi] == if vi < |verts| && verts[vi].Some? then verts[vi] else Triples(buf)[vi]
    {
      assert (3 * vi) / 3 == vi && (3 * vi + 1) / 3 == vi && (3 * vi + 2) / 3 == vi;
      assert (3 * vi) % 3 == 0 && (3 * vi + 1) % 3 == 1 && (3 * vi + 2) % 3 == 2;
    }
  }

  /** Applying the same entry twice is applying it once. */
  lemma OverwriteIdempotent(buf: seq<real>, verts: seq<Option<Rgb>>)
    ensures Overwrite(Overwrite(buf, verts), verts) == Overwrite(buf, verts)
  {
  }

  /**
   * The extracted matrix has exactly the in-grid cells with an attribute,
   * each holding `count` non-null triples.
   */
  lemma ExtractedShape(cube: Cube)
    requires cube.subMatrix.Some? && cube.subInfo.Some?
    ensures Extracted(cube).Some?
    ensures forall cell :: cell in Extracted(cube).value <==> cell in Attrs(cube) && InGrid(cube.subInfo.value, cell)
    ensures forall cell :: cell in Extracted(cube).value ==>
      |Extracted(cube).value[cell]| == Attrs(cube)[cell].Count()
      && forall vi :: 0 <= vi < |Extracted(cube).value[cell]| ==> Extracted(cube).value[cell][vi].Some?
  {
  }

  /**
   * Applying the matrix extracted from a cube to that same cube leaves every
   * buffer as it was (only the update flags are raised).
   */
  lemma ApplyExtractedKeepsColours(cube: Cube)
    requires cube.subMatrix.Some? && cube.subInfo.Some?
    ensures forall cell :: cell in Attrs(cube) && Hit(cube, Extracted(cube), cell) ==>
      Overwrite(Attrs(cube)[cell].buffer[..], Extracted(cube).value[cell]) == Attrs(cube)[cell].buffer[..]
  {
    forall cell | cell in Attrs(cube) && Hit(cube, Extracted(cube), cell)
      ensures Overwrite(Attrs(cube)[cell].buffer[..], Extracted(cube).value[cell]) == Attrs(cube)[cell].buffer[..]
    {
      OverwriteOwnTriples(Attrs(cube)[cell].buffer[..]);
    }
  }

  /** Round trip through the methods: extract, then apply, leaves every colour buffer unchanged. */
  method ExtractThenApply(cube: Cube)
    requires Separate(Attrs(cube))
    modifies AttrObjects(cube), Buffers(cube)
    ensures forall cell :: cell in Attrs(cube) ==> Attrs(cube)[cell].buffer[..] == old(Attrs(cube)[cell].buffer[..])
  {
    var m := ExtractSubPixelMatrix(cube);
    if cube.subMatrix.Some? && cube.subInfo.Some? {
      ApplyExtractedKeepsColours(cube);
    }
    ApplySubPixelMatrix(cube, m);
  }
}
