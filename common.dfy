/**
 * Shared vocabulary of the cube/subcube scene: optional values, grid cells,
 * grid extents, colours and the per-cell vertex colour attribute.
 */
module Scene {

  /** A value that may be missing (JavaScript `null`/`undefined`). */
  datatype Option<T> = None | Some(value: T)

  /**
   * One cell of a cube's subdivision grid. The source keys cells by the
   * strings `${r},${c},${d}` and `${r}_${c}_${d}`; both formats are
   * injective on integers, so the model keys by the cell itself.
   */
  datatype Cell = Cell(row: int, col: int, layer: int)

  /** The grid extents a cube records in its `subInfo`. */
  datatype Dims = Dims(rows: int, cols: int, layers: int)

  predicate InGrid(dims: Dims, c: Cell)
  {
    0 <= c.row < dims.rows && 0 <= c.col < dims.cols && 0 <= c.layer < dims.layers
  }

  /** An RGB colour whose channels are normalised reals (nominally in [0, 1]). */
  datatype Rgb = Rgb(r: real, g: real, b: real)

  /**
   * The colour attribute of one subcube's point geometry: a fixed-size
   * buffer of `3 * count` reals, three per vertex, and the flag that asks
   * the renderer to re-upload it.
   */
  class VertexAttr {
    const buffer: array<real>
    var needsUpdate: bool

    /** The number of vertices the buffer holds (`array.length / itemSize`). */
    function Count(): nat
    {
      buffer.Length / 3
    }

    constructor (values: array<real>)
      ensures buffer == values && !needsUpdate
    {
      buffer := values;
      needsUpdate := false;
    }
  }
}
