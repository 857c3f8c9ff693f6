/**
 * The per-cube state of main.js (`cube.userData`) and the three operations
 * that update it in place: blendAllSubCubeColors, applyWeightToSubCube and
 * createSubCubeGrid. The loops they run live in MainGrid.
 */
module CubeState {
  import opened Scene
  import SubpixelMatrix
  import MainGrid

  /**
   * The part of a cube's `userData` these operations use: the grid extents,
   * the colour attribute of each subcube, one colour triple and one weight
   * per cell in flat buffers, and the saved per-cell colours and weights of
   * its `metaData` (colours already parsed).
   */
  class CubeData {
    var subInfo: Option<Dims>
    var subMatrix: Option<map<Cell, VertexAttr>>
    var colorBuffer: Option<array<real>>
    var weightBuffer: Option<array<real>>
    var subColors: map<Cell, Rgb>
    var subWeights: map<Cell, real>

    constructor ()
      ensures subInfo.None? && subMatrix.None? && colorBuffer.None? && weightBuffer.None?
      ensures subColors == map[] && subWeights == map[]
    {
      subInfo := None;
      subMatrix := None;
      colorBuffer := None;
      weightBuffer := None;
      subColors := map[];
      subWeights := map[];
    }

    /** The cube as the sub-pixel matrix functions see it. */
    function View(): SubpixelMatrix.Cube
      reads this
    {
      SubpixelMatrix.Cube(subInfo, subMatrix)
    }

    function ColorArrays(): set<array<real>>
      reads this
    {
      if colorBuffer.Some? then {colorBuffer.value} else {}
    }

    function WeightArrays(): set<array<real>>
      reads this
    {
      if weightBuffer.Some? then {weightBuffer.value} else {}
    }

    /** `weightBuffer || []`. */
    function Weights(): seq<real>
      reads this, WeightArrays()
    {
      if weightBuffer.Some? then weightBuffer.value[..] else []
    }

    /** The colour buffer is neither a subcube's colour attribute nor the weight buffer. */
    predicate ColorsApart()
      reads this
    {
      colorBuffer.Some? ==>
        (subMatrix.Some? ==> MainGrid.ApartFrom(subMatrix.value, colorBuffer.value))
        && (weightBuffer.Some? ==> weightBuffer.value != colorBuffer.value)
    }

    /**
     * blendAllSubCubeColors for this cube: nothing without subInfo,
     * subMatrix or colorBuffer; otherwise every cell's triple is set as
     * Blended describes.
     */
    method BlendAllSubCubeColors()
      requires ColorsApart()
      modifies ColorArrays()
      ensures colorBuffer.Some? ==>
        colorBuffer.value[..] ==
          (if subInfo.Some? && subMatrix.Some?
           then MainGrid.Blended(subInfo.value, MainGrid.Snapshot(subMatrix.value), Weights(), old(colorBuffer.value[..]))
           else old(colorBuffer.value[..]))
    {
      if subInfo.None? || subMatrix.None? {
        return;
      }
      var weights := if weightBuffer.Some? then weightBuffer.value[..] else [];
      if colorBuffer.None? {
        return;
      }
      MainGrid.BlendGrid(subInfo.value, subMatrix.value, weights, colorBuffer.value);
    }

    /**
     * applyWeightToSubCube: the subcube nearest the centred coordinates
     * gets the weight, both in the weight buffer (when its index lies in
     * the buffer) and in the saved weights; nothing else changes.
     */
    method ApplyWeightToSubCube(row: real, col: real, layer: real, weightVal: real)
      modifies this, WeightArrays()
      ensures subInfo == old(subInfo) && subMatrix == old(subMatrix) && colorBuffer == old(colorBuffer)
      ensures weightBuffer == old(weightBuffer) && subColors == old(subColors)
      ensures var t := MainGrid.Target(subInfo, subMatrix, row, col, layer);
        subWeights == (if t.Some? then old(subWeights)[t.value := weightVal] else old(subWeights))
        && (weightBuffer.Some? ==> weightBuffer.value[..] == MainGrid.WeightEdit(old(weightBuffer.value[..]), subInfo, t, weightVal))
    {
      if subMatrix.None? || subInfo.None? {
        return;
      }
      var layers, rows, cols := subInfo.value.layers, subInfo.value.rows, subInfo.value.cols;
      var d := MainGrid.CoordToIndex(layer, layers);
      var r := MainGrid.CoordToIndex(row, rows);
      var c := MainGrid.CoordToIndex(col, cols);
      if Cell(r, c, d) in subMatrix.value {
        var bufferIndex := d * rows * cols + r * cols + c;
        if weightBuffer.Some? && 0 <= bufferIndex < weightBuffer.value.Length {
          weightBuffer.value[bufferIndex] := weightVal;
        }
        subWeights := subWeights[Cell(r, c, d) := weightVal];
      }
    }

    /**
     * createSubCubeGrid: extents from the controls; the colour and weight
     * buffers kept when they already have the size the grid needs,
     * otherwise freshly allocated (zeros, and ones for the weights); every
     * cell's colour and weight set as InitialColors and InitialWeights
     * describe; one fresh container per cell holding its colour; the GPU
     * read-back when read is given and no colour is saved (Painted); and
     * last the blend of the new grid. GridCreated states the result. read
     * holds the pixels the GPU delivers, or None without a GPU; initGPU
     * sizes its texture to at least one pixel per cell.
     */
    method CreateSubCubeGrid(rowsCtl: real, colsCtl: real, depthCtl: real, defaultColor: Rgb, read: Option<seq<real>>)
      requires colorBuffer.Some? && weightBuffer.Some? ==> colorBuffer.value != weightBuffer.value
      requires read.Some? ==> 4 * MainGrid.Size(MainGrid.GridDims(rowsCtl, colsCtl, depthCtl)) <= |read.value|
      modifies this, ColorArrays(), WeightArrays()
      ensures subColors == old(subColors) && subWeights == old(subWeights)
      ensures var g := MainGrid.Setup(MainGrid.GridDims(rowsCtl, colsCtl, depthCtl), subColors, subWeights, defaultColor,
                             old(colorBuffer), old(weightBuffer));
        subInfo == Some(g.dims) && colorBuffer.Some? && weightBuffer.Some? && subMatrix.Some?
        && (if g.keepColors then colorBuffer == old(colorBuffer) else fresh(colorBuffer.value))
        && (if g.keepWeights then weightBuffer == old(weightBuffer) else fresh(weightBuffer.value))
        && MainGrid.GridCreated(g, old(MainGrid.Contents(colorBuffer)), old(MainGrid.Contents(weightBuffer)), read,
                                colorBuffer.value, weightBuffer.value, subMatrix.value)
      ensures forall cell :: cell in subMatrix.value ==> fresh(subMatrix.value[cell]) && fresh(subMatrix.value[cell].buffer)
      ensures ColorsApart()
    {
      var g := MainGrid.Setup(MainGrid.GridDims(rowsCtl, colsCtl, depthCtl), subColors, subWeights, defaultColor, colorBuffer, weightBuffer);
      ghost var keptColors, keptWeights := MainGrid.Contents(colorBuffer), MainGrid.Contents(weightBuffer);
      var colors, weights, containers := MainGrid.NewGrid(g, colorBuffer, weightBuffer, read);
      Install(g, keptColors, keptWeights, read, colors, weights, containers);
    }

    /** Store a new grid in the cube's fields. */
    method Install(g: MainGrid.GridSetup, ghost keptColors: seq<real>, ghost keptWeights: seq<real>, ghost read: Option<seq<real>>,
                   colors: array<real>, weights: array<real>, containers: map<Cell, VertexAttr>)
      requires MainGrid.Positive(g.dims) && (read.Some? ==> 4 * MainGrid.Size(g.dims) <= |read.value|)
      requires MainGrid.GridCreated(g, keptColors, keptWeights, read, colors, weights, containers)
      modifies this
      ensures subInfo == Some(g.dims) && subMatrix == Some(containers)
      ensures colorBuffer == Some(colors) && weightBuffer == Some(weights)
      ensures subColors == old(subColors) && subWeights == old(subWeights)
      ensures MainGrid.GridCreated(g, keptColors, keptWeights, read, colors, weights, containers)
    {
      colorBuffer, weightBuffer, subInfo, subMatrix := Some(colors), Some(weights), Some(g.dims), Some(containers);
    }
  }
}
