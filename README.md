# cubeSubCube core, modelled in Dafny

cubeSubCube draws wire-frame cubes whose volume is split into a grid of
subcubes (rows × columns × layers). Each subcube has eight coloured vertices.
A per-cube colour buffer holds one RGB triple per subcube, and a weight
buffer holds one weight per subcube. Subcubes are named by short letter
symbols ("AA", "BA", "CA", …) in a canonical centre-first order. Vertex colours are
blended into one colour per subcube. An IndexedDB store keeps cubes,
subcubes and vertices per browser window. A small GPU ping-pong helper runs
fragment-shader "variables" over pairs of render targets.

The Dafny project models these parts:

- `common.dfy` (module `Scene`): cells, grid extents, RGB colours, and
  `VertexAttr`, the colour attribute of a subcube's points (a fixed array
  of reals updated in place, plus its `needsUpdate` flag).
- `symbol_utils.dfy` (module `SymbolUtils`): symbol generation, the
  canonical subcube order and the two lookups between cells and symbols.
- `subcube_blending.dfy` (module `SubcubeBlending`): `blendVertices` with
  its four modes and clamping.
- `subpixel_matrix.dfy` (module `SubpixelMatrix`): extracting the
  per-vertex colour triples of a cube into a dictionary keyed by cell, and
  writing such a dictionary back into the attributes in place.
- `gpu_computation.dfy` (module `GpuComputation`): the variable registry,
  `init`, `compute` and the render-target accessors. The GPU is a function
  parameter.
- `db.dfy` (module `CubeStore`): the three object stores as maps keyed by
  primary key, every db.js operation as one atomic update, index queries
  as filters, and the schema migration.
- `grid_helpers.dfy` (module `MainGrid`): main.js's grid helpers. These are
  centred coordinates, the linear buffer index, the blend tags of a
  vertex, the 8-bit colour conversion, blending every subcube into the
  colour buffer, editing one weight, and building a new grid: its buffers,
  one point container per subcube, and the colours read back from the GPU.
- `cube_state.dfy` (module `CubeState`): the per-cube state
  (`cube.userData`) as a class whose methods update it in place:
  blendAllSubCubeColors, applyWeightToSubCube and createSubCubeGrid.

Each loop of the modelled operations is a method proved against a
specification function. The properties of that function are proved as lemmas.

Three behaviours of the code that the model keeps as written:

- The migration in db.js (lines 259-305) does not detect data that is
  already migrated. It re-puts the derived subcube rows on every open. The
  model does the same. `PopulateIdempotent` shows that a second run over
  the same cubes changes nothing.
- `init` (GPUComputationRenderer.js:65-83) accepts a dependency on any
  declared variable, including one declared after the dependent variable.
  It is not limited to variables declared earlier.
- Symbols are right-padded single letters (symbolUtils.js:11). Positions
  k and 26·k (1 ≤ k ≤ 25) therefore get the same symbol. The model keeps
  this collision and proves exactly where it occurs.

## Model

| member | source | states |
|---|---|---|
| SymbolUtils.GenerateSymbol | symbolUtils.js:3-12 | the do-while loop returns Symbol(index): base-26 capital letters, most significant first, at most four, right-padded to two with 'A' |
| SymbolUtils.SymbolInjectiveBelow26 | symbolUtils.js:3-12 | two positions below 26 with the same symbol are equal |
| SymbolUtils.SymbolCollides | symbolUtils.js:7-11 | for 1 ≤ k ≤ 25, positions k and 26·k get the same symbol although they differ |
| SymbolUtils.SymbolDecodes | symbolUtils.js:3-12 | reading a symbol back as base 26 gives its position, except that a padded single letter reads as 26 times it |
| SymbolUtils.SymbolCollisionsExactly | symbolUtils.js:3-12 | below 26^4, two positions i < j share a symbol if and only if 1 ≤ i ≤ 25 and j = 26·i |
| SymbolUtils.CenterAndCorners | symbolUtils.js:40-73 | the first two steps of the order list the centre and then each corner cell that holds a group and is not listed yet |
| SymbolUtils.OrderSubCubes | symbolUtils.js:36-89 | the nested loops with the `added` set return Order: empty without subInfo or subMatrix, else centre, corners and raster order, each present cell pushed once |
| SymbolUtils.ProcessFacts | symbolUtils.js:42-52 | the guarded push yields a list with no repetition holding exactly the offered cells that hold a group |
| SymbolUtils.OrderFacts | symbolUtils.js:36-89 | the order lists each candidate cell that holds a group exactly once and nothing else; it is empty when subInfo or subMatrix is missing |
| SymbolUtils.LayersOfMembers | symbolUtils.js:76-87 | the raster pass offers exactly the in-range cells |
| SymbolUtils.LayersOfOrder | symbolUtils.js:76-87 | the raster pass has layers × rows × columns entries, and entry i is the cell whose raster position (layer, then row, then column) is i |
| SymbolUtils.FullOrderIsPermutation | symbolUtils.js:36-89 | on a fully populated grid the order is a permutation of all rows·cols·layers cells |
| SymbolUtils.FullOrderStartsAtCenter | symbolUtils.js:40-55 | on a fully populated grid the first entry is the centre cell (floor of half of each extent) |
| SymbolUtils.OrderShape | symbolUtils.js:36-89 | the order is the processed centre and corners, followed by the raster cells that hold a group and are not yet listed, in raster order |
| SymbolUtils.GetSubCubeSymbol | symbolUtils.js:14-23 | the linear search returns the symbol of the cell's position in the order, or "AA" |
| SymbolUtils.CellSymbolMeaning | symbolUtils.js:14-23 | a listed cell gets the symbol of its first position; an unlisted cell gets "AA" |
| SymbolUtils.GetRowColLayerFromSymbol | symbolUtils.js:25-34 | the search returns the first listed cell whose position has this symbol, else (0, 0, 0) |
| SymbolUtils.SymbolCellMeaning | symbolUtils.js:25-34 | the cell found is the one at the first position whose symbol matches; with no match the answer is (0, 0, 0) |
| SymbolUtils.CellSymbolRoundTrip | symbolUtils.js:14-34 | with at most 26 listed cells, cell → symbol → cell is the identity |
| SymbolUtils.SymbolCellRoundTrip | symbolUtils.js:14-34 | with at most 26 listed cells, symbol → cell → symbol is the identity on the symbols in use |
| SymbolUtils.RoundTripFailsFrom27 | symbolUtils.js:14-34 | with 27 or more listed cells, the 27th cell's symbol "BA" resolves back to the second cell |
| SymbolUtils.LookupsInverse | symbolUtils.js:14-89 | for a grid whose order has at most 26 entries, the two lookups are mutual inverses |
| SubcubeBlending.BlendVertices | subcubeBlending.js:1-36 | the forEach loops compute Blend: black for a missing or empty list; the per-channel maximum for 'max'; the first vertex for 'layered'; the weighted mean otherwise; always clamped |
| SubcubeBlending.MaxBlend | subcubeBlending.js:8-16 | the running maximum from black, clamped, is the 'max' blend |
| SubcubeBlending.SumBlend | subcubeBlending.js:18-35 | the accumulated weighted sums and total give the blend of every mode other than 'max' |
| SubcubeBlending.BlendInUnit | subcubeBlending.js:6 | every channel of every blend lies in [0, 1] |
| SubcubeBlending.EmptyIsBlack | subcubeBlending.js:2-4 | a missing or empty vertex list blends to black in every mode |
| SubcubeBlending.RunMaxIsMaximum | subcubeBlending.js:9-14 | the running maximum bounds black and every vertex colour per channel, and each channel is 0 or some vertex's channel |
| SubcubeBlending.MaxBlendBoundsEveryVertex | subcubeBlending.js:8-16 | 'max' is the clamped running maximum and bounds the clamped colour of every vertex |
| SubcubeBlending.NonPositiveWeightIsBlack | subcubeBlending.js:34-35 | in 'weighted' mode a total weight that is not positive gives black |
| SubcubeBlending.WeightedExample | subcubeBlending.js:18-35 | red with weight 1 and green with weight 3 blend to (0.25, 0.75, 0) |
| SubcubeBlending.MeanModes | subcubeBlending.js:18-35 | every mode other than 'max' and 'layered' gives the clamped weighted sums times the inverse total |
| SubcubeBlending.UniformSums | subcubeBlending.js:21-27 | with every weight equal to w, the sums are w times the plain colour sums and the total is n·w |
| SubcubeBlending.ColourSumOfOne | subcubeBlending.js:21-27 | summing n vertices of one colour gives n times that colour |
| SubcubeBlending.AverageOfOneColour | subcubeBlending.js:18-35 | the 'average' blend of vertices that all carry one colour is that colour, clamped |
| SubcubeBlending.AverageIsMean | subcubeBlending.js:18-35 | 'average' and any unrecognised mode give the clamped arithmetic mean of each channel |
| SubcubeBlending.UniformWeightIsAverage | subcubeBlending.js:22 | weighted blending with the same positive weight on every vertex equals the average |
| SubcubeBlending.MissingWeightIsOne | subcubeBlending.js:22 | a missing weight reads as 1, so weighted blending of unweighted vertices equals the average |
| SubcubeBlending.LayeredIsFirst | subcubeBlending.js:29-32 | 'layered' returns the clamped first vertex colour, whatever follows it |
| SubpixelMatrix.ReadTriples | subpixelMatrix.js:13-21 | the vertex loop reads one colour triple per vertex, `count` of them |
| SubpixelMatrix.ExtractSubPixelMatrix | subpixelMatrix.js:1-26 | null without subMatrix or subInfo; otherwise a map from every in-grid cell with an attribute to its triples |
| SubpixelMatrix.ExtractedShape | subpixelMatrix.js:1-26 | the extracted map has exactly the in-grid cells with an attribute, each with `count` non-null triples |
| SubpixelMatrix.ApplySubPixelMatrix | subpixelMatrix.js:28-52 | each hit cell's buffer is overwritten by its entry's non-null triples below `count`, and its flag is raised; every other buffer and flag is unchanged |
| SubpixelMatrix.OverwriteOwnTriples | subpixelMatrix.js:41-46 | writing a buffer's own triples back leaves it unchanged |
| SubpixelMatrix.TriplesAfterOverwrite | subpixelMatrix.js:41-46 | after a write, each triple reads back as written, or as before where the entry is short or null |
| SubpixelMatrix.OverwriteIdempotent | subpixelMatrix.js:41-46 | applying the same entry twice equals applying it once |
| SubpixelMatrix.ApplyExtractedKeepsColours | subpixelMatrix.js:1-52 | applying the matrix extracted from a cube to the same cube leaves every buffer as it was |
| SubpixelMatrix.ExtractThenApply | subpixelMatrix.js:1-52 | extract followed by apply, run as methods, leaves every colour buffer unchanged |
| GpuComputation.ComputationRenderer.AddVariable | GPUComputationRenderer.js:26-41 | appends a variable with no dependencies, targets or uniforms; the handle is its position |
| GpuComputation.ComputationRenderer.SetVariableDependencies | GPUComputationRenderer.js:43-45 | replaces one variable's dependency list and changes nothing else |
| GpuComputation.ComputationRenderer.IsDeclared | GPUComputationRenderer.js:69-75 | the search loop finds a name exactly when some declared variable has it |
| GpuComputation.ComputationRenderer.Init | GPUComputationRenderer.js:47-87 | without float textures or vertex textures it fails with the matching message and changes nothing; otherwise it runs the variable loop, stopping at the first error, and resets the index to 0 on success |
| GpuComputation.ComputationRenderer.InitVariables | GPUComputationRenderer.js:56-84 | the variable loop computes InitUpTo over all variables |
| GpuComputation.ComputationRenderer.InitOne | GPUComputationRenderer.js:56-84 | one iteration prepares variable i, or reports its first unresolved dependency |
| GpuComputation.InitVariableMeaning | GPUComputationRenderer.js:56-84 | a variable passes exactly when each dependency names itself or a declared variable, and it is then Prepared |
| GpuComputation.DeclareUpToMeaning | GPUComputationRenderer.js:65-83 | the dependency loop succeeds exactly when each dependency resolves; then each dependency gets a null uniform and a sampler declaration |
| GpuComputation.InitSucceedsIff | GPUComputationRenderer.js:56-85 | init's loop succeeds exactly when every dependency of every variable resolves, and then every variable is Prepared |
| GpuComputation.InitFailure | GPUComputationRenderer.js:76-78 | a failure names the first variable with an unresolved dependency; earlier variables are prepared and later ones untouched |
| GpuComputation.FailingDependency | GPUComputationRenderer.js:76-78 | a failed dependency loop reports the not-found message for a dependency that does not resolve |
| GpuComputation.PreparedTargets | GPUComputationRenderer.js:56-61 | after init a variable has exactly two render targets, both seeded with its initial texture |
| GpuComputation.DeclaredAppend | GPUComputationRenderer.js:80-81 | declaring a then b equals declaring b in front of the result of declaring a |
| GpuComputation.DeclaredKeepsShader | GPUComputationRenderer.js:80-81 | the original shader text stays at the end, after all the declarations |
| GpuComputation.NulledMeaning | GPUComputationRenderer.js:80 | init adds a null uniform for exactly the dependencies and keeps every other uniform |
| GpuComputation.InitWellBound | GPUComputationRenderer.js:47-87 | a successful init of fresh variables leaves every uniform one of its dependencies, and the renderer ready at index 0 |
| GpuComputation.ComputationRenderer.Compute | GPUComputationRenderer.js:89-104 | each variable in turn has its dependencies bound and renders into the alternate target; the index flips |
| GpuComputation.BindUniforms | GPUComputationRenderer.js:94-100 | the binding loop computes BindAll |
| GpuComputation.BindAllMeaning | GPUComputationRenderer.js:94-100 | binding gives every dependency the current target and keeps every other uniform |
| GpuComputation.SampledCurrent | GPUComputationRenderer.js:94-101 | samplers bound to the current target of exactly the dependencies read those dependencies' current textures |
| GpuComputation.ComputeReadsPreStep | GPUComputationRenderer.js:89-104 | every variable reads the pre-step current targets, whatever earlier variables wrote in the same step |
| GpuComputation.PingPong | GPUComputationRenderer.js:89-104 | after compute, each alternate target holds the GPU output over the pre-step inputs; the old current target is kept |
| GpuComputation.NextTwice | GPUComputationRenderer.js:103 | the index flips and two computes restore it |
| GpuComputation.ComputationRenderer.CurrentTarget | GPUComputationRenderer.js:106-108 | the target at the current index exists exactly when the variable has that target |
| GpuComputation.ComputationRenderer.AlternateTarget | GPUComputationRenderer.js:110-112 | the other target exists exactly when the variable has it |
| CubeStore.CubeDB.constructor | db.js:8-33 | the three stores start empty |
| CubeStore.CubeDB.SaveCube | db.js:69-78 | upserts the cube row under cubeId and changes no other store |
| CubeStore.CubeDB.SaveSubCube | db.js:97-132 | upserts the subcube row under the parent cube's stored subId at `order` when it exists, else under the given subId |
| CubeStore.CubeDB.SaveVertex | db.js:160-170 | upserts the vertex row under `${subId}_${index}` and changes no other store |
| CubeStore.CubeDB.LoadCubes | db.js:80-95 | lists exactly the window's cube rows, unpacked, each once |
| CubeStore.CubeDB.LoadSubCubes | db.js:134-158 | lists exactly the window's subcubes of the cube, each once, sorted by order |
| CubeStore.CubeDB.LoadVertices | db.js:172-191 | lists exactly the window's vertices of the cube with subCubeId = subId, each once |
| CubeStore.CubeDB.DeleteSubCubesByCube | db.js:193-203 | removes exactly the subcube rows whose cubeId matches |
| CubeStore.CubeDB.DeleteVerticesByCube | db.js:205-215 | removes exactly the vertex rows whose cubeId matches |
| CubeStore.CubeDB.DeleteCube | db.js:217-225 | removes the one cube row; its subcubes and vertices stay |
| CubeStore.CubeDB.DeleteWindowData | db.js:227-257 | removes every row of every store whose windowUID matches and nothing else |
| CubeStore.CubeDB.PutBatch | db.js:266-272 | puts each entry in turn in one transaction |
| CubeStore.CubeDB.PopulateSubcubesFromCubes | db.js:259-305 | reads every cube row once and puts the subcube entries derived from each |
| CubeStore.CubeDB.Migrate | db.js:35-57 | the upgrade cursor puts each cube's derived subcube entries |
| CubeStore.CubeDB.OpenDB | db.js:1-67 | opening runs the migration over every cube row, changing only the subcube store |
| CubeStore.CubeDB.CleanupStaleWindows | db.js:307-322 | deletes every row of each window that owns a cube row and is not in the valid list |
| CubeStore.InsertByOrder | db.js:153 | inserting into a list sorted by order keeps it sorted and adds exactly the new element |
| CubeStore.PutAllAppend | db.js:266-272 | putting a then b equals putting a + b, so batch boundaries do not matter |
| CubeStore.PutAllWrites | db.js:266-272 | putting adds each entry's key and leaves every other key alone |
| CubeStore.PopulateIdempotent | db.js:259-305 | running the migration twice over the same cubes equals running it once |
| CubeStore.PopulateCovers | db.js:283-293 | after populating, every subId listed by a cube has a subcube row |
| CubeStore.PopulateKeepsUnlisted | db.js:283-293 | a subcube row that no cube lists keeps its value |
| CubeStore.VertexKeyInjective | db.js:160-170 | different (subId, index) pairs get different vertex keys |
| CubeStore.AssignedSubIdFromList | db.js:104-113 | saveSubCube's key is the parent's stored subId at `order` when there is one, else the given subId |
| CubeStore.SaveCubeThenLoad | db.js:69-95 | after saving, loading the window returns the cube as saved; loads of other ids are unchanged |
| CubeStore.SaveSubCubeThenLoad | db.js:97-158 | a subcube saved under its parent's listed key loads back under that key with the saved attributes |
| CubeStore.SubCubeKeysCollide | db.js:97-132 | a save under a key shared with another cube's subcube makes that row vanish from the other cube's load |
| CubeStore.SaveVertexThenLoad | db.js:160-191 | a saved vertex loads back exactly as given |
| CubeStore.SaveVertexKeepsOthers | db.js:160-191 | saving a vertex leaves the load of every other (subId, index) pair unchanged |
| CubeStore.VertexKeysCollide | db.js:160-170 | vertex keys ignore cubeId: saving for another cube hides the same (subId, index) from the first cube's load |
| CubeStore.DeleteSubCubesByCubeThenLoad | db.js:193-203 | after the delete nothing loads for the cube, and every other cube loads as before |
| CubeStore.DeleteVerticesByCubeThenLoad | db.js:205-215 | after the delete no vertex loads for the cube, and every other cube's vertices load as before |
| CubeStore.DeleteCubeThenLoad | db.js:217-225 | exactly the cube with that id disappears from every load |
| CubeStore.DeleteWindowDataThenLoad | db.js:227-257 | nothing loads for the window any more, and every other window loads as before |
| CubeStore.CleanupKeepsValidWindows | db.js:307-322 | after cleanup every cube row's window is valid, and no row of a valid window is removed |
| CubeStore.CleanupMissesWindowsWithoutCubes | db.js:307-322 | rows of a window that owns no cube row survive cleanup even when the window is not valid |
| MainGrid.CoordToIndex | main.js:59-65 | for a grid with at least one cell the index lies in [0, count) |
| MainGrid.CoordRoundTrip | main.js:54-65 | converting an index to its centred coordinate and back gives the index |
| MainGrid.CoordToIndexNearest | main.js:59-65 | inside the grid the index is the cell within half a cell of the coordinate; below it is 0, above it is count - 1 |
| MainGrid.LinearIndexInverse | main.js:1032 | an in-grid cell's linear index lies in [0, size) and leads back to the cell |
| MainGrid.CellAtInverse | main.js:1027-1032 | every index in [0, size) is the linear index of exactly one in-grid cell |
| MainGrid.VertexTags | main.js:487-518 | the vertex loop tags each of the eight vertices with Tag |
| MainGrid.AtBoundaryIsOuterFace | main.js:492-517 | along one axis, pointing at the grid boundary means lying on an outer face of the whole grid |
| MainGrid.TagIsGeometric | main.js:487-518 | a vertex is tagged 'blendCorner' exactly when it lies on two or more outer faces of the whole grid |
| MainGrid.SingleCellAllCorners | main.js:487-518 | in a 1×1×1 grid every vertex is 'blendCorner' |
| MainGrid.InteriorAllSoft | main.js:487-518 | a cell touching no grid boundary has only 'blendsoft' vertices |
| MainGrid.ByteRoundTrip | main.js:412-414 | a stored 8-bit channel survives loading (/255) and persisting (round ×255) |
| MainGrid.ToByteBounds | main.js:507-511 | a channel in [0, 1] persists as a byte in [0, 255] within half a step of channel × 255 |
| MainGrid.PersistedColor | main.js:507-511 | the persisted colour always has three channels |
| MainGrid.PersistedColorLoads | main.js:507-511 | loading the persisted colour gives the buffer colour to within half an 8-bit step, or pure red when the buffer is too short |
| MainGrid.WeightAt | main.js:952 | `weights[idx] \|\| 1` is never zero |
| MainGrid.CellVertices | main.js:947-954 | one vertex per colour triple, each weighted with the cell's weight |
| MainGrid.CellColorIsMean | main.js:947-956 | a cell's blended colour is black for an empty attribute, the plain average for a positive weight, and black for a negative weight |
| MainGrid.BlendedCells | main.js:940-966 | after blending, each in-grid cell with an attribute whose triple fits holds its blended colour, and a cell without an attribute is unchanged |
| MainGrid.BlendedOutsideGrid | main.js:940-966 | entries past the grid's cells are never written |
| MainGrid.BlendedInUnit | main.js:956-963 | every written channel lies in [0, 1] |
| MainGrid.ReadVertices | main.js:947-954 | the vertex loop builds CellVertices from the attribute |
| MainGrid.BlendGrid | main.js:935-966 | the three nested loops leave the colour buffer equal to Blended of the attributes, weights and old buffer |
| CubeState.CubeData.BlendAllSubCubeColors | main.js:932-968 | with subInfo, subMatrix and a colour buffer, the buffer becomes Blended; otherwise it is unchanged |
| MainGrid.TargetOfCoords | main.js:851-860 | the centred coordinates of an existing subcube address exactly that subcube |
| MainGrid.TargetInGrid | main.js:854-860 | the cell addressed by any coordinates lies in the grid |
| MainGrid.WeightEditOnlyTarget | main.js:860-864 | the weight edit changes only the target cell's entry, to the new weight |
| CubeState.CubeData.ApplyWeightToSubCube | main.js:851-871 | sets the target cell's weight in the buffer and in subWeights; without a target nothing changes |
| MainGrid.ExtentOfControl | main.js:996-998 | a control of at least 1 gives its whole part as the extent; anything smaller gives 1 |
| MainGrid.InitialCell | main.js:1027-1097 | each cell's new weight is the saved weight, else the kept entry, else 1; its colour is the saved colour, else the kept triple, else the default colour |
| MainGrid.FreshWeightsAreOnes | main.js:1018-1022 | a fresh weight buffer with nothing saved is all ones |
| MainGrid.Ones | main.js:1020-1021 | a fresh buffer of `count` ones |
| MainGrid.PrepareBuffers | main.js:1006-1022 | a buffer is kept exactly when it already has the size the new grid needs; otherwise a fresh one is made |
| MainGrid.FillGrid | main.js:1027-1099 | the per-cell loop leaves both buffers equal to InitialColors and InitialWeights |
| MainGrid.PointColorsTriples | main.js:1068-1073 | a subcube's point colours read back as its colour triple on each of its eight vertices |
| MainGrid.BlendPointColors | main.js:947-956 | blending a subcube's point colours with a positive weight gives its own colour, clamped |
| MainGrid.BlendOfPointColors | main.js:1127 | blending a grid whose subcubes carry their own colour on every vertex clamps each colour into [0, 1] where the weight is positive and makes it black where the weight is negative |
| MainGrid.PointBuffer | main.js:1068-1073 | the vertex loop gives a fresh array holding the cell's colour triple once per vertex |
| MainGrid.BuildContainers | main.js:1027-1098 | every in-grid cell, and nothing else, gets its own fresh attribute and buffer holding its point colours, flagged for upload |
| MainGrid.ReadColorsCell | main.js:1119-1121 | after the read-back a cell's triple is its pixel's red, green and blue, without alpha |
| MainGrid.PaintVertices | main.js:1112-1116 | every vertex of the attribute gets the pixel's colour; nothing past the last vertex changes |
| MainGrid.ReadBack | main.js:1103-1124 | the read-back over the containers in creation order leaves the colour buffer equal to ReadColors and every container still holding its cell's colour on all eight vertices |
| MainGrid.PaintGrid | main.js:1006-1124 | the buffers are kept or fresh as the sizes decide, weights are InitialWeights, colours are Painted (the read-back's when the GPU is there and no colour is saved, else InitialColors), and one fresh container per cell holds those colours |
| MainGrid.NewGrid | main.js:1006-1127 | PaintGrid followed by the closing blend: GridCreated holds, so the colour buffer is the blend of the painted containers |
| CubeState.CubeData.CreateSubCubeGrid | main.js:970-1127 | sets the new extents, keeps or replaces the buffers, keeps the saved colours and weights, and leaves GridCreated: InitialWeights, one fresh container per cell with its painted colour, and the colour buffer blended from them |

## Left out

- Rendering: THREE.js scene objects, materials, geometry, disposal, and `setRGB` on line materials (main.js:957, 1060-1094, 1110).
- CubeState.CubeData.CreateSubCubeGrid: the GPU pass before the read-back (the time uniform and `gpu.compute()`, main.js:1104-1107) is not modelled. The pixels it produces are the parameter `read`.
- MainGrid.ReadBack: does not set `needsUpdate` again. BuildContainers has already set it on every container, and nothing clears it in between.
- MainGrid.NewGrid: blendAllSubCubeColors (main.js:1127) blends every cube; the model blends the new grid only, since the other cubes' buffers are separate.
- CubeState.CubeData.CreateSubCubeGrid: does not model the database clean-up it starts (main.js:984-994). CubeStore.CubeDB.DeleteSubCubesByCube and DeleteVerticesByCube model that clean-up.
- CubeState.CubeData.CreateSubCubeGrid: does not model `initGPU` (main.js:1006-1011). What it guarantees, at least one texture pixel per cell, is the precondition on `read`. Colours arrive already parsed; THREE.Color string parsing is not modelled.
- CubeState.CubeData.ApplyWeightToSubCube: does not model the `persistSubCube` call it ends with. The metadata object is assumed to exist.
- CubeState.CubeData.BlendAllSubCubeColors: works on one cube; the loop over all cubes repeats it independently per cube.
- MainGrid.Extent: `x | 0` is modelled as truncation toward zero only, not as the 32-bit wrap-around for controls beyond 2^31.
- persistSubCube (main.js:465-536): only the linear index, the blend tags and the 8-bit colour are modelled. Positions, the persisted weight (a plain read), the database writes and the localStorage copy are not.
- Buffers hold reals, not Float32 values. Rounding to single precision is not modelled.
- IndexedDB: requests, transactions and their asynchrony become atomic updates of three maps. `getAll` order is abstracted as "each row exactly once". Version numbers and the `onblocked`/error paths are not modelled.
- CubeStore.CubeDB.OpenDB: the creation of stores and indexes on first open is the constructor. The cursor migration and the populate step are modelled over a snapshot of the cube rows.
- saveMatrixLocal and loadMatrixLocal (subpixelMatrix.js:54-70): localStorage JSON I/O is not modelled.
- GPUComputationRenderer.js:114-178 (shader materials, render-target creation, `doRenderTarget`): the GPU is a function parameter from a shader and its bound textures to the output texture.
- GpuComputation.ComputationRenderer.Init: WebGL capability queries are parameters.
- GpuComputation.ComputationRenderer.Compute: compute before a successful `init` is not modelled. The precondition `Ready` requires both render targets of every variable to exist. In the source, a variable without targets renders into an undefined target and the index still flips. A dependency without targets throws (GPUComputationRenderer.js:89-104, called from main.js:1105 and 1192-1194 after an `init` whose error is only logged).
- GpuComputation.Variable: a dependency is held by name and resolved to the first declared variable with that name (`Find`). The source holds the dependency object itself (GPUComputationRenderer.js:97-98). The two agree only when variable names are distinct and every dependency was added to the renderer. `Sampled`, `SampledCurrent` and `ComputeReadsPreStep` describe the source only under that assumption.
- SubcubeBlending.BlendVertices: the mode is always passed. The source's default of 'average' for a missing mode (subcubeBlending.js:1) is a caller passing Average.
- computeShader.js, materials.js and the rest of main.js (UI, windows, animation, applyColorToSubCube) are not part of this model.
