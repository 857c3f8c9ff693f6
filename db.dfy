/**
 * The IndexedDB store of db.js with the database engine abstracted away:
 * three object stores (cubes, subcubes, vertices), each a map from the
 * primary key `id` to its record, with the secondary attributes windowUID,
 * cubeId and subCubeId that the indexes look up. Every operation is one
 * atomic update of these maps; index queries become filters over them.
 */
module CubeStore {
  import opened Scene

  /** A position or centre `[x, y, z]`. */
  type Point = seq<real>

  /** One entry of a cube's `vertexEntries` list: position, 8-bit colour, weight and blend tag. */
  datatype VertexEntry = VertexEntry(position: Point, color: seq<int>, weight: real, blendId: string)

  /**
   * The `value` array `[center, subIds, vertexEntries]` of a cube row.
   * `subIds` is None when the stored item is not an array (`Array.isArray` fails).
   */
  datatype CubeValue = CubeValue(center: Point, subIds: Option<seq<string>>, vertexEntries: seq<VertexEntry>)

  /** A row of the `cubes` store; `value` is None for a row without one. */
  datatype CubeRow = CubeRow(id: string, windowUID: string, value: Option<CubeValue>)

  /** A row of the `subcubes` store; a missing (`null`/`undefined`) attribute is None. */
  datatype SubRow = SubRow(
    id: string,
    windowUID: string,
    cubeId: string,
    center: Option<Point>,
    originID: string,
    blendingLogicId: Option<string>,
    vertexIds: Option<seq<string>>,
    order: Option<int>)

  /** The `value` array `[color, position, blendId, weight]` of a vertex row. */
  datatype VertexValue = VertexValue(color: seq<int>, position: Point, blendId: string, weight: real)

  /** A row of the `vertices` store. */
  datatype VertexRow = VertexRow(
    id: string,
    windowUID: string,
    cubeId: string,
    subCubeId: string,
    index: nat,
    value: Option<VertexValue>)

  /** What `loadCubes` hands back for one row. */
  datatype LoadedCube = LoadedCube(
    id: string,
    windowUID: string,
    center: Option<Point>,
    subIds: Option<seq<string>>,
    vertexEntries: seq<VertexEntry>)

  /** What `loadSubCubes` hands back for one row. */
  datatype LoadedSubCube = LoadedSubCube(
    id: string,
    cubeId: string,
    windowUID: string,
    center: Option<Point>,
    originID: string,
    blendingLogicId: Option<string>,
    vertexIds: seq<string>,
    order: int)

  /** What `loadVertices` hands back for one row. */
  datatype LoadedVertex = LoadedVertex(
    id: string,
    index: nat,
    subCubeId: string,
    cubeId: string,
    windowUID: string,
    color: Option<seq<int>>,
    position: Option<Point>,
    blendingLogicId: Option<string>,
    weight: Option<real>)

  // ---------------------------------------------------------------------
  // Keys and index queries
  // ---------------------------------------------------------------------

  function DigitChar(d: nat): char
    requires d < 10
  {
    ('0' as int + d) as char
  }

  /** The decimal text of a natural number, as a template literal writes it. */
  function Decimal(n: nat): (s: string)
    ensures |s| >= 1 && forall i :: 0 <= i < |s| ==> '0' <= s[i] <= '9'
  {
    if n < 10 then [DigitChar(n)] else Decimal(n / 10) + [DigitChar(n % 10)]
  }

  /** The primary key `${subId}_${index}` of a vertex row. */
  function VertexKey(subId: string, index: nat): string
  {
    subId + "_" + Decimal(index)
  }

  /** The keys whose row has `field` in `values`: an index lookup (`getAllKeys` on an index). */
  function Matching<R>(m: map<string, R>, field: R -> string, values: set<string>): set<string>
  {
    set k | k in m && field(m[k]) in values
  }

  function CubeWindow(r: CubeRow): string { r.windowUID }
  function SubWindow(r: SubRow): string { r.windowUID }
  function SubOwner(r: SubRow): string { r.cubeId }
  function VertexWindow(r: VertexRow): string { r.windowUID }
  function VertexOwner(r: VertexRow): string { r.cubeId }
  function VertexSub(r: VertexRow): string { r.subCubeId }

  /** Every cube row is stored under its own id (`keyPath: 'id'`). */
  predicate KeyedCubes(m: map<string, CubeRow>)
  {
    forall k :: k in m ==> m[k].id == k
  }

  predicate KeyedSubs(m: map<string, SubRow>)
  {
    forall k :: k in m ==> m[k].id == k
  }

  /** Every vertex row is stored under its id, which is built from its subcube and index. */
  predicate KeyedVertices(m: map<string, VertexRow>)
  {
    forall k :: k in m ==> m[k].id == k && k == VertexKey(m[k].subCubeId, m[k].index)
  }

  // ---------------------------------------------------------------------
  // What the loads return
  // ---------------------------------------------------------------------

  /** `out` lists every element of `s` exactly once and nothing else. */
  ghost predicate Enumerates<T(!new)>(out: seq<T>, s: set<T>)
  {
    forall x :: multiset(out)[x] == if x in s then 1 else 0
  }

  /** The `loadCubes` projection: a row without a value reads as centre null and empty lists. */
  function UnpackCube(r: CubeRow): LoadedCube
  {
    match r.value
    case None => LoadedCube(r.id, r.windowUID, None, Some([]), [])
    case Some(v) => LoadedCube(r.id, r.windowUID, Some(v.center), v.subIds, v.vertexEntries)
  }

  /** The `loadSubCubes` projection: missing vertexIds read as [] and a missing order as 0. */
  function UnpackSub(r: SubRow): LoadedSubCube
  {
    LoadedSubCube(r.id, r.cubeId, r.windowUID, r.center, r.originID, r.blendingLogicId,
      if r.vertexIds.Some? then r.vertexIds.value else [],
      if r.order.Some? then r.order.value else 0)
  }

  /** The `loadVertices` projection: every part of a missing value reads as null. */
  function UnpackVertex(r: VertexRow): LoadedVertex
  {
    match r.value
    case None => LoadedVertex(r.id, r.index, r.subCubeId, r.cubeId, r.windowUID, None, None, None, None)
    case Some(v) =>
      LoadedVertex(r.id, r.index, r.subCubeId, r.cubeId, r.windowUID,
        Some(v.color), Some(v.position), Some(v.blendId), Some(v.weight))
  }

  ghost function UnpackCubes(m: map<string, CubeRow>, ks: set<string>): set<LoadedCube>
  {
    set k | k in ks && k in m :: UnpackCube(m[k])
  }

  /** The rows among `ks` that pass `loadSubCubes`'s windowUID filter. */
  ghost function UnpackSubs(m: map<string, SubRow>, ks: set<string>, w: string): set<LoadedSubCube>
  {
    set k | k in ks && k in m && m[k].windowUID == w :: UnpackSub(m[k])
  }

  /** The rows among `ks` that pass `loadVertices`'s windowUID and cubeId filter. */
  ghost function UnpackVertices(m: map<string, VertexRow>, ks: set<string>, w: string, c: string): set<LoadedVertex>
  {
    set k | k in ks && k in m && m[k].windowUID == w && m[k].cubeId == c :: UnpackVertex(m[k])
  }

  /** What `loadCubes(w)` returns, as a set. */
  ghost function CubesOf(m: map<string, CubeRow>, w: string): set<LoadedCube>
  {
    UnpackCubes(m, Matching(m, CubeWindow, {w}))
  }

  /** What `loadSubCubes(w, c)` returns, as a set. */
  ghost function SubCubesOf(m: map<string, SubRow>, w: string, c: string): set<LoadedSubCube>
  {
    UnpackSubs(m, Matching(m, SubOwner, {c}), w)
  }

  /** What `loadVertices(w, c, s)` returns, as a set. */
  ghost function VerticesOf(m: map<string, VertexRow>, w: string, c: string, s: string): set<LoadedVertex>
  {
    UnpackVertices(m, Matching(m, VertexSub, {s}), w, c)
  }

  /** Sorted ascending by `order`, as `out.sort((a, b) => a.order - b.order)` leaves it. */
  predicate SortedByOrder(s: seq<LoadedSubCube>)
  {
    forall i, j :: 0 <= i < j < |s| ==> s[i].order <= s[j].order
  }

  // ---------------------------------------------------------------------
  // Saves
  // ---------------------------------------------------------------------

  /** The row `saveCube` puts. */
  function CubeRecord(windowUID: string, cubeId: string, center: Point, subIds: seq<string>, entries: seq<VertexEntry>): CubeRow
  {
    CubeRow(cubeId, windowUID, Some(CubeValue(center, Some(subIds), entries)))
  }

  /** The stored subId list of a cube row, with a missing value or a non-array read as []. */
  function SubIdsOf(r: CubeRow): seq<string>
  {
    if r.value.Some? && r.value.value.subIds.Some? then r.value.value.subIds.value else []
  }

  /**
   * The key `saveSubCube` stores under: entry `order` of the parent cube's
   * stored subId list when the parent exists, holds such a list and `order`
   * indexes it; the given subId otherwise.
   */
  function AssignedSubId(cubes: map<string, CubeRow>, cubeId: string, subId: string, order: int): string
  {
    if cubeId in cubes && cubes[cubeId].value.Some? && cubes[cubeId].value.value.subIds.Some?
       && 0 <= order < |cubes[cubeId].value.value.subIds.value|
    then cubes[cubeId].value.value.subIds.value[order]
    else subId
  }

  /** The row `saveSubCube` puts under `key`. */
  function SubRecord(key: string, windowUID: string, cubeId: string, center: Point, blendId: string, vertexIds: seq<string>, order: int): SubRow
  {
    SubRow(key, windowUID, cubeId, Some(center), cubeId, Some(blendId), Some(vertexIds), Some(order))
  }

  /** The row `saveVertex` puts. */
  function VertexRecord(windowUID: string, cubeId: string, subId: string, index: nat, color: seq<int>, position: Point, blendId: string, weight: real): VertexRow
  {
    VertexRow(VertexKey(subId, index), windowUID, cubeId, subId, index, Some(VertexValue(color, position, blendId, weight)))
  }

  // ---------------------------------------------------------------------
  // Migration: rebuilding subcube rows from the cubes' subId lists
  // ---------------------------------------------------------------------

  /** The subcube row the migration writes for entry `idx` of a cube's subId list. */
  function Seed(r: CubeRow, idx: nat): SubRow
    requires idx < |SubIdsOf(r)|
  {
    SubRow(SubIdsOf(r)[idx], r.windowUID, r.id, None, r.id, None, Some([]), Some(idx))
  }

  /** The entries `populateSubcubesFromCubes` builds for one cube, in subId order. */
  function Entries(r: CubeRow): (es: seq<SubRow>)
    ensures |es| == |SubIdsOf(r)|
    ensures forall i :: 0 <= i < |es| ==> es[i] == Seed(r, i)
  {
    seq(|SubIdsOf(r)|, i requires 0 <= i < |SubIdsOf(r)| => Seed(r, i))
  }

  /** `store.put` of each entry in turn. */
  function PutAll(m: map<string, SubRow>, es: seq<SubRow>): map<string, SubRow>
    decreases |es|
  {
    if es == [] then m else PutAll(m[es[0].id := es[0]], es[1..])
  }

  /** The subcubes store after the entries of every cube in `rows` have been put, cube after cube. */
  function Populate(m: map<string, SubRow>, rows: seq<CubeRow>): map<string, SubRow>
  {
    if rows == [] then m
    else PutAll(Populate(m, rows[..|rows| - 1]), Entries(rows[|rows| - 1]))
  }

  /** The size of the first batch `populateSubcubesFromCubes` puts in one transaction. */
  function Threshold(count: nat): nat
  {
    if count > 8 then 9 else 5
  }

  // ---------------------------------------------------------------------
  // Stale-window cleanup
  // ---------------------------------------------------------------------

  /** The windowUIDs of cube rows that are not listed in `validIds`. */
  function Stale(cubes: map<string, CubeRow>, validIds: seq<string>): set<string>
  {
    set k | k in cubes && cubes[k].windowUID !in validIds :: cubes[k].windowUID
  }

  // ---------------------------------------------------------------------
  // The database
  // ---------------------------------------------------------------------

  /** An open `CubeDB` database: its three object stores. */
  class CubeDB {
    var cubes: map<string, CubeRow>
    var subcubes: map<string, SubRow>
    var vertices: map<string, VertexRow>

    /** Every row sits under its primary key. */
    ghost predicate Valid()
      reads this
    {
      KeyedCubes(cubes) && KeyedSubs(subcubes) && KeyedVertices(vertices)
    }

    /** A database whose stores were just created. */
    constructor ()
      ensures Valid() && cubes == map[] && subcubes == map[] && vertices == map[]
    {
      cubes := map[];
      subcubes := map[];
      vertices := map[];
    }

    /** `saveCube`: upsert the row `{id: cubeId, windowUID, value: [center, subIds, vertexEntries]}`. */
    method SaveCube(windowUID: string, cubeId: string, center: Point, subIds: seq<string>, entries: seq<VertexEntry>)
      requires Valid()
      modifies this
      ensures Valid()
      ensures cubes == old(cubes)[cubeId := CubeRecord(windowUID, cubeId, center, subIds, entries)]
      ensures subcubes == old(subcubes) && vertices == old(vertices)
    {
      cubes := cubes[cubeId := CubeRecord(windowUID, cubeId, center, subIds, entries)];
    }

    /** `saveSubCube`: upsert the subcube row under the key its parent cube assigns. */
    method SaveSubCube(windowUID: string, cubeId: string, subId: string, center: Point, blendId: string, vertexIds: seq<string>, order: int)
      requires Valid()
      modifies this
      ensures Valid()
      ensures var key := AssignedSubId(old(cubes), cubeId, subId, order);
        subcubes == old(subcubes)[key := SubRecord(key, windowUID, cubeId, center, blendId, vertexIds, order)]
      ensures cubes == old(cubes) && vertices == old(vertices)
    {
      var target := subId;
      if cubeId in cubes {
        var cube := cubes[cubeId];
        if cube.value.Some? && cube.value.value.subIds.Some? && order >= 0 && order < |cube.value.value.subIds.value| {
          target := cube.value.value.subIds.value[order];
        }
      }
      subcubes := subcubes[target := SubRecord(target, windowUID, cubeId, center, blendId, vertexIds, order)];
    }

    /** `saveVertex`: upsert the vertex row under `${subId}_${index}`. */
    method SaveVertex(windowUID: string, cubeId: string, subId: string, index: nat, color: seq<int>, position: Point, blendId: string, weight: real)
      requires Valid()
      modifies this
      ensures Valid()
      ensures vertices == old(vertices)[VertexKey(subId, index) := VertexRecord(windowUID, cubeId, subId, index, color, position, blendId, weight)]
      ensures cubes == old(cubes) && subcubes == old(subcubes)
    {
      var id := VertexKey(subId, index);
      vertices := vertices[id := VertexRecord(windowUID, cubeId, subId, index, color, position, blendId, weight)];
    }
  
    // -------------------------------------------------------------------
    // Loads
    // -------------------------------------------------------------------

    /** `loadCubes`: the rows of the windowUID index for `windowUID`, unpacked. */
    method LoadCubes(windowUID: string) returns (out: seq<LoadedCube>)
      requires Valid()
      ensures Enumerates(out, CubesOf(cubes, windowUID))
    {
      var pending := Matching(cubes, CubeWindow, {windowUID});
      ghost var seen: set<string> := {};
      out := [];
      while pending != {}
        invariant pending !! seen && pending + seen == Matching(cubes, CubeWindow, {windowUID})
        invariant Enumerates(out, UnpackCubes(cubes, seen))
        decreases pending
      {
        var k :| k in pending;
        var x := UnpackCube(cubes[k]);
        UnpackCubesStep(cubes, seen, k);
        EnumeratesAdd(out, UnpackCubes(cubes, seen), x, out + [x]);
        out := out + [x];
        seen := seen + {k};
        pending := pending - {k};
      }
    }

    /**
     * `loadSubCubes`: the rows of the cubeId index for `cubeId` that carry
     * `windowUID`, unpacked and sorted by order.
     */
    method LoadSubCubes(windowUID: string, cubeId: string) returns (out: seq<LoadedSubCube>)
      requires Valid()
      ensures Enumerates(out, SubCubesOf(subcubes, windowUID, cubeId))
      ensures SortedByOrder(out)
    {
      var pending := Matching(subcubes, SubOwner, {cubeId});
      ghost var seen: set<string> := {};
      out := [];
      while pending != {}
        invariant pending !! seen && pending + seen == Matching(subcubes, SubOwner, {cubeId})
        invariant Enumerates(out, UnpackSubs(subcubes, seen, windowUID))
        invariant SortedByOrder(out)
        decreases pending
      {
        var k :| k in pending;
        UnpackSubsStep(subcubes, seen, k, windowUID);
        if subcubes[k].windowUID == windowUID {
          var x := UnpackSub(subcubes[k]);
          var placed := InsertByOrder(out, x);
          EnumeratesAdd(out, UnpackSubs(subcubes, seen, windowUID), x, placed);
          out := placed;
        }
        seen := seen + {k};
        pending := pending - {k};
      }
    }

    /**
     * `loadVertices`: the rows of the subCubeId index for `subId` that carry
     * `windowUID` and `cubeId`, unpacked.
     */
    method LoadVertices(windowUID: string, cubeId: string, subId: string) returns (out: seq<LoadedVertex>)
      requires Valid()
      ensures Enumerates(out, VerticesOf(vertices, windowUID, cubeId, subId))
    {
      var pending := Matching(vertices, VertexSub, {subId});
      ghost var seen: set<string> := {};
      out := [];
      while pending != {}
        invariant pending !! seen && pending + seen == Matching(vertices, VertexSub, {subId})
        invariant Enumerates(out, UnpackVertices(vertices, seen, windowUID, cubeId))
        decreases pending
      {
        var k :| k in pending;
        UnpackVerticesStep(vertices, seen, k, windowUID, cubeId);
        if vertices[k].windowUID == windowUID && vertices[k].cubeId == cubeId {
          var x := UnpackVertex(vertices[k]);
          EnumeratesAdd(out, UnpackVertices(vertices, seen, windowUID, cubeId), x, out + [x]);
          out := out + [x];
        }
        seen := seen + {k};
        pending := pending - {k};
      }
    }

    /** `store.getAll()` on the cubes store: every cube row once. */
    method GetAllCubes() returns (rows: seq<CubeRow>)
      requires Valid()
      ensures Enumerates(rows, cubes.Values)
    {
      var pending := cubes.Keys;
      ghost var seen: set<string> := {};
      rows := [];
      while pending != {}
        invariant pending !! seen && pending + seen == cubes.Keys
        invariant Enumerates(rows, RowsAt(cubes, seen))
        decreases pending
      {
        var k :| k in pending;
        RowsAtStep(cubes, seen, k);
        EnumeratesAdd(rows, RowsAt(cubes, seen), cubes[k], rows + [cubes[k]]);
        rows := rows + [cubes[k]];
        seen := seen + {k};
        pending := pending - {k};
      }
      assert RowsAt(cubes, seen) == cubes.Values;
    }

    // -------------------------------------------------------------------
    // Deletes
    // -------------------------------------------------------------------

    /** `store.delete(key)` for each key, on the cubes store. */
    method DeleteCubeKeys(keys: set<string>)
      requires Valid()
      modifies this
      ensures Valid()
      ensures cubes == old(cubes) - keys
      ensures subcubes == old(subcubes) && vertices == old(vertices)
    {
      var pending := keys;
      while pending != {}
        invariant pending <= keys
        invariant cubes == old(cubes) - (keys - pending)
        invariant Valid() && subcubes == old(subcubes) && vertices == old(vertices)
        decreases pending
      {
        var k :| k in pending;
        cubes := cubes - {k};
        pending := pending - {k};
      }
    }

    /** `store.delete(key)` for each key, on the subcubes store. */
    method DeleteSubKeys(keys: set<string>)
      requires Valid()
      modifies this
      ensures Valid()
      ensures subcubes == old(subcubes) - keys
      ensures cubes == old(cubes) && vertices == old(vertices)
    {
      var pending := keys;
      while pending != {}
        invariant pending <= keys
        invariant subcubes == old(subcubes) - (keys - pending)
        invariant Valid() && cubes == old(cubes) && vertices == old(vertices)
        decreases pending
      {
        var k :| k in pending;
        subcubes := subcubes - {k};
        pending := pending - {k};
      }
    }

    /** `store.delete(key)` for each key, on the vertices store. */
    method DeleteVertexKeys(keys: set<string>)
      requires Valid()
      modifies this
      ensures Valid()
      ensures vertices == old(vertices) - keys
      ensures cubes == old(cubes) && subcubes == old(subcubes)
    {
      var pending := keys;
      while pending != {}
        invariant pending <= keys
        invariant vertices == old(vertices) - (keys - pending)
        invariant Valid() && cubes == old(cubes) && subcubes == old(subcubes)
        decreases pending
      {
        var k :| k in pending;
        vertices := vertices - {k};
        pending := pending - {k};
      }
    }

    /** `deleteSubCubesByCube`: delete every key the cubeId index lists for `cubeId`. */
    method DeleteSubCubesByCube(cubeId: string)
      requires Valid()
      modifies this
      ensures Valid()
      ensures subcubes == old(subcubes) - Matching(old(subcubes), SubOwner, {cubeId})
      ensures cubes == old(cubes) && vertices == old(vertices)
    {
      DeleteSubKeys(Matching(subcubes, SubOwner, {cubeId}));
    }

    /** `deleteVerticesByCube`: delete every key the cubeId index lists for `cubeId`. */
    method DeleteVerticesByCube(cubeId: string)
      requires Valid()
      modifies this
      ensures Valid()
      ensures vertices == old(vertices) - Matching(old(vertices), VertexOwner, {cubeId})
      ensures cubes == old(cubes) && subcubes == old(subcubes)
    {
      DeleteVertexKeys(Matching(vertices, VertexOwner, {cubeId}));
    }

    /** `deleteCube`: delete the one cube row; its subcube and vertex rows stay. */
    method DeleteCube(cubeId: string)
      requires Valid()
      modifies this
      ensures Valid()
      ensures cubes == old(cubes) - {cubeId}
      ensures subcubes == old(subcubes) && vertices == old(vertices)
    {
      cubes := cubes - {cubeId};
    }

    /** `deleteWindowData`: delete every row of every store whose windowUID is `windowUID`. */
    method DeleteWindowData(windowUID: string)
      requires Valid()
      modifies this
      ensures Valid()
      ensures cubes == old(cubes) - Matching(old(cubes), CubeWindow, {windowUID})
      ensures subcubes == old(subcubes) - Matching(old(subcubes), SubWindow, {windowUID})
      ensures vertices == old(vertices) - Matching(old(vertices), VertexWindow, {windowUID})
    {
      DeleteCubeKeys(Matching(cubes, CubeWindow, {windowUID}));
      DeleteSubKeys(Matching(subcubes, SubWindow, {windowUID}));
      DeleteVertexKeys(Matching(vertices, VertexWindow, {windowUID}));
    }

    // -------------------------------------------------------------------
    // Migration
    // -------------------------------------------------------------------

    /** `putBatch`: one transaction that puts each entry in turn. */
    method PutBatch(entries: seq<SubRow>)
      requires Valid()
      modifies this
      ensures Valid()
      ensures subcubes == PutAll(old(subcubes), entries)
      ensures cubes == old(cubes) && vertices == old(vertices)
    {
      var i := 0;
      while i < |entries|
        invariant 0 <= i <= |entries|
        invariant PutAll(subcubes, entries[i..]) == PutAll(old(subcubes), entries)
        invariant Valid() && cubes == old(cubes) && vertices == old(vertices)
      {
        assert entries[i..][1..] == entries[i + 1..];
        subcubes := subcubes[entries[i].id := entries[i]];
        i := i + 1;
      }
    }

    /**
     * One cube of `populateSubcubesFromCubes`: the first `threshold` entries
     * in one batch, then every remaining entry in a batch of its own.
     */
    method PopulateCube(cube: CubeRow)
      requires Valid()
      modifies this
      ensures Valid()
      ensures subcubes == PutAll(old(subcubes), Entries(cube))
      ensures cubes == old(cubes) && vertices == old(vertices)
    {
      var subIds := SubIdsOf(cube);
      var entries := Entries(cube);
      var threshold := Threshold(|subIds|);
      if |entries| > 0 {
        var cut := if threshold < |entries| then threshold else |entries|;
        PutBatch(entries[..cut]);
        var rest := entries[cut..];
        ghost var first := subcubes;
        var j := 0;
        while j < |rest|
          invariant 0 <= j <= |rest|
          invariant subcubes == PutAll(first, rest[..j])
          invariant Valid() && cubes == old(cubes) && vertices == old(vertices)
        {
          PutBatch([rest[j]]);
          PutAllAppend(first, rest[..j], [rest[j]]);
          assert rest[..j] + [rest[j]] == rest[..j + 1];
          j := j + 1;
        }
        assert rest[..j] == rest;
        PutAllAppend(old(subcubes), entries[..cut], rest);
        assert entries[..cut] + rest == entries;
      }
    }

    /** The loop over the cube snapshot in `populateSubcubesFromCubes`. */
    method PopulateFrom(rows: seq<CubeRow>)
      requires Valid()
      modifies this
      ensures Valid()
      ensures subcubes == Populate(old(subcubes), rows)
      ensures cubes == old(cubes) && vertices == old(vertices)
    {
      var i := 0;
      while i < |rows|
        invariant 0 <= i <= |rows|
        invariant subcubes == Populate(old(subcubes), rows[..i])
        invariant Valid() && cubes == old(cubes) && vertices == old(vertices)
      {
        PopulateCube(rows[i]);
        assert rows[..i + 1][..i] == rows[..i];
        i := i + 1;
      }
      assert rows[..i] == rows;
    }

    /**
     * `populateSubcubesFromCubes`: for every cube row, in the order `getAll`
     * returns them (`rows`), put one subcube row per entry of its subId list.
     */
    method PopulateSubcubesFromCubes() returns (rows: seq<CubeRow>)
      requires Valid()
      modifies this
      ensures Valid()
      ensures Enumerates(rows, old(cubes).Values)
      ensures subcubes == Populate(old(subcubes), rows)
      ensures cubes == old(cubes) && vertices == old(vertices)
    {
      rows := GetAllCubes();
      PopulateFrom(rows);
    }

    /** The upgrade handler's cursor walk: put each cube's entries one at a time. */
    method Migrate(rows: seq<CubeRow>)
      requires Valid()
      modifies this
      ensures Valid()
      ensures subcubes == Populate(old(subcubes), rows)
      ensures cubes == old(cubes) && vertices == old(vertices)
    {
      var i := 0;
      while i < |rows|
        invariant 0 <= i <= |rows|
        invariant subcubes == Populate(old(subcubes), rows[..i])
        invariant Valid() && cubes == old(cubes) && vertices == old(vertices)
      {
        ghost var before := subcubes;
        var subIds := SubIdsOf(rows[i]);
        var idx := 0;
        while idx < |subIds|
          invariant 0 <= idx <= |subIds|
          invariant subcubes == PutAll(before, Entries(rows[i])[..idx])
          invariant Valid() && cubes == old(cubes) && vertices == old(vertices)
        {
          subcubes := subcubes[subIds[idx] := Seed(rows[i], idx)];
          PutAllAppend(before, Entries(rows[i])[..idx], [Seed(rows[i], idx)]);
          assert Entries(rows[i])[..idx] + [Seed(rows[i], idx)] == Entries(rows[i])[..idx + 1];
          idx := idx + 1;
        }
        assert Entries(rows[i])[..idx] == Entries(rows[i]);
        assert rows[..i + 1][..i] == rows[..i];
        i := i + 1;
      }
      assert rows[..i] == rows;
    }

    /**
     * `openDB` on a database at `oldVersion`: the upgrade handler migrates
     * when `oldVersion < 2`, then the success handler populates. Both walk
     * the cubes in primary-key order, so one snapshot `rows` serves both.
     * Since populating is idempotent, the result is one populate.
     */
    method OpenDB(oldVersion: int) returns (rows: seq<CubeRow>)
      requires Valid()
      modifies this
      ensures Valid()
      ensures Enumerates(rows, old(cubes).Values)
      ensures subcubes == Populate(old(subcubes), rows)
      ensures cubes == old(cubes) && vertices == old(vertices)
    {
      rows := GetAllCubes();
      if oldVersion < 2 {
        Migrate(rows);
        PopulateIdempotent(old(subcubes), rows);
      }
      PopulateFrom(rows);
    }

    // -------------------------------------------------------------------
    // Stale-window cleanup
    // -------------------------------------------------------------------

    /**
     * `cleanupStaleWindows`: collect the windowUIDs of cube rows not in
     * `validIds`, and delete each distinct one's data from every store.
     */
    method CleanupStaleWindows(validIds: seq<string>)
      requires Valid()
      modifies this
      ensures Valid()
      ensures var stale := Stale(old(cubes), validIds);
        cubes == old(cubes) - Matching(old(cubes), CubeWindow, stale)
        && subcubes == old(subcubes) - Matching(old(subcubes), SubWindow, stale)
        && vertices == old(vertices) - Matching(old(vertices), VertexWindow, stale)
    {
      var rows := GetAllCubes();
      var toDelete: seq<string> := [];
      var i := 0;
      while i < |rows|
        invariant 0 <= i <= |rows|
        invariant Valid() && cubes == old(cubes) && subcubes == old(subcubes) && vertices == old(vertices)
        invariant forall x :: x in toDelete ==> x in Stale(cubes, validIds)
        invariant forall j :: 0 <= j < i && rows[j].windowUID !in validIds ==> rows[j].windowUID in toDelete
      {
        if rows[i].windowUID !in validIds {
          SnapshotRowStale(cubes, rows, i, validIds);
          toDelete := toDelete + [rows[i].windowUID];
        }
        i := i + 1;
      }
      var unique := set x | x in toDelete;
      StaleCollected(cubes, rows, validIds, unique);
      var pending := unique;
      ghost var done: set<string> := {};
      while pending != {}
        invariant pending !! done && pending + done == unique
        invariant Valid()
        invariant cubes == old(cubes) - Matching(old(cubes), CubeWindow, done)
        invariant subcubes == old(subcubes) - Matching(old(subcubes), SubWindow, done)
        invariant vertices == old(vertices) - Matching(old(vertices), VertexWindow, done)
        decreases pending
      {
        var w :| w in pending;
        DeleteWindowData(w);
        MatchingGrows(old(cubes), CubeWindow, done, w);
        MatchingGrows(old(subcubes), SubWindow, done, w);
        MatchingGrows(old(vertices), VertexWindow, done, w);
        done := done + {w};
        pending := pending - {w};
      }
    }
  }

  // ---------------------------------------------------------------------
  // Helpers for the loops
  // ---------------------------------------------------------------------

  /** Appending one new element keeps an enumeration exact. */
  lemma EnumeratesAdd<T(!new)>(out: seq<T>, s: set<T>, x: T, r: seq<T>)
    requires Enumerates(out, s) && x !in s
    requires multiset(r) == multiset(out) + multiset{x}
    ensures Enumerates(r, s + {x})
  {
  }

  /**
   * Insert `x` after every element whose order does not exceed its own: a
   * stable insertion that keeps the list sorted by order.
   */
  method InsertByOrder(s: seq<LoadedSubCube>, x: LoadedSubCube) returns (r: seq<LoadedSubCube>)
    requires SortedByOrder(s)
    ensures SortedByOrder(r)
    ensures multiset(r) == multiset(s) + multiset{x}
  {
    var p := 0;
    while p < |s| && s[p].order <= x.order
      invariant 0 <= p <= |s|
      invariant forall i :: 0 <= i < p ==> s[i].order <= x.order
    {
      p := p + 1;
    }
    r := s[..p] + [x] + s[p..];
    assert s == s[..p] + s[p..];
  }

  ghost function RowsAt(m: map<string, CubeRow>, ks: set<string>): set<CubeRow>
  {
    set k | k in ks && k in m :: m[k]
  }

  lemma RowsAtStep(m: map<string, CubeRow>, seen: set<string>, k: string)
    requires KeyedCubes(m) && k in m && k !in seen
    ensures RowsAt(m, seen + {k}) == RowsAt(m, seen) + {m[k]}
    ensures m[k] !in RowsAt(m, seen)
  {
  }

  lemma UnpackCubesStep(m: map<string, CubeRow>, seen: set<string>, k: string)
    requires KeyedCubes(m) && k in m && k !in seen
    ensures UnpackCubes(m, seen + {k}) == UnpackCubes(m, seen) + {UnpackCube(m[k])}
    ensures UnpackCube(m[k]) !in UnpackCubes(m, seen)
  {
  }

  lemma UnpackSubsStep(m: map<string, SubRow>, seen: set<string>, k: string, w: string)
    requires KeyedSubs(m) && k in m && k !in seen
    ensures m[k].windowUID == w ==>
      UnpackSubs(m, seen + {k}, w) == UnpackSubs(m, seen, w) + {UnpackSub(m[k])}
      && UnpackSub(m[k]) !in UnpackSubs(m, seen, w)
    ensures m[k].windowUID != w ==> UnpackSubs(m, seen + {k}, w) == UnpackSubs(m, seen, w)
  {
  }

  lemma UnpackVerticesStep(m: map<string, VertexRow>, seen: set<string>, k: string, w: string, c: string)
    requires KeyedVertices(m) && k in m && k !in seen
    ensures m[k].windowUID == w && m[k].cubeId == c ==>
      UnpackVertices(m, seen + {k}, w, c) == UnpackVertices(m, seen, w, c) + {UnpackVertex(m[k])}
      && UnpackVertex(m[k]) !in UnpackVertices(m, seen, w, c)
    ensures !(m[k].windowUID == w && m[k].cubeId == c) ==>
      UnpackVertices(m, seen + {k}, w, c) == UnpackVertices(m, seen, w, c)
  {
  }

  /** Deleting one more window's rows after those of `done`. */
  lemma MatchingGrows<R>(m: map<string, R>, field: R -> string, done: set<string>, w: string)
    ensures var rest := m - Matching(m, field, done);
      rest - Matching(rest, field, {w}) == m - Matching(m, field, done + {w})
  {
  }

  /** A snapshot row whose window is not valid names a stale window. */
  lemma SnapshotRowStale(cubes: map<string, CubeRow>, rows: seq<CubeRow>, i: nat, validIds: seq<string>)
    requires Enumerates(rows, cubes.Values)
    requires i < |rows| && rows[i].windowUID !in validIds
    ensures rows[i].windowUID in Stale(cubes, validIds)
  {
    assert multiset(rows)[rows[i]] > 0;
    var k :| k in cubes && cubes[k] == rows[i];
  }

  /** The windows collected from a complete snapshot are exactly the stale ones. */
  lemma StaleCollected(cubes: map<string, CubeRow>, rows: seq<CubeRow>, validIds: seq<string>, found: set<string>)
    requires Enumerates(rows, cubes.Values)
    requires forall x :: x in found ==> x in Stale(cubes, validIds)
    requires forall j :: 0 <= j < |rows| && rows[j].windowUID !in validIds ==> rows[j].windowUID in found
    ensures found == Stale(cubes, validIds)
  {
    forall x | x in Stale(cubes, validIds)
      ensures x in found
    {
      var k :| k in cubes && cubes[k].windowUID !in validIds && cubes[k].windowUID == x;
      assert multiset(rows)[cubes[k]] == 1;
      var j :| 0 <= j < |rows| && rows[j] == cubes[k];
    }
  }

  // ---------------------------------------------------------------------
  // Properties of the migration
  // ---------------------------------------------------------------------

  /** Putting `a` then `b` is putting `a + b`: how the entries are split into batches does not matter. */
  lemma {:induction false} PutAllAppend(m: map<string, SubRow>, a: seq<SubRow>, b: seq<SubRow>)
    ensures PutAll(PutAll(m, a), b) == PutAll(m, a + b)
    decreases |a|
  {
    if a != [] {
      var m' := m[a[0].id := a[0]];
      assert (a + b)[0] == a[0] && (a + b)[1..] == a[1..] + b;
      assert PutAll(m, a + b) == PutAll(m', a[1..] + b);
      assert PutAll(m, a) == PutAll(m', a[1..]);
      PutAllAppend(m', a[1..], b);
    } else {
      assert a + b == b;
    }
  }

  /** Putting entries overrides the old store with what the entries alone would build. */
  lemma {:induction false} PutAllOverrides(m: map<string, SubRow>, es: seq<SubRow>)
    ensures PutAll(m, es) == m + PutAll(map[], es)
    decreases |es|
  {
    if es != [] {
      var e := es[0];
      PutAllOverrides(m[e.id := e], es[1..]);
      PutAllOverrides(map[e.id := e], es[1..]);
      assert map[][e.id := e] == map[e.id := e];
      UnionAssoc(m, map[e.id := e], PutAll(map[], es[1..]));
    }
  }

  lemma UnionAssoc(a: map<string, SubRow>, b: map<string, SubRow>, c: map<string, SubRow>)
    ensures (a + b) + c == a + (b + c)
  {
  }

  /** Populating overrides the old store with the rows the cube list alone determines. */
  lemma {:induction false} PopulateOverrides(m: map<string, SubRow>, rows: seq<CubeRow>)
    ensures Populate(m, rows) == m + Populate(map[], rows)
    decreases |rows|
  {
    if rows != [] {
      var init := rows[..|rows| - 1];
      var es := Entries(rows[|rows| - 1]);
      PopulateOverrides(m, init);
      PutAllOverrides(Populate(m, init), es);
      PutAllOverrides(Populate(map[], init), es);
      UnionAssoc(m, Populate(map[], init), PutAll(map[], es));
    }
  }

  /** Running the migration twice over the same cubes equals running it once. */
  lemma PopulateIdempotent(m: map<string, SubRow>, rows: seq<CubeRow>)
    ensures Populate(Populate(m, rows), rows) == Populate(m, rows)
  {
    var w := Populate(map[], rows);
    PopulateOverrides(m, rows);
    PopulateOverrides(m + w, rows);
    UnionAssoc(m, w, w);
    assert w + w == w;
  }

  /** After populating, every subId listed by a cube of the snapshot has a row. */
  lemma {:induction false} PopulateCovers(m: map<string, SubRow>, rows: seq<CubeRow>)
    ensures forall r, i :: r in rows && 0 <= i < |SubIdsOf(r)| ==> SubIdsOf(r)[i] in Populate(m, rows)
    decreases |rows|
  {
    if rows != [] {
      var init := rows[..|rows| - 1];
      var last := rows[|rows| - 1];
      PopulateCovers(m, init);
      assert rows == init + [last];
      PutAllWrites(Populate(m, init), Entries(last));
      forall r, i | r in rows && 0 <= i < |SubIdsOf(r)|
        ensures SubIdsOf(r)[i] in Populate(m, rows)
      {
        if r != last {
          PutAllKeeps(Populate(m, init), Entries(last), SubIdsOf(r)[i]);
        } else {
          assert Entries(last)[i].id == SubIdsOf(r)[i];
        }
      }
    }
  }

  /** Populating leaves the row of a key that no cube of the snapshot lists as it was. */
  lemma {:induction false} PopulateKeepsUnlisted(m: map<string, SubRow>, rows: seq<CubeRow>, k: string)
    requires k in m && forall r :: r in rows ==> k !in SubIdsOf(r)
    ensures k in Populate(m, rows) && Populate(m, rows)[k] == m[k]
    decreases |rows|
  {
    if rows != [] {
      var init := rows[..|rows| - 1];
      var last := rows[|rows| - 1];
      assert forall r :: r in init ==> r in rows;
      PopulateKeepsUnlisted(m, init, k);
      PutAllWrites(Populate(m, init), Entries(last));
    }
  }

  /** Putting entries adds each entry's key and leaves every other key alone. */
  lemma {:induction false} PutAllWrites(m: map<string, SubRow>, es: seq<SubRow>)
    ensures forall i :: 0 <= i < |es| ==> es[i].id in PutAll(m, es)
    ensures forall k :: k in m && (forall i :: 0 <= i < |es| ==> es[i].id != k) ==> k in PutAll(m, es) && PutAll(m, es)[k] == m[k]
    decreases |es|
  {
    if es != [] {
      PutAllWrites(m[es[0].id := es[0]], es[1..]);
      PutAllKeeps(m[es[0].id := es[0]], es[1..], es[0].id);
    }
  }

  /** A key present before putting stays present. */
  lemma {:induction false} PutAllKeeps(m: map<string, SubRow>, es: seq<SubRow>, k: string)
    requires k in m
    ensures k in PutAll(m, es)
    decreases |es|
  {
    if es != [] {
      PutAllKeeps(m[es[0].id := es[0]], es[1..], k);
    }
  }

  // ---------------------------------------------------------------------
  // Properties of the keys
  // ---------------------------------------------------------------------

  /** Different numbers have different decimal texts. */
  lemma {:induction false} DecimalInjective(a: nat, b: nat)
    requires Decimal(a) == Decimal(b)
    ensures a == b
    decreases a
  {
    if a >= 10 && b >= 10 {
      var da, db := Decimal(a), Decimal(b);
      assert da == Decimal(a / 10) + [DigitChar(a % 10)];
      assert db == Decimal(b / 10) + [DigitChar(b % 10)];
      assert da[..|da| - 1] == Decimal(a / 10) && db[..|db| - 1] == Decimal(b / 10);
      DecimalInjective(a / 10, b / 10);
    }
  }

  /**
   * Vertex keys `${subId}_${index}` name one (subId, index) pair each: the
   * last '_' of a key separates the two, since a decimal text has none.
   */
  lemma VertexKeyInjective(s1: string, i1: nat, s2: string, i2: nat)
    requires VertexKey(s1, i1) == VertexKey(s2, i2)
    ensures s1 == s2 && i1 == i2
  {
    SplitAtLastUnderscore(s1, Decimal(i1), s2, Decimal(i2));
    DecimalInjective(i1, i2);
  }

  /** `s + "_" + d` determines `s` and `d` when `d` has no '_'. */
  lemma SplitAtLastUnderscore(s1: string, d1: string, s2: string, d2: string)
    requires s1 + "_" + d1 == s2 + "_" + d2
    requires forall i :: 0 <= i < |d1| ==> d1[i] != '_'
    requires forall i :: 0 <= i < |d2| ==> d2[i] != '_'
    ensures s1 == s2 && d1 == d2
  {
    var key := s1 + "_" + d1;
    assert key == s1 + ("_" + d1) == s2 + ("_" + d2);
    assert key[|s1|] == '_' && key[|s2|] == '_';
    if |d1| != |d2| {
      assert false;
    }
    assert s1 == key[..|s1|] == s2;
    assert d1 == key[|s1| + 1..] == d2;
  }

  /** `saveSubCube`'s key: the parent's stored subId at `order` when there is one, the given subId otherwise. */
  lemma AssignedSubIdFromList(cubes: map<string, CubeRow>, cubeId: string, subId: string, order: int)
    ensures AssignedSubId(cubes, cubeId, subId, order)
      == if cubeId in cubes && 0 <= order < |SubIdsOf(cubes[cubeId])| then SubIdsOf(cubes[cubeId])[order] else subId
  {
  }

  // ---------------------------------------------------------------------
  // Loads after saves
  // ---------------------------------------------------------------------

  /**
   * `loadCubes` after `saveCube`: the saved cube comes back as given and is
   * the only row with its id; every row with another id reads as before.
   */
  lemma SaveCubeThenLoad(m: map<string, CubeRow>, w: string, id: string, center: Point, subIds: seq<string>, es: seq<VertexEntry>)
    requires KeyedCubes(m)
    ensures var after := m[id := CubeRecord(w, id, center, subIds, es)];
      LoadedCube(id, w, Some(center), Some(subIds), es) in CubesOf(after, w)
      && (forall w', x :: x in CubesOf(after, w') && x.id == id ==> w' == w && x == LoadedCube(id, w, Some(center), Some(subIds), es))
      && (forall w', x: LoadedCube :: x.id != id ==> (x in CubesOf(after, w') <==> x in CubesOf(m, w')))
  {
    var after := m[id := CubeRecord(w, id, center, subIds, es)];
    assert UnpackCube(after[id]) == LoadedCube(id, w, Some(center), Some(subIds), es);
    assert id in Matching(after, CubeWindow, {w});
    forall w', x: LoadedCube | x.id != id
      ensures x in CubesOf(after, w') <==> x in CubesOf(m, w')
    {
      if x in CubesOf(after, w') {
        var k :| k in Matching(after, CubeWindow, {w'}) && k in after && x == UnpackCube(after[k]);
        assert k in Matching(m, CubeWindow, {w'});
      }
      if x in CubesOf(m, w') {
        var k :| k in Matching(m, CubeWindow, {w'}) && k in m && x == UnpackCube(m[k]);
        assert k in Matching(after, CubeWindow, {w'});
      }
    }
  }

  /**
   * `saveSubCube` for a cube saved with `subIds` stores the row under
   * `subIds[order]` whatever subId it is given, and `loadSubCubes` returns it.
   */
  lemma SaveSubCubeThenLoad(cubes: map<string, CubeRow>, subs: map<string, SubRow>, w: string, c: string,
                            center: Point, subIds: seq<string>, es: seq<VertexEntry>,
                            subId: string, subCenter: Point, blendId: string, vertexIds: seq<string>, order: int)
    requires c in cubes && cubes[c] == CubeRecord(w, c, center, subIds, es)
    requires 0 <= order < |subIds|
    ensures AssignedSubId(cubes, c, subId, order) == subIds[order]
    ensures var key := subIds[order];
      LoadedSubCube(key, c, w, Some(subCenter), c, Some(blendId), vertexIds, order)
        in SubCubesOf(subs[key := SubRecord(key, w, c, subCenter, blendId, vertexIds, order)], w, c)
  {
    var key := subIds[order];
    var after := subs[key := SubRecord(key, w, c, subCenter, blendId, vertexIds, order)];
    assert UnpackSub(after[key]) == LoadedSubCube(key, c, w, Some(subCenter), c, Some(blendId), vertexIds, order);
    assert key in Matching(after, SubOwner, {c});
  }

  /**
   * Subcube keys do not name the cube: a row of another cube put under key
   * `k` replaces whatever cube `a` had there, so `loadSubCubes` for `a`
   * returns no subcube with id `k` any more.
   */
  lemma SubCubeKeysCollide(subs: map<string, SubRow>, a: string, k: string, row: SubRow)
    requires KeyedSubs(subs) && row.id == k && row.cubeId != a
    ensures var after := subs[k := row];
      forall w, x :: x in SubCubesOf(after, w, a) ==> x.id != k
  {
  }

  /** `loadVertices` after `saveVertex`: the saved vertex comes back as given. */
  lemma SaveVertexThenLoad(m: map<string, VertexRow>, w: string, c: string, s: string, i: nat,
                           color: seq<int>, position: Point, blendId: string, weight: real)
    ensures var after := m[VertexKey(s, i) := VertexRecord(w, c, s, i, color, position, blendId, weight)];
      LoadedVertex(VertexKey(s, i), i, s, c, w, Some(color), Some(position), Some(blendId), Some(weight))
        in VerticesOf(after, w, c, s)
  {
    var key := VertexKey(s, i);
    var after := m[key := VertexRecord(w, c, s, i, color, position, blendId, weight)];
    assert UnpackVertex(after[key]) == LoadedVertex(key, i, s, c, w, Some(color), Some(position), Some(blendId), Some(weight));
    assert key in Matching(after, VertexSub, {s});
  }

  /**
   * `saveVertex` keeps the store keyed, and every vertex with another
   * (subcube, index) pair loads as before: distinct pairs have distinct keys.
   */
  lemma SaveVertexKeepsOthers(m: map<string, VertexRow>, s: string, i: nat, row: VertexRow)
    requires KeyedVertices(m)
    requires row.id == VertexKey(s, i) && row.subCubeId == s && row.index == i
    ensures var after := m[VertexKey(s, i) := row];
      KeyedVertices(after)
      && (forall w', c', s', x: LoadedVertex :: x.subCubeId != s || x.index != i ==>
            (x in VerticesOf(after, w', c', s') <==> x in VerticesOf(m, w', c', s')))
  {
    var key := VertexKey(s, i);
    var after := m[key := row];
    forall w', c', s', x: LoadedVertex | x.subCubeId != s || x.index != i
      ensures x in VerticesOf(after, w', c', s') <==> x in VerticesOf(m, w', c', s')
    {
      if x in VerticesOf(after, w', c', s') {
        var k :| k in Matching(after, VertexSub, {s'}) && k in after && after[k].windowUID == w'
          && after[k].cubeId == c' && x == UnpackVertex(after[k]);
        assert k != key;
        assert k in Matching(m, VertexSub, {s'});
      }
      if x in VerticesOf(m, w', c', s') {
        var k :| k in Matching(m, VertexSub, {s'}) && k in m && m[k].windowUID == w'
          && m[k].cubeId == c' && x == UnpackVertex(m[k]);
        if k == key {
          VertexKeyInjective(m[k].subCubeId, m[k].index, s, i);
        }
        assert k in Matching(after, VertexSub, {s'});
      }
    }
  }

  /**
   * Vertex keys do not name the cube: once another cube saves vertex `i` of
   * subcube `s`, `loadVertices` for cube `a` and subcube `s` has no vertex `i`.
   */
  lemma VertexKeysCollide(m: map<string, VertexRow>, a: string, s: string, i: nat, row: VertexRow)
    requires KeyedVertices(m) && row.cubeId != a
    requires row.id == VertexKey(s, i) && row.subCubeId == s && row.index == i
    ensures var after := m[VertexKey(s, i) := row];
      forall w, x :: x in VerticesOf(after, w, a, s) ==> x.index != i
  {
  }

  // ---------------------------------------------------------------------
  // Loads after deletes
  // ---------------------------------------------------------------------

  /** After `deleteSubCubesByCube(c)` nothing loads for `c`, and every other cube's subcubes load as before. */
  lemma DeleteSubCubesByCubeThenLoad(m: map<string, SubRow>, c: string)
    ensures var after := m - Matching(m, SubOwner, {c});
      (forall w :: SubCubesOf(after, w, c) == {})
      && (forall w, c' :: c' != c ==> SubCubesOf(after, w, c') == SubCubesOf(m, w, c'))
  {
    var after := m - Matching(m, SubOwner, {c});
    forall w, c' | c' != c
      ensures SubCubesOf(after, w, c') == SubCubesOf(m, w, c')
    {
      assert Matching(after, SubOwner, {c'}) == Matching(m, SubOwner, {c'});
    }
  }

  /** After `deleteVerticesByCube(c)` no vertex loads for `c`, and every other cube's vertices load as before. */
  lemma DeleteVerticesByCubeThenLoad(m: map<string, VertexRow>, c: string)
    ensures var after := m - Matching(m, VertexOwner, {c});
      (forall w, s :: VerticesOf(after, w, c, s) == {})
      && (forall w, c', s :: c' != c ==> VerticesOf(after, w, c', s) == VerticesOf(m, w, c', s))
  {
    var after := m - Matching(m, VertexOwner, {c});
    forall w, c', s | c' != c
      ensures VerticesOf(after, w, c', s) == VerticesOf(m, w, c', s)
    {
      forall x | x in VerticesOf(m, w, c', s)
        ensures x in VerticesOf(after, w, c', s)
      {
        var k :| k in Matching(m, VertexSub, {s}) && k in m && m[k].windowUID == w
          && m[k].cubeId == c' && x == UnpackVertex(m[k]);
        assert k in Matching(after, VertexSub, {s});
      }
    }
  }

  /** After `deleteCube(c)` exactly the cube with id `c` has gone from every load. */
  lemma DeleteCubeThenLoad(m: map<string, CubeRow>, c: string)
    requires KeyedCubes(m)
    ensures forall w, x :: x in CubesOf(m - {c}, w) ==> x in CubesOf(m, w) && x.id != c
    ensures forall w, x :: x in CubesOf(m, w) && x.id != c ==> x in CubesOf(m - {c}, w)
  {
    var after := m - {c};
    forall w, x | x in CubesOf(after, w)
      ensures x in CubesOf(m, w) && x.id != c
    {
      var k :| k in Matching(after, CubeWindow, {w}) && k in after && x == UnpackCube(after[k]);
      assert x.id == after[k].id == k;
      assert k in Matching(m, CubeWindow, {w});
    }
    assert forall w, x :: x in CubesOf(m - {c}, w) ==> x in CubesOf(m, w) && x.id != c;
    forall w, x | x in CubesOf(m, w) && x.id != c
      ensures x in CubesOf(after, w)
    {
      var k :| k in Matching(m, CubeWindow, {w}) && k in m && x == UnpackCube(m[k]);
      assert x.id == m[k].id == k;
      assert k in Matching(after, CubeWindow, {w});
    }
  }

  /** After `deleteWindowData(w)` nothing loads for `w`, and every other window loads as before. */
  lemma DeleteWindowDataThenLoad(cubes: map<string, CubeRow>, subs: map<string, SubRow>, verts: map<string, VertexRow>, w: string)
    ensures var cubes' := cubes - Matching(cubes, CubeWindow, {w});
      var subs' := subs - Matching(subs, SubWindow, {w});
      var verts' := verts - Matching(verts, VertexWindow, {w});
      CubesOf(cubes', w) == {}
      && (forall c :: SubCubesOf(subs', w, c) == {})
      && (forall c, s :: VerticesOf(verts', w, c, s) == {})
      && (forall w' :: w' != w ==> CubesOf(cubes', w') == CubesOf(cubes, w'))
      && (forall w', c :: w' != w ==> SubCubesOf(subs', w', c) == SubCubesOf(subs, w', c))
      && (forall w', c, s :: w' != w ==> VerticesOf(verts', w', c, s) == VerticesOf(verts, w', c, s))
  {
    var cubes' := cubes - Matching(cubes, CubeWindow, {w});
    var subs' := subs - Matching(subs, SubWindow, {w});
    var verts' := verts - Matching(verts, VertexWindow, {w});
    forall w' | w' != w
      ensures CubesOf(cubes', w') == CubesOf(cubes, w')
    {
      assert Matching(cubes', CubeWindow, {w'}) == Matching(cubes, CubeWindow, {w'});
    }
    forall w', c | w' != w
      ensures SubCubesOf(subs', w', c) == SubCubesOf(subs, w', c)
    {
      forall x | x in SubCubesOf(subs, w', c)
        ensures x in SubCubesOf(subs', w', c)
      {
        var k :| k in Matching(subs, SubOwner, {c}) && k in subs && subs[k].windowUID == w' && x == UnpackSub(subs[k]);
        assert k in Matching(subs', SubOwner, {c});
      }
    }
    forall w', c, s | w' != w
      ensures VerticesOf(verts', w', c, s) == VerticesOf(verts, w', c, s)
    {
      forall x | x in VerticesOf(verts, w', c, s)
        ensures x in VerticesOf(verts', w', c, s)
      {
        var k :| k in Matching(verts, VertexSub, {s}) && k in verts && verts[k].windowUID == w'
          && verts[k].cubeId == c && x == UnpackVertex(verts[k]);
        assert k in Matching(verts', VertexSub, {s});
      }
    }
  }

  // ---------------------------------------------------------------------
  // Properties of the cleanup
  // ---------------------------------------------------------------------

  /**
   * After `cleanupStaleWindows(validIds)` every cube row left belongs to a
   * valid window, and every row of a valid window is still there.
   */
  lemma CleanupKeepsValidWindows(cubes: map<string, CubeRow>, subs: map<string, SubRow>, verts: map<string, VertexRow>, validIds: seq<string>)
    ensures var stale := Stale(cubes, validIds);
      var cubes' := cubes - Matching(cubes, CubeWindow, stale);
      (forall k :: k in cubes' ==> cubes'[k].windowUID in validIds)
      && (forall k :: k in cubes && cubes[k].windowUID in validIds ==> k in cubes')
      && (forall k :: k in subs && subs[k].windowUID in validIds ==> k in subs - Matching(subs, SubWindow, stale))
      && (forall k :: k in verts && verts[k].windowUID in validIds ==> k in verts - Matching(verts, VertexWindow, stale))
  {
  }

  /**
   * Stale windows are found through the cubes store only: a subcube row of a
   * window with no cube row survives the cleanup even if the window is not valid.
   */
  lemma CleanupMissesWindowsWithoutCubes(cubes: map<string, CubeRow>, subs: map<string, SubRow>, validIds: seq<string>, k: string)
    requires k in subs && forall j :: j in cubes ==> cubes[j].windowUID != subs[k].windowUID
    ensures k in subs - Matching(subs, SubWindow, Stale(cubes, validIds))
  {
  }
}
