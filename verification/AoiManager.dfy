/** The AOI manager: the index kept in place, and the queries that read it. Entity
    objects live outside; `store` is what their `GetPosition`, `GetID` and
    `GetTypeID` answer at the time of a call. */
module AoiManager {
  import opened Bytes
  import opened Counting
  import opened CellTable
  import opened AoiGrid

  /** The members whose cell lies within `range` cells of `center`. */
  ghost function Nearby(w: World, store: Store, members: map<string, Ref>, center: GridPos,
                        range: int): (ids: set<string>)
    requires w.Valid()
  {
    set id | id in members && members[id] in Homes(w, store) && Near(Homes(w, store)[members[id]], center, range)
  }

  /** The brute-force scan: the members within a distance, positions compared one by
      one. It knows nothing of cells. */
  ghost function Within(store: Store, members: map<string, Ref>, p: Position, distance: real): (ids: set<string>)
  {
    set id | id in members && members[id] in store && Close(store, members[id], p, distance)
  }

  predicate Close(store: Store, r: Ref, p: Position, distance: real)
    requires r in store
  {
    DistanceSquared(store[r].pos, p) <= Square(distance)
  }

  ghost function Refs(members: map<string, Ref>, ids: set<string>): (refs: set<Ref>)
    requires ids <= members.Keys
  {
    set id | id in ids :: members[id]
  }

  /** `refs` lists the members `ids`, each once. */
  ghost predicate Lists(refs: seq<Ref>, members: map<string, Ref>, ids: set<string>)
  {
    ids <= members.Keys && NoDuplicates(refs) && forall r :: r in refs <==> r in Refs(members, ids)
  }

  /** The cells within the rounded-up range miss nobody within the distance. */
  lemma WithinIsNearby(w: World, grids: Grids, store: Store, members: map<string, Ref>, p: Position, distance: real)
    requires Indexed(w, grids, store, members) && w.Contains(p.x, p.z) && distance >= 0.0
    ensures Within(store, members, p, distance) <=
            Nearby(w, store, members, Cell(w, p.x, p.z).value, Ceil(distance / w.GridWidth()))
  {
    forall id | id in Within(store, members, p, distance)
      ensures id in Nearby(w, store, members, Cell(w, p.x, p.z).value, Ceil(distance / w.GridWidth()))
    {
      CloseIsNear(w, store[members[id]].pos, p, distance);
    }
  }

  ghost predicate Known(m: map<string, Ref>, store: Store)
  {
    forall id :: id in m ==> m[id] in store
  }

  /** The loop over one cell's entities: each goes into the map under its own id. */
  method MergeGrid(entityMap: map<string, Ref>, entities: map<string, Ref>, store: Store)
      returns (merged: map<string, Ref>)
    requires Known(entities, store) && Known(entityMap, store)
    ensures Known(merged, store)
    ensures OwnIds(store, entities) ==> merged == entityMap + entities
  {
    merged := entityMap;
    var keys := entities.Keys;
    assert entities - keys == map[];
    while keys != {}
      invariant keys <= entities.Keys && Known(merged, store)
      invariant OwnIds(store, entities) ==> merged == entityMap + (entities - keys)
      decreases |keys|
    {
      var id :| id in keys;
      MergeOne(entityMap, entities, keys, id);
      merged := merged[store[entities[id]].id := entities[id]];
      keys := keys - {id};
    }
    assert entities - {} == entities;
  }

  lemma MergeOne(entityMap: map<string, Ref>, entities: map<string, Ref>, keys: set<string>, id: string)
    requires id in keys && keys <= entities.Keys
    ensures (entityMap + (entities - keys))[id := entities[id]] == entityMap + (entities - (keys - {id}))
  {
  }

  ghost predicate Injective(m: map<string, Ref>)
  {
    forall i, j :: i in m && j in m && m[i] == m[j] ==> i == j
  }

  /** The map's values as a list. */
  method ListValues(m: map<string, Ref>) returns (refs: seq<Ref>)
    ensures forall r :: r in refs <==> r in m.Values
    ensures Injective(m) ==> NoDuplicates(refs)
  {
    refs := [];
    var keys := m.Keys;
    while keys != {}
      invariant keys <= m.Keys
      invariant forall r :: r in refs <==> exists id :: id in m && id !in keys && m[id] == r
      invariant Injective(m) ==> NoDuplicates(refs)
      decreases |keys|
    {
      var id :| id in keys;
      assert Injective(m) ==> m[id] !in refs;
      refs := refs + [m[id]];
      keys := keys - {id};
    }
  }

  /** The distance filter. */
  method KeepClose(refs: seq<Ref>, store: Store, p: Position, distance: real) returns (kept: seq<Ref>)
    requires forall q :: q in refs ==> q in store
    ensures NoDuplicates(refs) ==> NoDuplicates(kept)
    ensures forall q :: q in kept <==> q in refs && Close(store, q, p, distance)
  {
    kept := [];
    var k := 0;
    while k < |refs|
      invariant 0 <= k <= |refs|
      invariant NoDuplicates(refs) ==> NoDuplicates(kept)
      invariant forall q :: q in kept <==> q in refs[..k] && Close(store, q, p, distance)
    {
      assert NoDuplicates(refs) ==> refs[k] !in refs[..k];
      assert refs[..k + 1] == refs[..k] + [refs[k]];
      var pos := store[refs[k]].pos;
      var dx, dy, dz := pos.x - p.x, pos.y - p.y, pos.z - p.z;
      if Square(dx) + Square(dy) + Square(dz) <= Square(distance) { kept := kept + [refs[k]]; }
      k := k + 1;
    }
    assert refs[..k] == refs;
  }

  lemma ListClose(refs: seq<Ref>, kept: seq<Ref>, store: Store, members: map<string, Ref>, ids: set<string>,
                  p: Position, distance: real)
    requires Lists(refs, members, ids) && NoDuplicates(kept) && forall q :: q in refs ==> q in store
    requires forall q :: q in kept <==> q in refs && Close(store, q, p, distance)
    ensures Lists(kept, members, Within(store, members, p, distance) * ids)
  {
    var both := Within(store, members, p, distance) * ids;
    forall q | q in kept ensures q in Refs(members, both) {
      var id :| id in ids && members[id] == q;
      assert id in both;
    }
    forall q | q in Refs(members, both) ensures q in kept {
      var id :| id in both && members[id] == q;
      assert q in Refs(members, ids);
    }
  }

  /** The members at home in one of these cells. */
  ghost function In(w: World, store: Store, members: map<string, Ref>, cells: seq<GridPos>): (ids: set<string>)
    requires w.Valid()
  {
    set id | id in members && members[id] in Homes(w, store) && Homes(w, store)[members[id]] in cells
  }

  ghost predicate Holds(m: map<string, Ref>, members: map<string, Ref>, ids: set<string>)
  {
    m.Keys == ids && forall id :: id in m ==> id in members && m[id] == members[id]
  }

  /** The entities of these cells, merged in their order. */
  function Merged(grids: Grids, cells: seq<GridPos>): (m: map<string, Ref>)
    requires forall c :: c in cells ==> c in grids
  {
    if cells == [] then map[]
    else Merged(grids, cells[..|cells| - 1]) + grids[cells[|cells| - 1]].entities
  }

  method MergeCells(grids: Grids, cells: seq<GridPos>, store: Store) returns (m: map<string, Ref>)
    requires forall c :: c in cells ==> c in grids && Known(grids[c].entities, store)
    ensures Known(m, store)
    ensures (forall c :: c in cells ==> OwnIds(store, grids[c].entities)) ==> m == Merged(grids, cells)
  {
    m := map[];
    var k := 0;
    while k < |cells|
      invariant 0 <= k <= |cells| && Known(m, store)
      invariant (forall c :: c in cells ==> OwnIds(store, grids[c].entities)) ==> m == Merged(grids, cells[..k])
    {
      assert cells[..k + 1][..k] == cells[..k];
      m := MergeGrid(m, grids[cells[k]].entities, store);
      k := k + 1;
    }
    assert cells[..k] == cells;
  }

  lemma InStep(w: World, store: Store, members: map<string, Ref>, cells: seq<GridPos>, c: GridPos, id: string)
    requires w.Valid()
    ensures id in In(w, store, members, cells + [c]) <==>
            id in In(w, store, members, cells) || AtHome(SceneOf(w, store, members), id, c)
  {
  }

  lemma CellKeyed(w: World, grids: Grids, store: Store, members: map<string, Ref>, c: GridPos)
    requires Indexed(w, grids, store, members) && c in grids
    ensures OwnIds(store, grids[c].entities)
  {
    assert CellOk(grids[c], SceneOf(w, store, members), c);
  }

  lemma {:induction false} MergedHolds(w: World, grids: Grids, store: Store, members: map<string, Ref>,
                                       cells: seq<GridPos>)
    requires Indexed(w, grids, store, members) && forall c :: c in cells ==> c in grids
    ensures Holds(Merged(grids, cells), members, In(w, store, members, cells))
    decreases |cells|
  {
    if cells != [] {
      var front, c := cells[..|cells| - 1], cells[|cells| - 1];
      MergedHolds(w, grids, store, members, front);
      assert cells == front + [c];
      MergeStep(w, grids[c], store, members, front, c, Merged(grids, front));
    }
  }

  lemma MergeStep(w: World, g: Grid, store: Store, members: map<string, Ref>, cells: seq<GridPos>, c: GridPos,
                  m: map<string, Ref>)
    requires w.Valid() && CellOk(g, SceneOf(w, store, members), c) && Holds(m, members, In(w, store, members, cells))
    ensures Holds(m + g.entities, members, In(w, store, members, cells + [c]))
  {
    forall id ensures id in (m + g.entities).Keys <==> id in In(w, store, members, cells + [c]) {
      InStep(w, store, members, cells, c, id);
    }
  }

  lemma ListedOnce(w: World, grids: Grids, store: Store, members: map<string, Ref>, cells: seq<GridPos>,
                   center: GridPos, range: int)
    requires Indexed(w, grids, store, members)
    requires forall c :: c in cells <==> c in AllCells(w.gridCount) && Near(c, center, range)
    ensures In(w, store, members, cells) == Nearby(w, store, members, center, range) && Injective(members)
  {
    var s := SceneOf(w, store, members);
    assert Housed(AllCells(w.gridCount), s);
    assert forall id :: id in members ==> Homes(w, store)[members[id]] in AllCells(w.gridCount);
  }

  lemma NearbyListed(w: World, grids: Grids, store: Store, members: map<string, Ref>, cells: seq<GridPos>,
                     center: GridPos, range: int, m: map<string, Ref>, refs: seq<Ref>)
    requires Indexed(w, grids, store, members)
    requires forall c :: c in cells <==> c in AllCells(w.gridCount) && Near(c, center, range)
    requires (forall c :: c in cells ==> OwnIds(store, grids[c].entities)) ==> m == Merged(grids, cells)
    requires (forall r :: r in refs <==> r in m.Values) && (Injective(m) ==> NoDuplicates(refs))
    ensures Lists(refs, members, Nearby(w, store, members, center, range))
  {
    forall c | c in cells ensures OwnIds(store, grids[c].entities) { CellKeyed(w, grids, store, members, c); }
    MergedHolds(w, grids, store, members, cells);
    ListedOnce(w, grids, store, members, cells, center, range);
    HeldListed(m, members, Nearby(w, store, members, center, range), refs);
  }

  lemma HeldListed(m: map<string, Ref>, members: map<string, Ref>, ids: set<string>, refs: seq<Ref>)
    requires Holds(m, members, ids) && Injective(members)
    requires (forall r :: r in refs <==> r in m.Values) && (Injective(m) ==> NoDuplicates(refs))
    ensures Lists(refs, members, ids)
  {
    assert m.Values == Refs(members, ids);
  }

  ghost function PlayersIn(w: World, store: Store, members: map<string, Ref>, cells: seq<GridPos>): (ids: set<string>)
    requires w.Valid()
  {
    set id | id in In(w, store, members, cells) && store[members[id]].typeId == PLAYER
  }

  lemma PlayersSplit(w: World, store: Store, members: map<string, Ref>, cells: seq<GridPos>, c: GridPos)
    requires w.Valid() && OwnIds(store, members) && c !in cells
    ensures var s := SceneOf(w, store, members);
            PlayersIn(w, store, members, cells + [c]) == PlayersIn(w, store, members, cells) + PlayersAt(s, c) &&
            PlayersIn(w, store, members, cells) !! PlayersAt(s, c)
  {
  }

  function SumCounts(grids: Grids, cells: seq<GridPos>): (n: int)
    requires forall c :: c in cells ==> c in grids
  {
    if cells == [] then 0 else SumCounts(grids, cells[..|cells| - 1]) + grids[cells[|cells| - 1]].playerCount
  }

  lemma {:induction false} SumIsPlayers(w: World, grids: Grids, store: Store, members: map<string, Ref>,
                                        cells: seq<GridPos>)
    requires Indexed(w, grids, store, members) && NoDuplicates(cells) && forall c :: c in cells ==> c in grids
    ensures SumCounts(grids, cells) == |PlayersIn(w, store, members, cells)|
    decreases |cells|
  {
    if cells == [] {
      assert PlayersIn(w, store, members, cells) == {};
    } else {
      var front, c := cells[..|cells| - 1], cells[|cells| - 1];
      SumIsPlayers(w, grids, store, members, front);
      assert cells == front + [c];
      PlayersSplit(w, store, members, front, c);
      CountOk(w, grids, store, members, c);
    }
  }

  lemma CountOk(w: World, grids: Grids, store: Store, members: map<string, Ref>, c: GridPos)
    requires Indexed(w, grids, store, members) && c in grids
    ensures grids[c].playerCount == |PlayersAt(SceneOf(w, store, members), c)|
  {
    assert CellOk(grids[c], SceneOf(w, store, members), c);
  }

  class AOIManager {
    const world: World
    var grids: Grids

    ghost predicate Valid()
      reads this
    {
      Structured(world, grids)
    }

    constructor (minX: real, maxX: real, minZ: real, maxZ: real, gridCount: int)
      requires gridCount >= 0
      ensures world == World(minX, maxX, minZ, maxZ, gridCount) && grids == Empty(world).grids
      ensures minX < maxX && gridCount > 0 ==> Valid() && Indexed(world, grids, map[], map[])
    {
      var w := World(minX, maxX, minZ, maxZ, gridCount);
      var cells: Grids := map[];
      var i := 0;
      while i < gridCount
        invariant 0 <= i <= gridCount
        invariant forall c :: c in cells <==> c in AllCells(gridCount) && c.x < i
        invariant forall c :: c in cells ==> cells[c] == Grid(map[], 0)
      {
        var j := 0;
        while j < gridCount
          invariant 0 <= j <= gridCount
          invariant forall c :: c in cells <==> c in AllCells(gridCount) && (c.x < i || (c.x == i && c.y < j))
          invariant forall c :: c in cells ==> cells[c] == Grid(map[], 0)
        {
          cells := cells[GridPos(i, j) := Grid(map[], 0)];
          j := j + 1;
        }
        i := i + 1;
      }
      assert cells == Empty(w).grids;
      world, grids := w, cells;
      if w.Valid() {
        EmptyIndexed(w);
      }
    }

    method GetGrid(x: real, z: real) returns (r: Option<GridPos>)
      requires Valid()
      ensures r == Cell(world, x, z)
      ensures r.Some? <==> world.minX <= x < world.maxX && world.minZ <= z < world.maxZ
      ensures r.Some? ==> InSquare(world, r.value, x, z)
    {
      if x < world.minX || x >= world.maxX || z < world.minZ || z >= world.maxZ { return None; }
      var gridX := ((x - world.minX) / world.GridWidth()).Floor;
      var gridZ := ((z - world.minZ) / world.GridWidth()).Floor;
      if gridX >= world.gridCount { gridX := world.gridCount - 1; }
      if gridZ >= world.gridCount { gridZ := world.gridCount - 1; }
      r := Some(GridPos(gridX, gridZ));
      CellIff(world, x, z, r.value);
    }

    method AddEntity(r: Ref, e: Entity) returns (ok: bool)
      requires Valid()
      modifies this
      ensures Valid() && grids == Add(world, old(grids), r, e) && ok == world.Contains(e.pos.x, e.pos.z)
    {
      var grid := GetGrid(e.pos.x, e.pos.z);
      if grid.None? { return false; }
      var g := grids[grid.value];
      g := g.(entities := g.entities[e.id := r]);
      if e.typeId == PLAYER { g := g.(playerCount := g.playerCount + 1); }
      grids := grids[grid.value := g];
      ok := true;
    }

    method RemoveEntity(e: Entity) returns (ok: bool)
      requires Valid()
      modifies this
      ensures Valid() && grids == Remove(world, old(grids), e) && ok == world.Contains(e.pos.x, e.pos.z)
    {
      var grid := GetGrid(e.pos.x, e.pos.z);
      if grid.None? { return false; }
      var g := grids[grid.value];
      if e.id in g.entities {
        g := g.(entities := g.entities - {e.id});
        if e.typeId == PLAYER { g := g.(playerCount := g.playerCount - 1); }
        grids := grids[grid.value := g];
      }
      ok := true;
    }

    method UpdateEntity(r: Ref, e: Entity, oldX: real, oldZ: real) returns (ok: bool)
      requires Valid()
      modifies this
      ensures Valid() && grids == Update(world, old(grids), r, e, oldX, oldZ)
      ensures ok == (world.Contains(oldX, oldZ) && world.Contains(e.pos.x, e.pos.z))
      ensures !ok || Cell(world, oldX, oldZ) == Cell(world, e.pos.x, e.pos.z) ==> grids == old(grids)
    {
      var oldGrid := GetGrid(oldX, oldZ);
      if oldGrid.None? { return false; }
      var newGrid := GetGrid(e.pos.x, e.pos.z);
      if newGrid.None? { return false; }
      if oldGrid.value == newGrid.value { return true; }
      TakeOut(oldGrid.value, e);
      PutIn(newGrid.value, r, e);
      ok := true;
    }

    /** The critical section of the old cell. */
    method TakeOut(c: GridPos, e: Entity)
      requires Valid() && c in grids
      modifies this
      ensures Valid() && grids == old(grids)[c := TakeFrom(old(grids[c]), e.id, e.typeId == PLAYER)]
    {
      var g := grids[c];
      if e.id in g.entities {
        g := g.(entities := g.entities - {e.id});
        if e.typeId == PLAYER { g := g.(playerCount := g.playerCount - 1); }
        grids := grids[c := g];
      }
    }

    /** The critical section of the new cell. */
    method PutIn(c: GridPos, r: Ref, e: Entity)
      requires Valid() && c in grids
      modifies this
      ensures Valid() && grids == old(grids)[c := InsertInto(old(grids[c]), e.id, r, e.typeId == PLAYER)]
    {
      var g := grids[c];
      g := g.(entities := g.entities[e.id := r]);
      if e.typeId == PLAYER { g := g.(playerCount := g.playerCount + 1); }
      grids := grids[c := g];
    }

    /** Every cell of the table within the range, once. */
    method GetSurroundingGridsByRange(center: GridPos, range: int) returns (cells: seq<GridPos>)
      requires Valid()
      ensures NoDuplicates(cells)
      ensures forall c :: c in cells <==> c in AllCells(world.gridCount) && Near(c, center, range)
      ensures forall c :: c in cells <==>
                && 0 <= c.x < world.gridCount && center.x - range <= c.x <= center.x + range
                && 0 <= c.y < world.gridCount && center.y - range <= c.y <= center.y + range
    {
      cells := [];
      var x := center.x - range;
      while x <= center.x + range
        invariant x >= center.x - range && NoDuplicates(cells)
        invariant forall c :: c in cells <==> c in AllCells(world.gridCount) && Near(c, center, range) && c.x < x
      {
        var y := center.y - range;
        while y <= center.y + range
          invariant y >= center.y - range && NoDuplicates(cells)
          invariant forall c :: c in cells <==>
                      c in AllCells(world.gridCount) && Near(c, center, range) && (c.x < x || (c.x == x && c.y < y))
        {
          if 0 <= x < world.gridCount && 0 <= y < world.gridCount { cells := cells + [GridPos(x, y)]; }
          y := y + 1;
        }
        x := x + 1;
      }
    }

    method GetSurroundingEntities(store: Store, x: real, z: real, range: int, ghost members: map<string, Ref>)
      returns (r: Option<seq<Ref>>)
      requires Valid() && Refers(grids, store)
      ensures r.Some? <==> world.Contains(x, z)
      ensures r.Some? ==> forall q :: q in r.value ==> q in store
      ensures r.Some? && Indexed(world, grids, store, members) ==>
                Lists(r.value, members, Nearby(world, store, members, Cell(world, x, z).value, range))
    {
      var center := GetGrid(x, z);
      if center.None? { return None; }
      var cells := GetSurroundingGridsByRange(center.value, range);
      var entityMap := MergeCells(grids, cells, store);
      var entities := ListValues(entityMap);
      if Indexed(world, grids, store, members) {
        NearbyListed(world, grids, store, members, cells, center.value, range, entityMap, entities);
      }
      r := Some(entities);
    }

    /** The members within the range of cells that the distance reaches and within
        the distance itself; for a distance that is not negative these are all the
        members within it. */
    method GetEntitiesByDistance(store: Store, p: Position, distance: real, ghost members: map<string, Ref>)
      returns (r: Option<seq<Ref>>)
      requires Valid() && Refers(grids, store)
      ensures r.Some? <==> world.Contains(p.x, p.z)
      ensures r.Some? && Indexed(world, grids, store, members) ==>
                Lists(r.value, members,
                      Within(store, members, p, distance) *
                      Nearby(world, store, members, Cell(world, p.x, p.z).value, Ceil(distance / world.GridWidth())))
      ensures r.Some? && Indexed(world, grids, store, members) && distance >= 0.0 ==>
                Lists(r.value, members, Within(store, members, p, distance))
    {
      var gridRange := Ceil(distance / world.GridWidth());
      var surrounding := GetSurroundingEntities(store, p.x, p.z, gridRange, members);
      if surrounding.None? { return None; }
      var entities := KeepClose(surrounding.value, store, p, distance);
      if Indexed(world, grids, store, members) {
        ghost var nearby := Nearby(world, store, members, Cell(world, p.x, p.z).value, gridRange);
        ListClose(surrounding.value, entities, store, members, nearby, p, distance);
        if distance >= 0.0 {
          WithinIsNearby(world, grids, store, members, p, distance);
          assert Within(store, members, p, distance) * nearby == Within(store, members, p, distance);
        }
      }
      r := Some(entities);
    }

    /** The number of players whose cell lies within the range. */
    method GetNearbyPlayers(store: Store, x: real, z: real, range: int, ghost members: map<string, Ref>)
      returns (r: Option<int>)
      requires Valid()
      ensures r.Some? <==> world.Contains(x, z)
      ensures r.Some? && Indexed(world, grids, store, members) ==>
                var nearby := Nearby(world, store, members, Cell(world, x, z).value, range);
                r.value == |set id | id in nearby && store[members[id]].typeId == PLAYER|
    {
      var center := GetGrid(x, z);
      if center.None? { return None; }
      var cells := GetSurroundingGridsByRange(center.value, range);
      var playerCount, k := 0, 0;
      while k < |cells|
        invariant 0 <= k <= |cells|
        invariant playerCount == SumCounts(grids, cells[..k])
      {
        assert cells[..k + 1][..k] == cells[..k];
        playerCount := playerCount + grids[cells[k]].playerCount;
        k := k + 1;
      }
      assert cells[..k] == cells;
      if Indexed(world, grids, store, members) {
        SumIsPlayers(world, grids, store, members, cells);
        ListedOnce(world, grids, store, members, cells, center.value, range);
      }
      r := Some(playerCount);
    }
  }
}
