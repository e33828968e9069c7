/** The area-of-interest index: a square grid of cells over the world's X-Z plane,
    each with the entities whose position falls into it. The cell width comes from
    the X extent alone, so along Z the last row takes everything beyond it. */
module AoiGrid {
  import opened Bytes
  import opened CellTable

  datatype Position = Position(x: real, y: real, z: real)

  datatype World = World(minX: real, maxX: real, minZ: real, maxZ: real, gridCount: int) {
    predicate Valid() {
      minX < maxX && gridCount > 0
    }

    predicate Contains(x: real, z: real) {
      minX <= x < maxX && minZ <= z < maxZ
    }

    function GridWidth(): (g: real)
      requires Valid()
      ensures g > 0.0
    {
      (maxX - minX) / gridCount as real
    }
  }

  /** The objects as they are now: the index keeps references, and an entity's
      position changes under them. */
  datatype Entity = Entity(id: string, typeId: int, pos: Position)
  type Store = map<Ref, Entity>

  const PLAYER := 0

  function AllCells(n: int): (s: set<GridPos>)
    ensures forall c: GridPos :: c in s <==> 0 <= c.x < n && 0 <= c.y < n
  {
    set x, y | 0 <= x < n && 0 <= y < n :: GridPos(x, y)
  }

  /******* Cell arithmetic *******/

  function Min(a: int, b: int): (m: int)
  {
    if a <= b then a else b
  }

  function Ceil(r: real): (n: int)
    ensures n as real - 1.0 < r <= n as real
  {
    -(-r).Floor
  }

  /** The index of the cell at this distance from the world's edge. */
  function CellIndex(w: World, offset: real): (i: int)
    requires w.Valid() && offset >= 0.0
    ensures 0 <= i < w.gridCount
  {
    DivideMonotone(0.0, offset, w.GridWidth());
    Min((offset / w.GridWidth()).Floor, w.gridCount - 1)
  }

  function Cell(w: World, x: real, z: real): (r: Option<GridPos>)
    requires w.Valid()
    ensures r.Some? <==> w.Contains(x, z)
    ensures r.Some? ==> r.value in AllCells(w.gridCount)
  {
    if !w.Contains(x, z) then None
    else Some(GridPos(CellIndex(w, x - w.minX), CellIndex(w, z - w.minZ)))
  }

  lemma DivideMonotone(a: real, b: real, g: real)
    requires g > 0.0 && a <= b
    ensures a / g <= b / g
  {
    assert b / g - a / g == (b - a) / g;
  }

  lemma DivideDifference(a: real, b: real, g: real)
    requires g > 0.0
    ensures a / g - b / g == (a - b) / g
  {
  }

  /** Rounding moves by no more cells than the distance is long, rounded up; taking
      the last row for everything beyond it brings cells only closer. */
  lemma IndexDrift(w: World, a: real, b: real, d: real)
    requires w.Valid() && a >= 0.0 && b >= 0.0 && a - b <= d
    ensures CellIndex(w, a) - CellIndex(w, b) <= Max(0, Ceil(d / w.GridWidth()))
  {
    var g := w.GridWidth();
    DivideMonotone(a - b, d, g);
    DivideDifference(a, b, g);
    assert a / g <= b / g + d / g;
    assert (a / g).Floor <= (b / g).Floor + Ceil(d / g);
  }

  function Max(a: int, b: int): (m: int)
  {
    if a <= b then b else a
  }

  /** The last column is never a clamp: an X inside the world divides below the
      count. Along Z the clamp fires exactly beyond the X extent. */
  lemma ClampFires(w: World, x: real, z: real)
    requires w.Valid() && w.Contains(x, z)
    ensures ((x - w.minX) / w.GridWidth()).Floor < w.gridCount
    ensures ((z - w.minZ) / w.GridWidth()).Floor >= w.gridCount <==> z - w.minZ >= w.maxX - w.minX
  {
    var g, n := w.GridWidth(), w.gridCount as real;
    WidthTimesCount(w);
    Quotient(x - w.minX, g, n);
    Quotient(z - w.minZ, g, n);
  }

  lemma WidthTimesCount(w: World)
    requires w.Valid()
    ensures w.GridWidth() * w.gridCount as real == w.maxX - w.minX
  {
  }

  lemma Quotient(a: real, g: real, n: real)
    requires g > 0.0
    ensures a / g >= n <==> a >= g * n
  {
    assert a / g * g == a;
    if a / g >= n {
      assert (a / g - n) * g >= 0.0;
    } else {
      assert (n - a / g) * g > 0.0;
    }
  }

  /** The offset is in stretch `i` of the axis: one cell width long, the last one without end. */
  predicate InStretch(w: World, i: int, offset: real)
    requires w.Valid()
  {
    && 0 <= i < w.gridCount
    && i as real * w.GridWidth() <= offset
    && (i < w.gridCount - 1 ==> offset < (i + 1) as real * w.GridWidth())
  }

  predicate InSquare(w: World, c: GridPos, x: real, z: real)
    requires w.Valid()
  {
    InStretch(w, c.x, x - w.minX) && InStretch(w, c.y, z - w.minZ)
  }

  lemma IndexIff(w: World, offset: real, i: int)
    requires w.Valid() && offset >= 0.0
    ensures CellIndex(w, offset) == i <==> InStretch(w, i, offset)
  {
    if 0 <= i < w.gridCount {
      var g := w.GridWidth();
      DivideMonotone(0.0, offset, g);
      Quotient(offset, g, i as real);
      Quotient(offset, g, (i + 1) as real);
    }
  }

  /** Cells are squares: every position of the world is in exactly one, its cell. */
  lemma CellIff(w: World, x: real, z: real, c: GridPos)
    requires w.Valid()
    ensures Cell(w, x, z) == Some(c) <==> w.Contains(x, z) && InSquare(w, c, x, z)
  {
    if w.Contains(x, z) {
      IndexIff(w, x - w.minX, c.x);
      IndexIff(w, z - w.minZ, c.y);
    }
  }

  /** Within `range` cells on both axes. */
  predicate Near(c: GridPos, d: GridPos, range: int)
  {
    -range <= c.x - d.x <= range && -range <= c.y - d.y <= range
  }

  function Square(r: real): (s: real)
    ensures s >= 0.0
  {
    r * r
  }

  function DistanceSquared(p: Position, q: Position): (s: real)
    ensures s >= 0.0
  {
    Square(p.x - q.x) + Square(p.y - q.y) + Square(p.z - q.z)
  }

  /** It is the square of a length: it adds up over the axes, does not depend on direction or
      place, and is zero only between equal positions. */
  lemma DistanceAxes(p: Position, x: real, y: real, z: real)
    ensures var q := Position(p.x + x, p.y + y, p.z + z);
            && DistanceSquared(p, q) == DistanceSquared(q, p) == x * x + y * y + z * z
            && (DistanceSquared(p, q) == 0.0 <==> p == q)
  {
    var q := Position(p.x + x, p.y + y, p.z + z);
    assert p.x - q.x == -x && p.y - q.y == -y && p.z - q.z == -z;
    Opposite(x);
    Opposite(y);
    Opposite(z);
  }

  lemma Opposite(x: real)
    ensures Square(-x) == Square(x) == x * x
    ensures Square(x) == 0.0 <==> x == 0.0
  {
    if x > 0.0 {
      SquareGrows(x, 0.0);
    } else if x < 0.0 {
      SquareGrows(-x, 0.0);
    }
  }

  lemma RootMonotone(a: real, d: real)
    requires d >= 0.0 && Square(a) <= Square(d)
    ensures -d <= a <= d
  {
    if a > d {
      SquareGrows(a, d);
    } else if a < -d {
      SquareGrows(-a, d);
    }
  }

  lemma SquareGrows(a: real, b: real)
    requires a > b >= 0.0
    ensures Square(a) > Square(b) && Square(-a) == Square(a)
  {
    var d := a - b;
    Products(b, d);
    assert (b + d) * (b + d) == b * b + b * d + b * d + d * d;
    assert Square(a) == (b + d) * (b + d);
  }

  lemma Products(b: real, d: real)
    requires b >= 0.0 && d > 0.0
    ensures b * d >= 0.0 && d * d > 0.0
  {
  }

  /** Whatever is within a distance is within that many cells, rounded up, on both
      axes and whatever the extents. */
  lemma CloseIsNear(w: World, p: Position, q: Position, d: real)
    requires w.Valid() && w.Contains(p.x, p.z) && w.Contains(q.x, q.z)
    requires d >= 0.0 && DistanceSquared(p, q) <= Square(d)
    ensures Near(Cell(w, p.x, p.z).value, Cell(w, q.x, q.z).value, Ceil(d / w.GridWidth()))
  {
    RootMonotone(p.x - q.x, d);
    RootMonotone(p.z - q.z, d);
    AxisNear(w, p.x - w.minX, q.x - w.minX, d);
    AxisNear(w, p.z - w.minZ, q.z - w.minZ, d);
  }

  lemma AxisNear(w: World, a: real, b: real, d: real)
    requires w.Valid() && a >= 0.0 && b >= 0.0 && d >= 0.0 && -d <= a - b <= d
    ensures -Ceil(d / w.GridWidth()) <= CellIndex(w, a) - CellIndex(w, b) <= Ceil(d / w.GridWidth())
  {
    DivideMonotone(0.0, d, w.GridWidth());
    IndexDrift(w, a, b, d);
    IndexDrift(w, b, a, d);
  }

  /******* The index and the objects *******/

  /** The homes of the objects that are in the world. */
  ghost function Homes(w: World, store: Store): (homes: map<Ref, GridPos>)
    requires w.Valid()
  {
    map r | r in store && w.Contains(store[r].pos.x, store[r].pos.z) :: Cell(w, store[r].pos.x, store[r].pos.z).value
  }

  ghost function Players(store: Store): (players: set<Ref>)
  {
    set r | r in store && store[r].typeId == PLAYER
  }

  ghost function SceneOf(w: World, store: Store, members: map<string, Ref>): (s: Scene)
    requires w.Valid()
  {
    Scene(Homes(w, store), Players(store), members)
  }

  /** The index is right for these members: each an object in the world, under its
      own id, in the one cell of its current position; no other entries; and every
      cell's player count the number of players in it. */
  ghost predicate Indexed(w: World, grids: Grids, store: Store, members: map<string, Ref>)
  {
    w.Valid() && OwnIds(store, members) && Faithful(AllCells(w.gridCount), grids, SceneOf(w, store, members))
  }

  ghost predicate OwnIds(store: Store, members: map<string, Ref>)
  {
    forall id :: id in members ==> members[id] in store && store[members[id]].id == id
  }

  ghost predicate Structured(w: World, grids: Grids)
  {
    w.Valid() && grids.Keys == AllCells(w.gridCount)
  }

  function Add(w: World, grids: Grids, r: Ref, e: Entity): (t: Grids)
    requires Structured(w, grids)
  {
    match Cell(w, e.pos.x, e.pos.z)
    case None => grids
    case Some(c) => grids[c := InsertInto(grids[c], e.id, r, e.typeId == PLAYER)]
  }

  function Remove(w: World, grids: Grids, e: Entity): (t: Grids)
    requires Structured(w, grids)
  {
    match Cell(w, e.pos.x, e.pos.z)
    case None => grids
    case Some(c) => grids[c := TakeFrom(grids[c], e.id, e.typeId == PLAYER)]
  }

  /** `e` is the entity at its new position; the old one is given. */
  function Update(w: World, grids: Grids, r: Ref, e: Entity, oldX: real, oldZ: real): (t: Grids)
    requires Structured(w, grids)
  {
    var from, to := Cell(w, oldX, oldZ), Cell(w, e.pos.x, e.pos.z);
    if from.None? || to.None? || from == to then grids
    else
      var out := grids[from.value := TakeFrom(grids[from.value], e.id, e.typeId == PLAYER)];
      out[to.value := InsertInto(out[to.value], e.id, r, e.typeId == PLAYER)]
  }

  function MoveTo(store: Store, r: Ref, pos: Position): (t: Store)
    requires r in store
  {
    store[r := store[r].(pos := pos)]
  }

  /** Every reference in the index is to an object. */
  ghost predicate Refers(grids: Grids, store: Store)
  {
    forall c, id :: c in grids && id in grids[c].entities ==> grids[c].entities[id] in store
  }

  /** Nothing the index does makes a reference to no object. */
  lemma RefersKept(w: World, grids: Grids, store: Store, r: Ref, e: Entity, oldX: real, oldZ: real)
    requires Structured(w, grids) && Refers(grids, store)
    ensures Refers(Add(w, grids, r, e), store[r := e])
    ensures Refers(Remove(w, grids, e), store)
    ensures Refers(Update(w, grids, r, e, oldX, oldZ), store[r := e])
  {
  }

  /** Adding an entity of the world makes it a member exactly when its id is not
      taken, or is taken by a non-player in the same cell: `playerCount` goes up on
      every add, and nothing is taken out of any other cell. */
  lemma AddIff(w: World, grids: Grids, store: Store, members: map<string, Ref>, r: Ref)
    requires Indexed(w, grids, store, members) && r in store && r in Homes(w, store)
    ensures var e := store[r];
            Indexed(w, Add(w, grids, r, e), store, members[e.id := r]) <==>
            (e.id in members ==> store[members[e.id]].typeId != PLAYER &&
                                 Homes(w, store)[members[e.id]] == Homes(w, store)[r])
  {
    var e := store[r];
    SceneFacts(w, store, members, r);
    AddJoinsIff(w, grids, SceneOf(w, store, members), r, e);
  }

  lemma SceneFacts(w: World, store: Store, members: map<string, Ref>, r: Ref)
    requires w.Valid() && OwnIds(store, members) && r in store && r in Homes(w, store)
    ensures var e, s := store[r], SceneOf(w, store, members);
            && r in s.homes && Cell(w, e.pos.x, e.pos.z) == Some(s.homes[r])
            && (r in s.players <==> e.typeId == PLAYER)
            && (e.id in members ==> (members[e.id] in s.players <==> store[members[e.id]].typeId == PLAYER))
            && (forall i :: i in s.members && i != e.id ==> s.members[i] != r)
            && OwnIds(store, members[e.id := r])
            && Join(s, e.id, r) == SceneOf(w, store, members[e.id := r])
  {
  }

  lemma AddJoinsIff(w: World, grids: Grids, s: Scene, r: Ref, e: Entity)
    requires w.Valid() && Faithful(AllCells(w.gridCount), grids, s)
    requires r in s.homes && Cell(w, e.pos.x, e.pos.z) == Some(s.homes[r])
    requires r in s.players <==> e.typeId == PLAYER
    requires forall i :: i in s.members && i != e.id ==> s.members[i] != r
    ensures Faithful(AllCells(w.gridCount), Add(w, grids, r, e), Join(s, e.id, r)) <==>
            (e.id in s.members ==> s.members[e.id] !in s.players && s.homes[s.members[e.id]] == s.homes[r])
  {
    if e.id in s.members {
      ReentryIff(AllCells(w.gridCount), grids, s, e.id, r);
    } else {
      InsertJoins(AllCells(w.gridCount), grids, s, e.id, r);
    }
  }

  lemma RemoveKeeps(w: World, grids: Grids, store: Store, members: map<string, Ref>, id: string)
    requires Indexed(w, grids, store, members) && id in members
    ensures Indexed(w, Remove(w, grids, store[members[id]]), store, members - {id})
  {
    var s, cells := SceneOf(w, store, members), AllCells(w.gridCount);
    assert Leave(s, id) == SceneOf(w, store, members - {id});
    TakeLeaves(cells, grids, s, id);
  }

  /** After a member moves and the move is reported, the index is right exactly when
      the new position is in the world. */
  lemma MoveIff(w: World, grids: Grids, store: Store, members: map<string, Ref>, id: string, pos: Position)
    requires Indexed(w, grids, store, members) && id in members
    ensures var r := members[id]; var store' := MoveTo(store, r, pos);
            Indexed(w, Update(w, grids, r, store'[r], store[r].pos.x, store[r].pos.z), store', members) <==>
            w.Contains(pos.x, pos.z)
  {
    if w.Contains(pos.x, pos.z) {
      MoveKeeps(w, grids, store, members, id, pos);
    } else {
      assert members[id] !in Homes(w, MoveTo(store, members[id], pos));
    }
  }

  lemma MoveKeeps(w: World, grids: Grids, store: Store, members: map<string, Ref>, id: string, pos: Position)
    requires Indexed(w, grids, store, members) && id in members && w.Contains(pos.x, pos.z)
    ensures var r := members[id]; var store' := MoveTo(store, r, pos);
            Indexed(w, Update(w, grids, r, store'[r], store[r].pos.x, store[r].pos.z), store', members)
  {
    var r := members[id];
    SceneAfterMove(w, store, members, r, pos);
    assert r in Homes(w, store);
    SceneFacts(w, store, members, r);
    UpdateFollows(w, grids, SceneOf(w, store, members), id, store[r].(pos := pos), store[r].pos.x, store[r].pos.z);
  }

  lemma UpdateFollows(w: World, grids: Grids, s: Scene, id: string, e: Entity, oldX: real, oldZ: real)
    requires w.Valid() && Faithful(AllCells(w.gridCount), grids, s) && id in s.members && e.id == id
    requires s.members[id] in s.players <==> e.typeId == PLAYER
    requires Cell(w, oldX, oldZ) == Some(s.homes[s.members[id]]) && Cell(w, e.pos.x, e.pos.z).Some?
    ensures var r := s.members[id];
            Faithful(AllCells(w.gridCount), Update(w, grids, r, e, oldX, oldZ),
                     Rehome(s, r, Cell(w, e.pos.x, e.pos.z).value))
  {
    var r, to := s.members[id], Cell(w, e.pos.x, e.pos.z).value;
    if s.homes[r] == to {
      assert s.homes[r := to] == s.homes;
    } else {
      MemberMoves(AllCells(w.gridCount), grids, s, id, to);
    }
  }

  lemma SceneAfterMove(w: World, store: Store, members: map<string, Ref>, r: Ref, pos: Position)
    requires w.Valid() && OwnIds(store, members) && r in store && w.Contains(pos.x, pos.z)
    ensures OwnIds(MoveTo(store, r, pos), members)
    ensures SceneOf(w, MoveTo(store, r, pos), members) ==
            Rehome(SceneOf(w, store, members), r, Cell(w, pos.x, pos.z).value)
  {
    assert Homes(w, MoveTo(store, r, pos)) == Homes(w, store)[r := Cell(w, pos.x, pos.z).value];
    assert Players(MoveTo(store, r, pos)) == Players(store);
  }

  /** A new object, or an object that is no member changing in any way, does not
      concern the index. */
  lemma StrangerKeeps(w: World, grids: Grids, store: Store, members: map<string, Ref>, r: Ref, e: Entity)
    requires Indexed(w, grids, store, members) && forall id :: id in members ==> members[id] != r
    ensures Indexed(w, grids, store[r := e], members)
  {
    StrangerScene(w, store, members, r, e);
    SameScene(AllCells(w.gridCount), grids, SceneOf(w, store, members), SceneOf(w, store[r := e], members));
  }

  lemma StrangerScene(w: World, store: Store, members: map<string, Ref>, r: Ref, e: Entity)
    requires w.Valid() && forall id :: id in members ==> members[id] != r
    ensures SameForMembers(SceneOf(w, store, members), SceneOf(w, store[r := e], members))
  {
  }

  /******* Whole runs *******/

  /** What happens to the index and the objects: an object is created, added,
      removed, or moves and reports the move with its true old position. */
  datatype Event = Create(r: Ref, e: Entity) | Enter(r: Ref) | Exit(r: Ref) | Move(r: Ref, pos: Position)

  datatype State = State(grids: Grids, store: Store)

  function Step(w: World, s: State, ev: Event): (t: State)
    requires Structured(w, s.grids)
    ensures Structured(w, t.grids)
  {
    match ev
    case Create(r, e) => s.(store := s.store[r := e])
    case Enter(r) => if r in s.store then s.(grids := Add(w, s.grids, r, s.store[r])) else s
    case Exit(r) => if r in s.store then s.(grids := Remove(w, s.grids, s.store[r])) else s
    case Move(r, pos) =>
      if r !in s.store then s else
        var store := MoveTo(s.store, r, pos);
        State(Update(w, s.grids, r, store[r], s.store[r].pos.x, s.store[r].pos.z), store)
  }

  /** Who is in, by the plain account of entering and leaving. */
  function Track(w: World, s: State, members: map<string, Ref>, ev: Event): (m: map<string, Ref>)
  {
    match ev
    case Enter(r) =>
      if r in s.store && w.Contains(s.store[r].pos.x, s.store[r].pos.z) then members[s.store[r].id := r] else members
    case Exit(r) => if r in s.store then members - {s.store[r].id} else members
    case _ => members
  }

  /** The discipline a run keeps: objects are created once, ids enter once, whoever
      leaves or moves is in, and nobody moves out of the world. */
  predicate Disciplined(w: World, s: State, members: map<string, Ref>, ev: Event)
  {
    match ev
    case Create(r, e) => r !in s.store
    case Enter(r) => r in s.store && s.store[r].id !in members
    case Exit(r) => r in s.store && s.store[r].id in members && members[s.store[r].id] == r
    case Move(r, pos) =>
      r in s.store && s.store[r].id in members && members[s.store[r].id] == r && w.Contains(pos.x, pos.z)
  }

  lemma StepKeeps(w: World, s: State, members: map<string, Ref>, ev: Event)
    requires Indexed(w, s.grids, s.store, members) && Disciplined(w, s, members, ev)
    ensures var t := Step(w, s, ev); Indexed(w, t.grids, t.store, Track(w, s, members, ev))
  {
    match ev
    case Create(r, e) => StrangerKeeps(w, s.grids, s.store, members, r, e);
    case Enter(r) => if r in Homes(w, s.store) { AddIff(w, s.grids, s.store, members, r); }
    case Exit(r) => RemoveKeeps(w, s.grids, s.store, members, s.store[r].id);
    case Move(r, pos) => MoveKeeps(w, s.grids, s.store, members, s.store[r].id, pos);
  }

  function Empty(w: World): (s: State)
  {
    State(map c | c in AllCells(w.gridCount) :: Grid(map[], 0), map[])
  }

  /** Where a run ends, and who is then in. */
  function Replay(w: World, run: seq<Event>): (r: (State, map<string, Ref>))
    requires w.Valid()
    ensures Structured(w, r.0.grids)
    decreases |run|
  {
    if run == [] then (Empty(w), map[])
    else
      var (s, members) := Replay(w, run[..|run| - 1]);
      var last := run[|run| - 1];
      (Step(w, s, last), Track(w, s, members, last))
  }

  ghost predicate DisciplinedRun(w: World, run: seq<Event>)
    requires w.Valid()
    decreases |run|
  {
    run == [] ||
    var (s, members) := Replay(w, run[..|run| - 1]);
    DisciplinedRun(w, run[..|run| - 1]) && Disciplined(w, s, members, run[|run| - 1])
  }

  /** In every state a disciplined run reaches, the index is right. */
  lemma {:induction false} ReachableIndexed(w: World, run: seq<Event>)
    requires w.Valid() && DisciplinedRun(w, run)
    ensures var (s, members) := Replay(w, run); Indexed(w, s.grids, s.store, members)
    decreases |run|
  {
    if run == [] {
      EmptyIndexed(w);
    } else {
      var (s, members) := Replay(w, run[..|run| - 1]);
      ReachableIndexed(w, run[..|run| - 1]);
      StepKeeps(w, s, members, run[|run| - 1]);
    }
  }

  lemma EmptyIndexed(w: World)
    requires w.Valid()
    ensures Indexed(w, Empty(w).grids, map[], map[])
  {
    var s := SceneOf(w, map[], map[]);
    forall c | c in AllCells(w.gridCount) ensures CellOk(Empty(w).grids[c], s, c) {
      assert PlayersAt(s, c) == {};
    }
  }
}
