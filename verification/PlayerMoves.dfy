/** Position updates as they really run: without the manager's lock, in several critical
    sections, between which anything else can happen. */
module PlayerMoves {
  import opened Bytes
  import opened CellTable
  import opened AoiGrid
  import opened PlayerState
  import opened L = MoveLedger

  datatype System = System(m: Manager, calls: map<nat, Stage>)

  datatype Step =
    | Manage(command: Command)         // register, unregister, subscribe, unsubscribe
    | Find(call: nat, id: string)      // GetPlayer
    | Look(call: nat)                  // the old position is read
    | Store(call: nat, pos: Position)  // the new position is stored
    | Aim(call: nat)                   // UpdateEntity reads it and finds the cells
    | TakeOut(call: nat)               // the old cell's critical section
    | PutIn(call: nat)                 // the new cell's critical section

  predicate Enabled(s: System, step: Step)
  {
    match step
    case Manage(command) => !command.DoMove?
    case Find(k, id) => k !in s.calls && id in s.m.players
    case Look(k) => k in s.calls && s.calls[k].Found?
    case Store(k, pos) => k in s.calls && s.calls[k].Knows?
    case Aim(k) => k in s.calls && s.calls[k].Stored?
    case TakeOut(k) => k in s.calls && s.calls[k].Aimed?
    case PutIn(k) => k in s.calls && s.calls[k].Out?
  }

  /** The object and the cells that a call refers to exist. */
  predicate Grounded(m: Manager, stage: Stage)
  {
    && stage.r in m.objects
    && ((stage.Knows? || stage.Stored?) && stage.before.Some? ==> stage.before.value in m.grids)
    && (stage.Aimed? ==> stage.from in m.grids && stage.to in m.grids)
    && (stage.Out? ==> stage.to in m.grids)
  }

  ghost predicate Rooted(s: System)
  {
    Sound(s.m) && forall k :: k in s.calls ==> Grounded(s.m, s.calls[k])
  }

  function CellOf(pos: Position): (c: Option<GridPos>)
  {
    Cell(ARENA, pos.x, pos.z)
  }

  /** What is left to do: nothing when a position is outside or the cell is the same. */
  function Target(stage: Stage, to: Option<GridPos>): (next: Option<Stage>)
    requires stage.Stored?
  {
    if stage.before.None? || to.None? || stage.before == to then None
    else Some(Aimed(stage.r, stage.before.value, to.value))
  }

  function Replaced(m: Manager, c: GridPos, g: Grid): (t: Manager)
  {
    m.(grids := m.grids[c := g])
  }

  function Taken(m: Manager, call: Stage): (t: Manager)
    requires call.Aimed? && Grounded(m, call)
  {
    var e := m.objects[call.r];
    Replaced(m, call.from, TakeFrom(m.grids[call.from], e.id, e.typeId == PLAYER))
  }

  function Put(m: Manager, call: Stage): (t: Manager)
    requires call.Out? && Grounded(m, call)
  {
    var e := m.objects[call.r];
    Replaced(m, call.to, InsertInto(m.grids[call.to], e.id, call.r, e.typeId == PLAYER))
  }

  function Stood(m: Manager, r: Ref, pos: Position): (t: Manager)
    requires r in m.objects
  {
    m.(objects := MoveTo(m.objects, r, pos))
  }

  function Advance(s: System, step: Step): (t: System)
    requires Rooted(s) && Enabled(s, step)
  {
    match step
    case Manage(command) => s.(m := PlayerState.Apply(s.m, command))
    case Find(k, id) => s.(calls := s.calls[k := Found(s.m.players[id])])
    case Look(k) => s.(calls := s.calls[k := Knows(s.calls[k].r, CellOf(s.m.objects[s.calls[k].r].pos))])
    case Store(k, pos) =>
      System(Stood(s.m, s.calls[k].r, pos), s.calls[k := Stored(s.calls[k].r, s.calls[k].before)])
    case Aim(k) =>
      var next := Target(s.calls[k], CellOf(s.m.objects[s.calls[k].r].pos));
      s.(calls := if next.Some? then s.calls[k := next.value] else s.calls - {k})
    case TakeOut(k) => System(Taken(s.m, s.calls[k]), s.calls[k := Out(s.calls[k].r, s.calls[k].to)])
    case PutIn(k) => System(Put(s.m, s.calls[k]), s.calls - {k})
  }

  /******* The ledger of a state *******/

  ghost function Names(objects: Store): (names: map<Ref, string>)
  {
    map r | r in objects :: objects[r].id
  }

  ghost function LedgerOf(m: Manager, calls: map<nat, Stage>): (l: Ledger)
  {
    Ledger(m.players, Names(m.objects), AoiGrid.Homes(ARENA, m.objects), calls)
  }

  ghost predicate AllPlayers(objects: Store)
  {
    forall r :: r in objects ==> objects[r].typeId == PLAYER
  }

  ghost predicate Kept(m: Manager)
  {
    Sound(m) && Subscriptions(m.players, m.subscribers) && Allocated(m.objects, m.nextRef) && AllPlayers(m.objects)
  }

  ghost predicate Shown(m: Manager, scene: Scene)
  {
    Faithful(AllCells(ARENA.gridCount), m.grids, scene)
  }

  /** The table shows the scene, and the ledger says how far the scene is behind. */
  ghost predicate Right(s: System, scene: Scene)
  {
    Kept(s.m) && Shown(s.m, scene) && L.Inv(LedgerOf(s.m, s.calls), scene)
  }

  lemma HomesAre(objects: Store, r: Ref)
    requires r in AoiGrid.Homes(ARENA, objects)
    ensures r in objects && CellOf(objects[r].pos) == Some(AoiGrid.Homes(ARENA, objects)[r])
    ensures AoiGrid.Homes(ARENA, objects)[r] in AllCells(ARENA.gridCount)
  {
  }

  lemma RightRooted(s: System, scene: Scene)
    requires Sound(s.m) && Shown(s.m, scene) && L.Inv(LedgerOf(s.m, s.calls), scene)
    ensures Rooted(s)
  {
    var l := LedgerOf(s.m, s.calls);
    forall k | k in s.calls ensures Grounded(s.m, s.calls[k]) {
      assert L.Fits(l, scene, s.calls[k]);
      HomesAre(s.m.objects, s.calls[k].r);
      if s.calls[k].Stored? || s.calls[k].Aimed? {
        assert scene.members[l.names[s.calls[k].r]] == s.calls[k].r;
      }
    }
  }

  /** When no move is half done, the table is right for the registered players. */
  lemma SettledConsistent(s: System, scene: Scene)
    requires Right(s, scene) && forall k :: k in s.calls ==> !HalfDone(s.calls[k])
    ensures Consistent(s.m)
  {
    L.NobodyBusy(LedgerOf(s.m, s.calls), scene);
    SettledScene(s.m, s.calls, scene);
    SameScene(AllCells(ARENA.gridCount), s.m.grids, scene, SceneOf(ARENA, s.m.objects, s.m.players));
  }

  lemma SettledScene(m: Manager, calls: map<nat, Stage>, scene: Scene)
    requires AllPlayers(m.objects) && L.People(LedgerOf(m, calls), scene) && scene.members == m.players
    requires forall id :: id in m.players ==> L.InPlace(LedgerOf(m, calls), scene, id)
    ensures SameForMembers(scene, SceneOf(ARENA, m.objects, m.players)) && OwnIds(m.objects, m.players)
  {
    var l := LedgerOf(m, calls);
    forall id | id in m.players
      ensures var r := m.players[id];
              r in m.objects && r in scene.players && r in l.at && r in scene.homes && scene.homes[r] == l.at[r]
              && m.objects[r].id == id
    {
      assert L.InPlace(l, scene, id) && l.names[m.players[id]] == id;
    }
  }

  /******* What every step keeps *******/

  /** What callers may do to a player while a move of it is under way: unregister it, move it
      again; and whether they may move it out of the arena. */
  datatype Policy = Policy(unregisterInMove: bool, moveInMove: bool, outside: bool)

  /** A player's own operations do not overlap, and nobody moves out of the arena. */
  const STRICT := Policy(false, false, false)

  ghost predicate Permits(p: Policy, s: System, step: Step)
  {
    match step
    case Manage(command) =>
      command.DoUnregister? && command.id in s.m.players && Engaged(s.calls, s.m.players[command.id]) ==>
        p.unregisterInMove
    case Find(k, id) => id in s.m.players && Engaged(s.calls, s.m.players[id]) ==> p.moveInMove
    case Store(k, pos) => !ARENA.Contains(pos.x, pos.z) ==> p.outside
    case _ => true
  }

  /** Whoever a call moves is registered and in the arena. */
  lemma CallFits(m: Manager, calls: map<nat, Stage>, scene: Scene, k: nat)
    requires L.Inv(LedgerOf(m, calls), scene) && k in calls
    ensures L.Fits(LedgerOf(m, calls), scene, calls[k])
    ensures var r := calls[k].r;
            && r in m.objects && CellOf(m.objects[r].pos) == Some(LedgerOf(m, calls).at[r])
            && m.objects[r].id in m.players && m.players[m.objects[r].id] == r
  {
    HomesAre(m.objects, calls[k].r);
  }

  lemma StoreLedger(m: Manager, calls: map<nat, Stage>, k: nat, pos: Position)
    requires k in calls && calls[k].Knows? && calls[k].r in m.objects && ARENA.Contains(pos.x, pos.z)
    ensures LedgerOf(Stood(m, calls[k].r, pos), calls[k := Stored(calls[k].r, calls[k].before)])
            == L.Moved(LedgerOf(m, calls), k, CellOf(pos).value)
  {
    var t, r := Stood(m, calls[k].r, pos), calls[k].r;
    assert AoiGrid.Homes(ARENA, t.objects) == AoiGrid.Homes(ARENA, m.objects)[r := CellOf(pos).value];
    assert Names(t.objects) == Names(m.objects);
  }

  lemma StoodKept(m: Manager, r: Ref, pos: Position)
    requires Kept(m) && r in m.objects
    ensures Kept(Stood(m, r, pos))
  {
  }

  lemma StoreKeeps(s: System, scene: Scene, k: nat, pos: Position)
    requires Right(s, scene) && k in s.calls && s.calls[k].Knows? && ARENA.Contains(pos.x, pos.z)
    ensures s.calls[k].r in s.m.objects
    ensures Right(System(Stood(s.m, s.calls[k].r, pos), s.calls[k := Stored(s.calls[k].r, s.calls[k].before)]), scene)
  {
    CallFits(s.m, s.calls, scene, k);
    StoreLedger(s.m, s.calls, k, pos);
    StoodKept(s.m, s.calls[k].r, pos);
    L.StoreKeeps(LedgerOf(s.m, s.calls), scene, k, CellOf(pos).value);
  }

  lemma AimKeeps(s: System, scene: Scene, k: nat)
    requires Right(s, scene) && k in s.calls && s.calls[k].Stored? && s.calls[k].r in s.m.objects
    ensures var next := Target(s.calls[k], CellOf(s.m.objects[s.calls[k].r].pos));
            Right(s.(calls := if next.Some? then s.calls[k := next.value] else s.calls - {k}), scene)
  {
    var l := LedgerOf(s.m, s.calls);
    CallFits(s.m, s.calls, scene, k);
    var next := Target(s.calls[k], CellOf(s.m.objects[s.calls[k].r].pos));
    if next.Some? {
      L.StageKeeps(l, scene, k, next.value);
    } else {
      L.CloseKeeps(l, scene, k);
    }
  }

  lemma FindKeeps(s: System, scene: Scene, k: nat, id: string)
    requires Right(s, scene) && k !in s.calls && id in s.m.players && !Engaged(s.calls, s.m.players[id])
    ensures Right(s.(calls := s.calls[k := Found(s.m.players[id])]), scene)
  {
    L.FindKeeps(LedgerOf(s.m, s.calls), scene, k, s.m.players[id]);
  }

  lemma LookKeeps(s: System, scene: Scene, k: nat)
    requires Right(s, scene) && k in s.calls && s.calls[k].Found? && s.calls[k].r in s.m.objects
    ensures Right(s.(calls := s.calls[k := Knows(s.calls[k].r, CellOf(s.m.objects[s.calls[k].r].pos))]), scene)
  {
    CallFits(s.m, s.calls, scene, k);
    L.LookKeeps(LedgerOf(s.m, s.calls), scene, k);
  }

  /** Only the cells change. */
  lemma CellsKept(m: Manager, c: GridPos, g: Grid)
    requires Kept(m) && c in m.grids && forall id :: id in g.entities ==> g.entities[id] in m.objects
    ensures Kept(Replaced(m, c, g))
  {
  }

  lemma TakenShown(m: Manager, calls: map<nat, Stage>, scene: Scene, k: nat)
    requires Kept(m) && Shown(m, scene) && L.Inv(LedgerOf(m, calls), scene)
    requires k in calls && calls[k].Aimed? && Grounded(m, calls[k])
    ensures Shown(Taken(m, calls[k]), Leave(scene, m.objects[calls[k].r].id)) && Kept(Taken(m, calls[k]))
  {
    var r := calls[k].r;
    CallFits(m, calls, scene, k);
    assert r in LedgerOf(m, calls).names;
    TakeLeaves(AllCells(ARENA.gridCount), m.grids, scene, m.objects[r].id);
    CellsKept(m, calls[k].from, TakeFrom(m.grids[calls[k].from], m.objects[r].id, true));
  }

  lemma TakeOutKeeps(s: System, scene: Scene, k: nat)
    requires Right(s, scene) && k in s.calls && s.calls[k].Aimed? && Grounded(s.m, s.calls[k])
    ensures Right(System(Taken(s.m, s.calls[k]), s.calls[k := Out(s.calls[k].r, s.calls[k].to)]),
                  Leave(scene, s.m.objects[s.calls[k].r].id))
  {
    TakenShown(s.m, s.calls, scene, k);
    L.TakeOutKeeps(LedgerOf(s.m, s.calls), scene, k);
  }

  lemma PutShown(m: Manager, calls: map<nat, Stage>, scene: Scene, k: nat)
    requires AllPlayers(m.objects) && Shown(m, scene) && L.Inv(LedgerOf(m, calls), scene)
    requires k in calls && calls[k].Out? && Grounded(m, calls[k])
    ensures Shown(Put(m, calls[k]), Arrived(scene, m.objects[calls[k].r].id, calls[k].r, calls[k].to))
  {
    L.OutOfSight(LedgerOf(m, calls), scene, k);
    L.ArrivedFaithful(AllCells(ARENA.gridCount), m.grids, scene, m.objects[calls[k].r].id, calls[k].r, calls[k].to);
  }

  lemma PutKept(m: Manager, call: Stage)
    requires Kept(m) && call.Out? && Grounded(m, call)
    ensures Kept(Put(m, call))
  {
    CellsKept(m, call.to, InsertInto(m.grids[call.to], m.objects[call.r].id, call.r, true));
  }

  lemma PutInKeeps(s: System, scene: Scene, k: nat)
    requires Right(s, scene) && k in s.calls && s.calls[k].Out? && Grounded(s.m, s.calls[k])
    ensures Right(System(Put(s.m, s.calls[k]), s.calls - {k}),
                  Arrived(scene, s.m.objects[s.calls[k].r].id, s.calls[k].r, s.calls[k].to))
  {
    PutShown(s.m, s.calls, scene, k);
    PutKept(s.m, s.calls[k]);
    L.PutInKeeps(LedgerOf(s.m, s.calls), scene, k);
  }

  ghost function SpawnCell(): (c: GridPos)
    ensures CellOf(SPAWN) == Some(c) && c in AllCells(ARENA.gridCount)
  {
    SpawnInArena();
    CellOf(SPAWN).value
  }

  lemma SpawnLedger(objects: Store, r: Ref, id: string)
    ensures AoiGrid.Homes(ARENA, objects[r := NewPlayer(id)]) == AoiGrid.Homes(ARENA, objects)[r := SpawnCell()]
    ensures Names(objects[r := NewPlayer(id)]) == Names(objects)[r := id]
  {
  }

  lemma RegisterLedger(m: Manager, calls: map<nat, Stage>, id: string)
    requires Sound(m) && id !in m.players
    ensures LedgerOf(Register(m, id), calls) == L.Grown(LedgerOf(m, calls), id, m.nextRef, SpawnCell())
  {
    SpawnLedger(m.objects, m.nextRef, id);
  }

  lemma RegisterKept(m: Manager, id: string)
    requires Kept(m) && id !in m.players
    ensures Kept(Register(m, id))
  {
    SpawnRecorded(m.players, m.subscribers, m.objects, m.nextRef, id);
  }

  lemma RegisterShown(m: Manager, calls: map<nat, Stage>, scene: Scene, id: string)
    requires Sound(m) && Allocated(m.objects, m.nextRef) && Shown(m, scene)
    requires L.People(LedgerOf(m, calls), scene) && id !in m.players
    ensures Shown(Register(m, id), L.Entered(scene, id, m.nextRef, SpawnCell()))
  {
    assert m.nextRef !in m.objects;
    L.NewFace(LedgerOf(m, calls), scene, id, m.nextRef);
    L.EnteredFaithful(AllCells(ARENA.gridCount), m.grids, scene, id, m.nextRef, SpawnCell());
  }

  lemma RegisterRight(s: System, scene: Scene, id: string)
    requires Right(s, scene) && id !in s.m.players
    ensures Right(s.(m := Register(s.m, id)), L.Entered(scene, id, s.m.nextRef, SpawnCell()))
  {
    RegisterLedger(s.m, s.calls, id);
    RegisterKept(s.m, id);
    RegisterShown(s.m, s.calls, scene, id);
    assert s.m.nextRef !in s.m.objects;
    L.RegisterKeeps(LedgerOf(s.m, s.calls), scene, id, s.m.nextRef, SpawnCell());
  }

  lemma UnregisterKept(m: Manager, id: string)
    requires Kept(m) && id in m.players
    ensures Kept(Unregister(m, id))
  {
    DropKeepsDistinct(m.subscribers - {id}, id);
  }

  lemma UnregisterShown(m: Manager, calls: map<nat, Stage>, scene: Scene, id: string)
    requires Sound(m) && AllPlayers(m.objects) && Shown(m, scene) && L.People(LedgerOf(m, calls), scene)
    requires id in m.players && L.InPlace(LedgerOf(m, calls), scene, id)
    ensures Shown(Unregister(m, id), Leave(scene, id))
  {
    var r := m.players[id];
    assert r in LedgerOf(m, calls).names && LedgerOf(m, calls).names[r] == id;
    HomesAre(m.objects, r);
    TakeLeaves(AllCells(ARENA.gridCount), m.grids, scene, id);
  }

  lemma UnregisterRight(s: System, scene: Scene, id: string)
    requires Right(s, scene) && id in s.m.players && !Engaged(s.calls, s.m.players[id])
    ensures Right(s.(m := Unregister(s.m, id)), Leave(scene, id))
  {
    L.UnregisterKeeps(LedgerOf(s.m, s.calls), scene, id);
    UnregisterShown(s.m, s.calls, scene, id);
    UnregisterKept(s.m, id);
  }

  lemma OtherLists(s: System, scene: Scene, lists: map<string, seq<string>>)
    requires Right(s, scene) && Subscriptions(s.m.players, lists)
    ensures Right(s.(m := s.m.(subscribers := lists)), scene)
  {
    assert LedgerOf(s.m.(subscribers := lists), s.calls) == LedgerOf(s.m, s.calls);
  }

  lemma ListsRight(s: System, scene: Scene, t: Manager)
    requires Right(s, scene) && t.(subscribers := s.m.subscribers) == s.m && Subscriptions(s.m.players, t.subscribers)
    ensures Right(s.(m := t), scene)
  {
    OtherLists(s, scene, t.subscribers);
    assert t == s.m.(subscribers := t.subscribers);
  }

  /** What the table shows after a step. */
  ghost function NextScene(s: System, scene: Scene, step: Step): (t: Scene)
    requires Rooted(s) && Enabled(s, step)
  {
    match step
    case Manage(DoRegister(id)) => if id in s.m.players then scene else L.Entered(scene, id, s.m.nextRef, SpawnCell())
    case Manage(DoUnregister(id)) => if id in s.m.players then Leave(scene, id) else scene
    case TakeOut(k) => Leave(scene, s.m.objects[s.calls[k].r].id)
    case PutIn(k) => Arrived(scene, s.m.objects[s.calls[k].r].id, s.calls[k].r, s.calls[k].to)
    case _ => scene
  }

  lemma ManageKeeps(s: System, scene: Scene, command: Command)
    requires Right(s, scene) && !command.DoMove? && Permits(STRICT, s, Manage(command))
    ensures Rooted(s)
    ensures Right(Advance(s, Manage(command)), NextScene(s, scene, Manage(command)))
  {
    RightRooted(s, scene);
    match command
    case DoRegister(id) => if id !in s.m.players { RegisterRight(s, scene, id); }
    case DoUnregister(id) => if id in s.m.players { UnregisterRight(s, scene, id); }
    case DoSubscribe(id, target) =>
      SubscriptionsKeep(s.m, id, target);
      ListsRight(s, scene, Subscribe(s.m, id, target));
    case DoUnsubscribe(id, target) =>
      SubscriptionsKeep(s.m, id, target);
      ListsRight(s, scene, Unsubscribe(s.m, id, target));
  }

  lemma StepKeeps(s: System, scene: Scene, step: Step)
    requires Right(s, scene) && Enabled(s, step) && Permits(STRICT, s, step)
    ensures Rooted(s)
    ensures Right(Advance(s, step), NextScene(s, scene, step))
  {
    RightRooted(s, scene);
    match step
    case Manage(command) => ManageKeeps(s, scene, command);
    case Find(k, id) => FindKeeps(s, scene, k, id);
    case Look(k) => LookKeeps(s, scene, k);
    case Store(k, pos) => StoreKeeps(s, scene, k, pos);
    case Aim(k) => AimKeeps(s, scene, k);
    case TakeOut(k) => TakeOutKeeps(s, scene, k);
    case PutIn(k) => PutInKeeps(s, scene, k);
  }

  /******* Whole runs *******/

  /** No step leaves a call without its object or its cells. */
  lemma StepRooted(s: System, step: Step)
    requires Rooted(s) && Enabled(s, step)
    ensures Rooted(Advance(s, step))
  {
    forall k | k in Advance(s, step).calls ensures Grounded(Advance(s, step).m, Advance(s, step).calls[k]) {
      assert k in s.calls ==> Grounded(s.m, s.calls[k]);
    }
  }

  ghost predicate Legal(p: Policy, s: System, steps: seq<Step>)
    decreases |steps|
  {
    && Rooted(s)
    && (steps != [] ==> Enabled(s, steps[0]) && Permits(p, s, steps[0]) && Legal(p, Advance(s, steps[0]), steps[1..]))
  }

  ghost function Reach(p: Policy, s: System, steps: seq<Step>): (t: System)
    requires Legal(p, s, steps)
    decreases |steps|
  {
    if steps == [] then s else Reach(p, Advance(s, steps[0]), steps[1..])
  }

  lemma {:induction false} RunKeeps(s: System, scene: Scene, steps: seq<Step>) returns (after: Scene)
    requires Legal(STRICT, s, steps) && Right(s, scene)
    ensures Right(Reach(STRICT, s, steps), after)
    decreases |steps|
  {
    after := scene;
    if steps != [] {
      StepKeeps(s, scene, steps[0]);
      after := RunKeeps(Advance(s, steps[0]), NextScene(s, scene, steps[0]), steps[1..]);
    }
  }

  function Start(): (s: System)
  {
    System(Initial(), map[])
  }

  lemma StartRight()
    ensures Right(Start(), SceneOf(ARENA, map[], map[]))
  {
    SpawnInArena();
    EmptyIndexed(ARENA);
  }

  ghost predicate Settled(s: System)
  {
    forall k :: k in s.calls ==> !HalfDone(s.calls[k])
  }

  /** Whatever is registered, unregistered, moved and subscribed at the same time, with the
      sections of all moves interleaved in any way, as long as one player's own operations
      do not overlap: whenever no move is half done, the index holds exactly the registered
      players, each in the cell of its position, and the lists are in order. */
  lemma InterleavedConsistent(steps: seq<Step>)
    requires Legal(STRICT, Start(), steps) && Settled(Reach(STRICT, Start(), steps))
    ensures Consistent(Reach(STRICT, Start(), steps).m)
  {
    StartRight();
    var scene := RunKeeps(Start(), SceneOf(ARENA, map[], map[]), steps);
    SettledConsistent(Reach(STRICT, Start(), steps), scene);
  }
}
