/** The player state manager: registered players, who subscribes to whom, and the
    area-of-interest index that follows the players' positions. */
module PlayerState {
  import opened Bytes
  import opened Counting
  import opened CellTable
  import opened AoiGrid
  import opened AoiManager

  /** The game world: 1000 by 1000, 20 cells a side. */
  const ARENA := World(0.0, 1000.0, 0.0, 1000.0, 20)

  const SPAWN := Position(0.0, 0.0, 0.0)
  const SIGHT := 100.0

  /** `objects` are the player objects ever created, by identity; `players` maps an id
      to the object registered under it. */
  datatype Manager = Manager(
    players: map<string, Ref>, objects: Store, subscribers: map<string, seq<string>>, grids: Grids, nextRef: nat)

  function Initial(): (m: Manager)
  {
    Manager(map[], map[], map[], Empty(ARENA).grids, 0)
  }

  /** What holds between operations: the index holds exactly the registered players,
      each in the cell of its position; players and subscriber lists have the same
      keys; no list names anybody twice; fresh identities are fresh. */
  ghost predicate Consistent(m: Manager)
  {
    && Indexed(ARENA, m.grids, m.objects, m.players)
    && Subscriptions(m.players, m.subscribers)
    && Allocated(m.objects, m.nextRef)
  }

  ghost predicate Subscriptions(players: map<string, Ref>, subscribers: map<string, seq<string>>)
  {
    players.Keys == subscribers.Keys && forall id :: id in subscribers ==> NoDuplicates(subscribers[id])
  }

  ghost predicate Allocated(objects: Store, nextRef: nat)
  {
    forall r :: r in objects ==> r < nextRef
  }

  /** What the operations need to run at all: a table with all its cells, and a player
      object behind every registration and every entry of the table. */
  ghost predicate Sound(m: Manager)
  {
    && Structured(ARENA, m.grids) && Refers(m.grids, m.objects)
    && forall id :: id in m.players ==> m.players[id] in m.objects
  }

  function Without(s: seq<string>, id: string): (t: seq<string>)
    ensures forall x :: x in t <==> x in s && x != id
  {
    if s == [] then [] else
      var n := |s| - 1;
      Without(s[..n], id) + if s[n] == id then [] else [s[n]]
  }

  lemma {:induction false} WithoutKeepsDistinct(s: seq<string>, id: string)
    requires NoDuplicates(s)
    ensures NoDuplicates(Without(s, id))
    decreases |s|
  {
    if s != [] {
      WithoutKeepsDistinct(s[..|s| - 1], id);
      assert s[|s| - 1] !in s[..|s| - 1];
    }
  }

  /******* The operations *******/

  function NewPlayer(id: string): (e: Entity)
  {
    Entity(id, PLAYER, SPAWN)
  }

  function Register(m: Manager, id: string): (t: Manager)
    requires Sound(m)
    ensures Sound(t)
  {
    if id in m.players then m else
      var e := NewPlayer(id);
      RefersKept(ARENA, m.grids, m.objects, m.nextRef, e, SPAWN.x, SPAWN.z);
      Manager(m.players[id := m.nextRef], m.objects[m.nextRef := e], m.subscribers[id := []],
              Add(ARENA, m.grids, m.nextRef, e), m.nextRef + 1)
  }

  function DropSubscriber(subscribers: map<string, seq<string>>, id: string): (t: map<string, seq<string>>)
  {
    map k | k in subscribers :: Without(subscribers[k], id)
  }

  function Unregister(m: Manager, id: string): (t: Manager)
    requires Sound(m)
    ensures Sound(t)
  {
    if id !in m.players then m else
      RefersKept(ARENA, m.grids, m.objects, m.players[id], m.objects[m.players[id]], SPAWN.x, SPAWN.z);
      m.(players := m.players - {id}, subscribers := DropSubscriber(m.subscribers - {id}, id),
         grids := Remove(ARENA, m.grids, m.objects[m.players[id]]))
  }

  function UpdatePosition(m: Manager, id: string, pos: Position): (t: Manager)
    requires Sound(m)
    ensures Sound(t)
  {
    if id !in m.players then m else
      var r := m.players[id];
      var old_, objects := m.objects[r].pos, MoveTo(m.objects, r, pos);
      RefersKept(ARENA, m.grids, m.objects, r, objects[r], old_.x, old_.z);
      m.(objects := objects, grids := Update(ARENA, m.grids, r, objects[r], old_.x, old_.z))
  }

  function Subscribe(m: Manager, subscriber: string, target: string): (t: Manager)
    ensures t.(subscribers := m.subscribers) == m
  {
    if target !in m.players then m else
      var list := if target in m.subscribers then m.subscribers[target] else [];
      if subscriber in list then m else m.(subscribers := m.subscribers[target := list + [subscriber]])
  }

  function Unsubscribe(m: Manager, subscriber: string, target: string): (t: Manager)
    ensures t.(subscribers := m.subscribers) == m
  {
    if target !in m.subscribers then m
    else m.(subscribers := m.subscribers[target := Without(m.subscribers[target], subscriber)])
  }

  /******* What they keep *******/

  lemma SpawnInArena()
    ensures ARENA.Valid() && ARENA.Contains(SPAWN.x, SPAWN.z)
  {
  }

  lemma RegisterKeeps(m: Manager, id: string)
    requires Consistent(m)
    ensures Consistent(Register(m, id)) && id in Register(m, id).players
  {
    if id !in m.players {
      SpawnRecorded(m.players, m.subscribers, m.objects, m.nextRef, id);
      SpawnIndexed(m.grids, m.objects, m.players, m.nextRef, id);
      RegisterShape(m, id);
    }
  }

  lemma RegisterShape(m: Manager, id: string)
    requires Sound(m) && id !in m.players
    ensures Register(m, id) ==
            Manager(m.players[id := m.nextRef], m.objects[m.nextRef := NewPlayer(id)], m.subscribers[id := []],
                    Add(ARENA, m.grids, m.nextRef, NewPlayer(id)), m.nextRef + 1)
  {
  }

  lemma SpawnRecorded(players: map<string, Ref>, subscribers: map<string, seq<string>>, objects: Store, r: Ref,
                      id: string)
    requires Subscriptions(players, subscribers) && Allocated(objects, r)
    ensures Subscriptions(players[id := r], subscribers[id := []])
    ensures Allocated(objects[r := NewPlayer(id)], r + 1) && r !in objects
  {
  }

  lemma SpawnIndexed(grids: Grids, objects: Store, players: map<string, Ref>, r: Ref, id: string)
    requires Indexed(ARENA, grids, objects, players) && id !in players && r !in objects
    ensures Indexed(ARENA, Add(ARENA, grids, r, NewPlayer(id)), objects[r := NewPlayer(id)], players[id := r])
  {
    var e := NewPlayer(id);
    StrangerKeeps(ARENA, grids, objects, players, r, e);
    SpawnHome(objects, r, id);
    AddIff(ARENA, grids, objects[r := e], players, r);
  }

  lemma SpawnHome(objects: Store, r: Ref, id: string)
    ensures r in Homes(ARENA, objects[r := NewPlayer(id)])
  {
  }

  lemma DropKeepsDistinct(subscribers: map<string, seq<string>>, id: string)
    requires forall k :: k in subscribers ==> NoDuplicates(subscribers[k])
    ensures forall k :: k in DropSubscriber(subscribers, id) ==> NoDuplicates(DropSubscriber(subscribers, id)[k])
  {
    forall k | k in subscribers ensures NoDuplicates(Without(subscribers[k], id)) {
      WithoutKeepsDistinct(subscribers[k], id);
    }
  }

  /** Unregistering keeps everything in order and leaves no trace of the player: not
      registered, not subscribed to, on nobody's list. */
  lemma UnregisterKeeps(m: Manager, id: string)
    requires Consistent(m)
    ensures Consistent(Unregister(m, id))
    ensures id in m.players ==>
              var t := Unregister(m, id);
              t.players == m.players - {id} && forall k :: k in t.subscribers ==> id !in t.subscribers[k]
  {
    if id in m.players {
      RemoveKeeps(ARENA, m.grids, m.objects, m.players, id);
      DropKeepsDistinct(m.subscribers - {id}, id);
    }
  }

  /** A move leaves everything in order exactly when it stays in the arena. */
  lemma UpdatePositionIff(m: Manager, id: string, pos: Position)
    requires Consistent(m) && id in m.players
    ensures Consistent(UpdatePosition(m, id, pos)) <==> ARENA.Contains(pos.x, pos.z)
  {
    var r := m.players[id];
    MoveAllocated(m.objects, r, pos, m.nextRef);
    MoveIff(ARENA, m.grids, m.objects, m.players, id, pos);
    assert UpdatePosition(m, id, pos).grids ==
           Update(ARENA, m.grids, r, MoveTo(m.objects, r, pos)[r], m.objects[r].pos.x, m.objects[r].pos.z);
  }

  lemma MoveAllocated(objects: Store, r: Ref, pos: Position, nextRef: nat)
    requires r in objects
    ensures Allocated(objects, nextRef) <==> Allocated(MoveTo(objects, r, pos), nextRef)
  {
    assert MoveTo(objects, r, pos).Keys == objects.Keys;
  }

  /** Subscribing and unsubscribing do what they say and keep the lists in order. */
  lemma SubscriptionsKeep(m: Manager, subscriber: string, target: string)
    requires Subscriptions(m.players, m.subscribers)
    ensures Subscriptions(m.players, Subscribe(m, subscriber, target).subscribers)
    ensures Subscriptions(m.players, Unsubscribe(m, subscriber, target).subscribers)
    ensures target in m.players ==>
              subscriber in Subscribe(m, subscriber, target).subscribers[target] &&
              subscriber !in Unsubscribe(m, subscriber, target).subscribers[target]
    ensures forall k, x :: k in m.subscribers && (k != target || x != subscriber) ==>
              (x in Subscribe(m, subscriber, target).subscribers[k] <==> x in m.subscribers[k]) &&
              (x in Unsubscribe(m, subscriber, target).subscribers[k] <==> x in m.subscribers[k])
  {
    if target in m.players { WithoutKeepsDistinct(m.subscribers[target], subscriber); }
  }

  /** Registering and unregistering again leaves players and index as they were; the
      lists exactly when none had the player's name on it already. */
  lemma UndoRegister(m: Manager, id: string)
    requires Consistent(m) && id !in m.players
    ensures var t := Unregister(Register(m, id), id);
            && t.players == m.players && t.grids == m.grids
            && (t.subscribers == m.subscribers <==> forall k :: k in m.subscribers ==> id !in m.subscribers[k])
  {
    SpawnRecorded(m.players, m.subscribers, m.objects, m.nextRef, id);
    UndoSpawn(m.grids, m.objects, m.players, m.nextRef, id);
    UndoLists(m.subscribers, id);
    RegisterShape(m, id);
  }

  lemma UndoSpawn(grids: Grids, objects: Store, players: map<string, Ref>, r: Ref, id: string)
    requires Indexed(ARENA, grids, objects, players) && id !in players && r !in objects
    ensures players[id := r] - {id} == players
    ensures Structured(ARENA, Add(ARENA, grids, r, NewPlayer(id)))
    ensures Remove(ARENA, Add(ARENA, grids, r, NewPlayer(id)), NewPlayer(id)) == grids
  {
    var e := NewPlayer(id);
    assert players[id := r] - {id} == players;
    SpawnIndexed(grids, objects, players, r, id);
    RemoveKeeps(ARENA, Add(ARENA, grids, r, e), objects[r := e], players[id := r], id);
    StrangerKeeps(ARENA, grids, objects, players, r, e);
    OneIndex(Remove(ARENA, Add(ARENA, grids, r, e), e), grids, objects[r := e], players);
  }

  lemma OneIndex(grids: Grids, other: Grids, objects: Store, players: map<string, Ref>)
    requires Indexed(ARENA, grids, objects, players) && Indexed(ARENA, other, objects, players)
    ensures grids == other
  {
    FaithfulUnique(AllCells(ARENA.gridCount), grids, other, SceneOf(ARENA, objects, players));
  }

  lemma UndoLists(subscribers: map<string, seq<string>>, id: string)
    requires id !in subscribers
    ensures DropSubscriber(subscribers[id := []] - {id}, id) == subscribers <==>
            forall k :: k in subscribers ==> id !in subscribers[k]
  {
    assert subscribers[id := []] - {id} == subscribers;
    if forall k :: k in subscribers ==> id !in subscribers[k] {
      NobodyDropped(subscribers, id);
    } else {
      var k :| k in subscribers && id in subscribers[k];
      assert id !in DropSubscriber(subscribers, id)[k];
    }
  }

  lemma {:induction false} NothingWithout(s: seq<string>, id: string)
    requires id !in s
    ensures Without(s, id) == s
    decreases |s|
  {
    if s != [] {
      NothingWithout(s[..|s| - 1], id);
      assert s == s[..|s| - 1] + [s[|s| - 1]];
    }
  }

  lemma NobodyDropped(subscribers: map<string, seq<string>>, id: string)
    requires forall k :: k in subscribers ==> id !in subscribers[k]
    ensures DropSubscriber(subscribers, id) == subscribers
  {
    forall k | k in subscribers ensures Without(subscribers[k], id) == subscribers[k] {
      NothingWithout(subscribers[k], id);
    }
  }

  /******* Whole runs *******/

  datatype Command =
    | DoRegister(id: string)
    | DoUnregister(id: string)
    | DoMove(id: string, pos: Position)
    | DoSubscribe(id: string, target: string)
    | DoUnsubscribe(id: string, target: string)

  function Apply(m: Manager, c: Command): (t: Manager)
    requires Sound(m)
    ensures Sound(t)
  {
    match c
    case DoRegister(id) => Register(m, id)
    case DoUnregister(id) => Unregister(m, id)
    case DoMove(id, pos) => UpdatePosition(m, id, pos)
    case DoSubscribe(id, target) => Subscribe(m, id, target)
    case DoUnsubscribe(id, target) => Unsubscribe(m, id, target)
  }

  function Run(commands: seq<Command>): (m: Manager)
    ensures Sound(m)
    decreases |commands|
  {
    SpawnInArena();
    if commands == [] then Initial()
    else Apply(Run(commands[..|commands| - 1]), commands[|commands| - 1])
  }

  predicate StaysInArena(commands: seq<Command>)
  {
    forall i :: 0 <= i < |commands| && commands[i].DoMove? ==> ARENA.Contains(commands[i].pos.x, commands[i].pos.z)
  }

  /** Whatever is registered, unregistered, moved within the arena and subscribed, in
      whatever order: the index holds exactly the registered players, each in its
      one cell, and the subscriber lists are in order. */
  lemma {:induction false} RunConsistent(commands: seq<Command>)
    requires StaysInArena(commands)
    ensures Consistent(Run(commands))
    decreases |commands|
  {
    if commands == [] {
      SpawnInArena();
      EmptyIndexed(ARENA);
    } else {
      RunConsistent(commands[..|commands| - 1]);
      ApplyKeeps(Run(commands[..|commands| - 1]), commands[|commands| - 1]);
    }
  }

  lemma ApplyKeeps(m: Manager, c: Command)
    requires Consistent(m) && (c.DoMove? ==> ARENA.Contains(c.pos.x, c.pos.z))
    ensures Consistent(Apply(m, c))
  {
    match c
    case DoRegister(id) => RegisterKeeps(m, id);
    case DoUnregister(id) => UnregisterKeeps(m, id);
    case DoMove(id, pos) => if id in m.players { UpdatePositionIff(m, id, pos); }
    case DoSubscribe(id, target) => SubscriptionsKeep(m, id, target);
    case DoUnsubscribe(id, target) => SubscriptionsKeep(m, id, target);
  }

  /** A player who moves out of the arena and then unregisters stays in the index: the
      removal looks for the cell of the position outside and finds none. */
  lemma LeftInIndex(m: Manager, id: string, pos: Position)
    requires Consistent(m) && id in m.players && !ARENA.Contains(pos.x, pos.z)
    ensures var t := Unregister(UpdatePosition(m, id, pos), id);
            id !in t.players && exists c :: c in t.grids && id in t.grids[c].entities
  {
    var c := Homes(ARENA, m.objects)[m.players[id]];
    var s := SceneOf(ARENA, m.objects, m.players);
    assert CellOk(m.grids[c], s, c);
    assert AtHome(s, id, c);
    var t := Unregister(UpdatePosition(m, id, pos), id);
    assert t.grids == m.grids;
    assert c in t.grids && id in t.grids[c].entities;
  }

  /** A player who has moved out of the arena and comes back: the index is right again
      exactly when it comes back into the cell it left, because both updates fail and the
      old entry stays. */
  lemma ReturnIff(m: Manager, id: string, out: Position, back: Position)
    requires Consistent(m) && Sound(m) && id in m.players && !ARENA.Contains(out.x, out.z)
    ensures Consistent(UpdatePosition(UpdatePosition(m, id, out), id, back)) <==>
            ARENA.Contains(back.x, back.z) &&
            Cell(ARENA, back.x, back.z) == Cell(ARENA, m.objects[m.players[id]].pos.x, m.objects[m.players[id]].pos.z)
  {
    UpdatedTwice(m, id, out, back);
    OnlyMoved(m, m.players[id], back);
    if ARENA.Contains(back.x, back.z) {
      ReturnedElsewhere(m, id, back);
    } else {
      UpdatePositionIff(m, id, back);
      UpdatedOutside(m, id, back);
    }
  }

  /** An update to or from a position outside the arena leaves the index as it is. */
  lemma UpdatedOutside(m: Manager, id: string, pos: Position)
    requires Sound(m) && id in m.players
    requires !ARENA.Contains(pos.x, pos.z) ||
             !ARENA.Contains(m.objects[m.players[id]].pos.x, m.objects[m.players[id]].pos.z)
    ensures UpdatePosition(m, id, pos) == m.(objects := MoveTo(m.objects, m.players[id], pos))
  {
  }

  lemma UpdatedTwice(m: Manager, id: string, out: Position, back: Position)
    requires Sound(m) && id in m.players && !ARENA.Contains(out.x, out.z)
    ensures var t := UpdatePosition(UpdatePosition(m, id, out), id, back);
            t == m.(objects := MoveTo(m.objects, m.players[id], back))
  {
    UpdatedOutside(m, id, out);
    UpdatedOutside(UpdatePosition(m, id, out), id, back);
    assert MoveTo(MoveTo(m.objects, m.players[id], out), m.players[id], back) == MoveTo(m.objects, m.players[id], back);
  }

  lemma OnlyMoved(m: Manager, r: Ref, pos: Position)
    requires Consistent(m) && r in m.objects
    ensures Consistent(m.(objects := MoveTo(m.objects, r, pos))) <==>
            Indexed(ARENA, m.grids, MoveTo(m.objects, r, pos), m.players)
  {
    MoveAllocated(m.objects, r, pos, m.nextRef);
  }

  /** The right index for the new position is another one exactly when the cell is another. */
  lemma ReturnedElsewhere(m: Manager, id: string, back: Position)
    requires Consistent(m) && Sound(m) && id in m.players && ARENA.Contains(back.x, back.z)
    ensures Indexed(ARENA, m.grids, MoveTo(m.objects, m.players[id], back), m.players) <==>
            Cell(ARENA, back.x, back.z) == Cell(ARENA, m.objects[m.players[id]].pos.x, m.objects[m.players[id]].pos.z)
  {
    var r, u := m.players[id], UpdatePosition(m, id, back);
    var to := Cell(ARENA, back.x, back.z).value;
    UpdatePositionIff(m, id, back);
    if Indexed(ARENA, m.grids, MoveTo(m.objects, r, back), m.players) {
      OneIndex(m.grids, u.grids, u.objects, m.players);
      assert CellOk(m.grids[to], SceneOf(ARENA, m.objects, m.players), to);
      assert CellOk(u.grids[to], SceneOf(ARENA, u.objects, m.players), to);
      assert AtHome(SceneOf(ARENA, u.objects, m.players), id, to);
    }
  }

  /******* The manager *******/

  class PlayerStateManager {
    var players: map<string, Ref>
    var objects: Store
    var subscribers: map<string, seq<string>>
    var nextRef: nat
    const aoi: AOIManager

    ghost function View(): (m: Manager)
      reads this, aoi
    {
      Manager(players, objects, subscribers, aoi.grids, nextRef)
    }

    ghost predicate Valid()
      reads this, aoi
    {
      aoi.world == ARENA && Sound(View())
    }

    constructor ()
      ensures Valid() && View() == Initial() && fresh(aoi) && Consistent(View())
    {
      var manager := new AOIManager(0.0, 1000.0, 0.0, 1000.0, 20);
      players, objects, subscribers, nextRef, aoi := map[], map[], map[], 0, manager;
    }

    method RegisterPlayer(id: string) returns (r: Ref)
      requires Valid()
      modifies this, aoi
      ensures Valid() && View() == Register(old(View()), id) && r == players[id]
      ensures id in old(players) ==> View() == old(View())
      ensures id !in old(players) ==>
                && players == old(players)[id := r] && subscribers == old(subscribers)[id := []]
                && objects == old(objects)[r := Entity(id, PLAYER, Position(0.0, 0.0, 0.0))]
    {
      if id in players { return players[id]; }
      var player := Entity(id, PLAYER, SPAWN);
      r := nextRef;
      nextRef := nextRef + 1;
      objects := objects[r := player];
      players := players[id := r];
      subscribers := subscribers[id := []];
      var ok := aoi.AddEntity(r, player);
    }

    method UnregisterPlayer(id: string)
      requires Valid()
      modifies this, aoi
      ensures Valid() && View() == Unregister(old(View()), id)
      ensures id !in old(players) ==> View() == old(View())
      ensures players == old(players) - {id} && objects == old(objects)
      ensures id in old(players) ==>
                && subscribers.Keys == old(subscribers).Keys - {id}
                && forall k, x :: k in subscribers ==> (x in subscribers[k] <==> x in old(subscribers)[k] && x != id)
    {
      if id !in players { return; }
      var ok := aoi.RemoveEntity(objects[players[id]]);
      players := players - {id};
      subscribers := subscribers - {id};
      DropFromLists(id);
    }

    method DropFromLists(id: string)
      modifies this`subscribers
      ensures subscribers == DropSubscriber(old(subscribers), id)
    {
      ghost var before := subscribers;
      var keys := subscribers.Keys;
      while keys != {}
        invariant keys <= before.Keys && subscribers.Keys == before.Keys
        invariant forall k :: k in before ==> subscribers[k] == if k in keys then before[k] else Without(before[k], id)
        decreases |keys|
      {
        var other :| other in keys;
        var kept := FilterOut(subscribers[other], id);
        subscribers := subscribers[other := kept];
        keys := keys - {other};
      }
    }

    method UpdatePlayerPosition(id: string, pos: Position) returns (ok: bool)
      requires Valid()
      modifies this, aoi
      ensures Valid() && View() == UpdatePosition(old(View()), id, pos) && ok == (id in players)
      ensures players == old(players) && subscribers == old(subscribers) && objects.Keys == old(objects).Keys
      ensures id in players ==> objects[players[id]] == old(objects)[players[id]].(pos := pos)
      ensures forall r :: r in objects && (id in players ==> r != players[id]) ==> objects[r] == old(objects)[r]
    {
      if id !in players { return false; }
      var r := players[id];
      var before := objects[r].pos;
      objects := objects[r := objects[r].(pos := pos)];
      var indexed := aoi.UpdateEntity(r, objects[r], before.x, before.z);
      ok := true;
    }

    method SubscribeToPlayer(subscriber: string, target: string) returns (ok: bool)
      requires Valid()
      modifies this
      ensures Valid() && View() == Subscribe(old(View()), subscriber, target) && ok == (target in players)
      ensures !ok ==> subscribers == old(subscribers)
      ensures ok ==>
                && target in subscribers && subscriber in subscribers[target]
                && subscribers == old(subscribers)[target := subscribers[target]]
                && forall x :: x in subscribers[target] && x != subscriber <==>
                     x != subscriber && target in old(subscribers) && x in old(subscribers)[target]
    {
      if target !in players { return false; }
      var list := if target in subscribers then subscribers[target] else [];
      var k := 0;
      while k < |list|
        invariant 0 <= k <= |list| && subscriber !in list[..k]
      {
        if list[k] == subscriber { return true; }
        k := k + 1;
      }
      assert list[..k] == list;
      subscribers := subscribers[target := list + [subscriber]];
      ok := true;
    }

    method UnsubscribeFromPlayer(subscriber: string, target: string) returns (ok: bool)
      requires Valid()
      modifies this
      ensures Valid() && View() == Unsubscribe(old(View()), subscriber, target) && ok == (target in old(subscribers))
      ensures !ok ==> subscribers == old(subscribers)
      ensures ok ==>
                && target in subscribers && subscribers == old(subscribers)[target := subscribers[target]]
                && forall x :: x in subscribers[target] <==> x in old(subscribers)[target] && x != subscriber
    {
      if target !in subscribers { return false; }
      var kept := FilterOut(subscribers[target], subscriber);
      subscribers := subscribers[target := kept];
      ok := true;
    }

    /** The other players within sight, each once. */
    method GetNearbyEntities(id: string) returns (r: Option<seq<Ref>>)
      requires Valid()
      ensures r.Some? <==> id in players && ARENA.Contains(objects[players[id]].pos.x, objects[players[id]].pos.z)
      ensures r.Some? && Consistent(View()) ==>
                Lists(r.value, players, Within(objects, players, objects[players[id]].pos, SIGHT) - {id})
    {
      if id !in players { return None; }
      var entities := aoi.GetEntitiesByDistance(objects, objects[players[id]].pos, SIGHT, players);
      if entities.None? { return None; }
      var others := ExceptId(entities.value, objects, id);
      if Consistent(View()) {
        SelfExcluded(entities.value, others, objects, players,
                     Within(objects, players, objects[players[id]].pos, SIGHT), id);
      }
      r := Some(others);
    }
  }

  method FilterOut(list: seq<string>, id: string) returns (kept: seq<string>)
    ensures kept == Without(list, id)
  {
    kept := [];
    var k := 0;
    while k < |list|
      invariant 0 <= k <= |list| && kept == Without(list[..k], id)
    {
      assert list[..k + 1][..k] == list[..k];
      if list[k] != id { kept := kept + [list[k]]; }
      k := k + 1;
    }
    assert list[..k] == list;
  }

  method ExceptId(refs: seq<Ref>, store: Store, id: string) returns (others: seq<Ref>)
    ensures NoDuplicates(refs) ==> NoDuplicates(others)
    ensures forall q :: q in others <==> q in refs && q in store && store[q].id != id
  {
    others := [];
    var k := 0;
    while k < |refs|
      invariant 0 <= k <= |refs|
      invariant NoDuplicates(refs) ==> NoDuplicates(others)
      invariant forall q :: q in others <==> q in refs[..k] && q in store && store[q].id != id
    {
      assert NoDuplicates(refs) ==> refs[k] !in refs[..k];
      assert refs[..k + 1] == refs[..k] + [refs[k]];
      if refs[k] in store && store[refs[k]].id != id { others := others + [refs[k]]; }
      k := k + 1;
    }
    assert refs[..k] == refs;
  }

  lemma SelfExcluded(refs: seq<Ref>, others: seq<Ref>, store: Store, players: map<string, Ref>, ids: set<string>,
                     id: string)
    requires Lists(refs, players, ids) && OwnIds(store, players) && NoDuplicates(others)
    requires forall q :: q in others <==> q in refs && q in store && store[q].id != id
    ensures Lists(others, players, ids - {id})
  {
    forall q | q in others ensures q in Refs(players, ids - {id}) {
      var i :| i in ids && players[i] == q;
      assert i in ids - {id};
    }
    forall q | q in Refs(players, ids - {id}) ensures q in others {
      var i :| i in ids - {id} && players[i] == q;
      assert q in Refs(players, ids);
    }
  }
}
