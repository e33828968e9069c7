/** What the player manager keeps, seen from outside: for every registered id a position and
    a set of subscribers, with no objects, no lists and no grid. */
module PlayerRoster {
  import opened CellTable
  import opened AoiGrid
  import opened PlayerState

  datatype Roster = Roster(positions: map<string, Position>, followers: map<string, set<string>>)

  /** What a call means. */
  function Next(r: Roster, c: Command): (t: Roster)
  {
    match c
    case DoRegister(id) =>
      if id in r.positions then r
      else Roster(r.positions[id := Position(0.0, 0.0, 0.0)], r.followers[id := {}])
    case DoUnregister(id) =>
      if id !in r.positions then r
      else Roster(r.positions - {id}, map k | k in r.followers && k != id :: r.followers[k] - {id})
    case DoMove(id, pos) => if id in r.positions then r.(positions := r.positions[id := pos]) else r
    case DoSubscribe(id, target) =>
      if target in r.followers then r.(followers := r.followers[target := r.followers[target] + {id}]) else r
    case DoUnsubscribe(id, target) =>
      if target in r.followers then r.(followers := r.followers[target := r.followers[target] - {id}]) else r
  }

  function Replay(commands: seq<Command>): (r: Roster)
  {
    if commands == [] then Roster(map[], map[])
    else Next(Replay(commands[..|commands| - 1]), commands[|commands| - 1])
  }

  ghost function Positions(players: map<string, Ref>, objects: Store): (positions: map<string, Position>)
    requires forall id :: id in players ==> players[id] in objects
  {
    map id | id in players :: objects[players[id]].pos
  }

  ghost function Members(list: seq<string>): (names: set<string>)
  {
    set x | x in list
  }

  ghost function Followers(subscribers: map<string, seq<string>>): (followers: map<string, set<string>>)
  {
    map id | id in subscribers :: Members(subscribers[id])
  }

  ghost function RosterOf(m: Manager): (r: Roster)
    requires Sound(m)
  {
    Roster(Positions(m.players, m.objects), Followers(m.subscribers))
  }

  /** Every player has an object of its own, also outside the arena. */
  ghost predicate Own(m: Manager)
  {
    m.players.Keys == m.subscribers.Keys && OwnIds(m.objects, m.players) && Allocated(m.objects, m.nextRef)
  }

  lemma NewList(subscribers: map<string, seq<string>>, id: string, list: seq<string>)
    ensures Followers(subscribers[id := list]) == Followers(subscribers)[id := Members(list)]
  {
  }

  lemma Dropped(subscribers: map<string, seq<string>>, id: string)
    ensures var f := Followers(subscribers);
            Followers(DropSubscriber(subscribers - {id}, id)) == map k | k in f && k != id :: f[k] - {id}
  {
    forall k | k in subscribers ensures Members(Without(subscribers[k], id)) == Members(subscribers[k]) - {id} {
    }
  }

  lemma NewPosition(players: map<string, Ref>, objects: Store, r: Ref, id: string)
    requires OwnIds(objects, players) && r !in objects
    ensures OwnIds(objects[r := NewPlayer(id)], players[id := r])
    ensures Positions(players[id := r], objects[r := NewPlayer(id)]) ==
            Positions(players, objects)[id := Position(0.0, 0.0, 0.0)]
  {
  }

  lemma RegisterMeans(m: Manager, id: string)
    requires Sound(m) && Own(m) && id !in m.players
    ensures var t := Register(m, id);
            && Own(t)
            && Positions(t.players, t.objects) == Positions(m.players, m.objects)[id := Position(0.0, 0.0, 0.0)]
            && Followers(t.subscribers) == Followers(m.subscribers)[id := {}]
  {
    RegisterShape(m, id);
    NewPosition(m.players, m.objects, m.nextRef, id);
    NewList(m.subscribers, id, []);
    assert Members([]) == {};
  }

  lemma UnregisterMeans(m: Manager, id: string)
    requires Sound(m) && Own(m) && id in m.players
    ensures var t, f := Unregister(m, id), Followers(m.subscribers);
            && Own(t)
            && Positions(t.players, t.objects) == Positions(m.players, m.objects) - {id}
            && Followers(t.subscribers) == map k | k in f && k != id :: f[k] - {id}
  {
    Dropped(m.subscribers, id);
  }

  lemma MoveMeans(m: Manager, id: string, pos: Position)
    requires Sound(m) && Own(m) && id in m.players
    ensures var t := UpdatePosition(m, id, pos);
            Own(t) && Positions(t.players, t.objects) == Positions(m.players, m.objects)[id := pos]
            && t.subscribers == m.subscribers
  {
    forall k | k in m.players && k != id ensures m.players[k] != m.players[id] {
      assert m.objects[m.players[k]].id == k;
    }
  }

  lemma SubscribeMeans(m: Manager, id: string, target: string)
    requires Sound(m) && Own(m) && target in m.players
    ensures var f := Followers(m.subscribers);
            && Followers(Subscribe(m, id, target).subscribers) == f[target := f[target] + {id}]
            && Followers(Unsubscribe(m, id, target).subscribers) == f[target := f[target] - {id}]
  {
    var list := m.subscribers[target];
    NewList(m.subscribers, target, list + [id]);
    NewList(m.subscribers, target, Without(list, id));
    assert Members(list + [id]) == Members(list) + {id};
    assert Members(Without(list, id)) == Members(list) - {id};
    if id in list {
      assert Members(list) + {id} == Members(list);
    }
  }

  lemma ApplyMeans(m: Manager, c: Command)
    requires Sound(m) && Own(m)
    ensures Own(Apply(m, c)) && RosterOf(Apply(m, c)) == Next(RosterOf(m), c)
  {
    match c
    case DoRegister(id) => if id !in m.players { RegisterMeans(m, id); }
    case DoUnregister(id) => if id in m.players { UnregisterMeans(m, id); }
    case DoMove(id, pos) => if id in m.players { MoveMeans(m, id, pos); }
    case DoSubscribe(id, target) => if target in m.players { SubscribeMeans(m, id, target); }
    case DoUnsubscribe(id, target) => if target in m.players { SubscribeMeans(m, id, target); }
  }

  /** After any calls, in the arena or out of it, the manager holds exactly the players, the
      positions and the subscribers that the calls mean. */
  lemma {:induction false} RunIsReplay(commands: seq<Command>)
    ensures Own(Run(commands)) && RosterOf(Run(commands)) == Replay(commands)
    decreases |commands|
  {
    if commands != [] {
      var n := |commands| - 1;
      RunIsReplay(commands[..n]);
      ApplyMeans(Run(commands[..n]), commands[n]);
    }
  }
}
