/** A table of cells, each holding references to objects under their ids and a count
    of the players among them, kept up to date by inserting and taking out. What it
    should hold is given from outside: where every object is at home. */
module CellTable {

  /** Identity of an object. */
  type Ref = nat

  datatype GridPos = GridPos(x: int, y: int)
  datatype Grid = Grid(entities: map<string, Ref>, playerCount: int)
  type Grids = map<GridPos, Grid>

  /** The scene the table indexes: the home cell of every object that has one, which
      objects are players, and which object is a member under which id. */
  datatype Scene = Scene(homes: map<Ref, GridPos>, players: set<Ref>, members: map<string, Ref>)

  ghost predicate AtHome(s: Scene, id: string, c: GridPos)
  {
    id in s.members && s.members[id] in s.homes && s.homes[s.members[id]] == c
  }

  ghost function PlayersAt(s: Scene, c: GridPos): (p: set<string>)
  {
    set id | id in s.members && AtHome(s, id, c) && s.members[id] in s.players
  }

  /** What a cell should hold: exactly the members at home in it, counted right. */
  ghost predicate CellOk(g: Grid, s: Scene, c: GridPos)
  {
    && (forall id :: id in g.entities <==> AtHome(s, id, c))
    && (forall id :: id in g.entities ==> g.entities[id] == s.members[id])
    && g.playerCount == |PlayersAt(s, c)|
  }

  /** Every member is an object with a home in the table, under one id only. */
  ghost predicate Housed(cells: set<GridPos>, s: Scene)
  {
    && (forall id :: id in s.members ==> s.members[id] in s.homes && s.homes[s.members[id]] in cells)
    && (forall i, j :: i in s.members && j in s.members && s.members[i] == s.members[j] ==> i == j)
  }

  ghost predicate Faithful(cells: set<GridPos>, grids: Grids, s: Scene)
  {
    grids.Keys == cells && Housed(cells, s) && forall c :: c in cells ==> CellOk(grids[c], s, c)
  }

  function InsertInto(g: Grid, id: string, r: Ref, player: bool): (h: Grid)
  {
    Grid(g.entities[id := r], g.playerCount + if player then 1 else 0)
  }

  function TakeFrom(g: Grid, id: string, player: bool): (h: Grid)
  {
    if id !in g.entities then g else Grid(g.entities - {id}, g.playerCount - if player then 1 else 0)
  }

  function Join(s: Scene, id: string, r: Ref): (t: Scene) { s.(members := s.members[id := r]) }
  function Leave(s: Scene, id: string): (t: Scene) { s.(members := s.members - {id}) }
  function Rehome(s: Scene, r: Ref, to: GridPos): (t: Scene) { s.(homes := s.homes[r := to]) }

  /******* One cell *******/

  lemma CellJoin(g: Grid, s: Scene, id: string, r: Ref, c: GridPos)
    requires CellOk(g, s, c) && id !in s.members && r in s.homes
    ensures CellOk(if s.homes[r] == c then InsertInto(g, id, r, r in s.players) else g, Join(s, id, r), c)
  {
    var t := Join(s, id, r);
    if s.homes[r] == c && r in s.players {
      assert PlayersAt(t, c) == PlayersAt(s, c) + {id};
    } else {
      assert PlayersAt(t, c) == PlayersAt(s, c);
    }
  }

  lemma PlayersAfterLeave(s: Scene, id: string, c: GridPos)
    requires id in s.members && s.members[id] in s.homes
    ensures |PlayersAt(Leave(s, id), c)| ==
            |PlayersAt(s, c)| - if s.homes[s.members[id]] == c && s.members[id] in s.players then 1 else 0
  {
    if id in PlayersAt(s, c) {
      assert PlayersAt(Leave(s, id), c) == PlayersAt(s, c) - {id};
    } else {
      assert PlayersAt(Leave(s, id), c) == PlayersAt(s, c);
    }
  }

  lemma CellLeave(g: Grid, s: Scene, id: string, c: GridPos)
    requires CellOk(g, s, c) && id in s.members && s.members[id] in s.homes
    ensures var r := s.members[id];
            CellOk(if s.homes[r] == c then TakeFrom(g, id, r in s.players) else g, Leave(s, id), c)
  {
    PlayersAfterLeave(s, id, c);
    assert AtHome(s, id, c) <==> s.homes[s.members[id]] == c;
  }

  /** Two scenes that agree on every member: what other objects do is irrelevant. */
  ghost predicate SameForMembers(s: Scene, t: Scene)
  {
    s.members == t.members &&
    forall id :: id in s.members ==>
      var r := s.members[id];
      && (r in s.homes <==> r in t.homes) && (r in s.homes ==> s.homes[r] == t.homes[r])
      && (r in s.players <==> r in t.players)
  }

  lemma CellSame(g: Grid, s: Scene, t: Scene, c: GridPos)
    requires CellOk(g, s, c) && SameForMembers(s, t)
    ensures CellOk(g, t, c)
  {
    assert forall id :: AtHome(s, id, c) <==> AtHome(t, id, c);
    assert PlayersAt(t, c) == PlayersAt(s, c);
  }

  /******* The table *******/

  lemma ReplaceCell(cells: set<GridPos>, grids: Grids, t: Scene, at: GridPos, g: Grid)
    requires grids.Keys == cells && at in cells && Housed(cells, t)
    requires forall c :: c in cells ==> CellOk(if at == c then g else grids[c], t, c)
    ensures Faithful(cells, grids[at := g], t)
  {
  }

  lemma HousedJoin(cells: set<GridPos>, s: Scene, id: string, r: Ref)
    requires Housed(cells, s) && r in s.homes && s.homes[r] in cells
    requires forall i :: i in s.members ==> s.members[i] != r
    ensures Housed(cells, Join(s, id, r))
  {
  }

  lemma HousedLeave(cells: set<GridPos>, s: Scene, id: string)
    requires Housed(cells, s)
    ensures Housed(cells, Leave(s, id))
  {
  }

  lemma InsertJoins(cells: set<GridPos>, grids: Grids, s: Scene, id: string, r: Ref)
    requires Faithful(cells, grids, s) && r in s.homes && s.homes[r] in cells
    requires id !in s.members && forall i :: i in s.members ==> s.members[i] != r
    ensures var c := s.homes[r];
            Faithful(cells, grids[c := InsertInto(grids[c], id, r, r in s.players)], Join(s, id, r))
  {
    var at := s.homes[r];
    var g, t := InsertInto(grids[at], id, r, r in s.players), Join(s, id, r);
    forall c | c in cells ensures CellOk(if at == c then g else grids[c], t, c) {
      CellJoin(grids[c], s, id, r, c);
    }
    HousedJoin(cells, s, id, r);
    ReplaceCell(cells, grids, t, at, g);
  }

  lemma TakeLeaves(cells: set<GridPos>, grids: Grids, s: Scene, id: string)
    requires Faithful(cells, grids, s) && id in s.members
    ensures var r := s.members[id]; var c := s.homes[r];
            Faithful(cells, grids[c := TakeFrom(grids[c], id, r in s.players)], Leave(s, id))
  {
    var r := s.members[id];
    var at := s.homes[r];
    var g, t := TakeFrom(grids[at], id, r in s.players), Leave(s, id);
    forall c | c in cells ensures CellOk(if at == c then g else grids[c], t, c) {
      CellLeave(grids[c], s, id, c);
    }
    HousedLeave(cells, s, id);
    ReplaceCell(cells, grids, t, at, g);
  }

  lemma SameScene(cells: set<GridPos>, grids: Grids, s: Scene, t: Scene)
    requires Faithful(cells, grids, s) && SameForMembers(s, t)
    ensures Faithful(cells, grids, t)
  {
    forall c | c in cells ensures CellOk(grids[c], t, c) {
      CellSame(grids[c], s, t, c);
    }
  }

  /** A member that moves home: taken out of the old cell and put into the new one. */
  lemma MemberMoves(cells: set<GridPos>, grids: Grids, s: Scene, id: string, to: GridPos)
    requires Faithful(cells, grids, s) && id in s.members && to in cells
    ensures var r := s.members[id]; var c, player := s.homes[r], r in s.players;
            var out := grids[c := TakeFrom(grids[c], id, player)];
            Faithful(cells, out[to := InsertInto(out[to], id, r, player)], Rehome(s, r, to))
  {
    var r := s.members[id];
    var c, player := s.homes[r], r in s.players;
    var out := grids[c := TakeFrom(grids[c], id, player)];
    TakeLeaves(cells, grids, s, id);
    LeftBehind(cells, s, id);
    SameScene(cells, out, Leave(s, id), Rehome(Leave(s, id), r, to));
    ReturnsElsewhere(cells, out, s, id, to);
  }

  /** Entering under an id that is taken leaves the table right exactly when the
      newcomer lands in the cell of the old bearer and the old one is no player:
      in any other case the id stays in two cells, or is counted twice. */
  lemma ReentryIff(cells: set<GridPos>, grids: Grids, s: Scene, id: string, r: Ref)
    requires Faithful(cells, grids, s) && r in s.homes && s.homes[r] in cells
    requires id in s.members && forall i :: i in s.members && i != id ==> s.members[i] != r
    ensures var c, q := s.homes[r], s.members[id];
            Faithful(cells, grids[c := InsertInto(grids[c], id, r, r in s.players)], Join(s, id, r)) <==>
            s.homes[q] == c && q !in s.players
  {
    var c, q := s.homes[r], s.members[id];
    var after, t := grids[c := InsertInto(grids[c], id, r, r in s.players)], Join(s, id, r);
    assert CellOk(grids[c], s, c) && CellOk(grids[s.homes[q]], s, s.homes[q]);
    assert AtHome(s, id, s.homes[q]) && AtHome(t, id, c);
    if s.homes[q] != c {
      assert id in after[s.homes[q]].entities && !AtHome(t, id, s.homes[q]);
      assert !CellOk(after[s.homes[q]], t, s.homes[q]);
    } else {
      PlayersAfterReentry(s, id, r);
      assert after[c].playerCount == |PlayersAt(t, c)| <==> q !in s.players;
      if q !in s.players { ReentryInPlace(cells, grids, s, id, r); }
    }
  }

  lemma PlayersAfterReentry(s: Scene, id: string, r: Ref)
    requires id in s.members && r in s.homes && s.members[id] in s.homes && s.homes[s.members[id]] == s.homes[r]
    ensures |PlayersAt(Join(s, id, r), s.homes[r])| ==
            |PlayersAt(s, s.homes[r])| - (if s.members[id] in s.players then 1 else 0) + if r in s.players then 1 else 0
  {
    var c, rest := s.homes[r], Leave(s, id);
    PlayersAfterLeave(s, id, c);
    assert Join(rest, id, r).members == Join(s, id, r).members;
    if r in s.players {
      assert PlayersAt(Join(s, id, r), c) == PlayersAt(rest, c) + {id};
    } else {
      assert PlayersAt(Join(s, id, r), c) == PlayersAt(rest, c);
    }
  }

  lemma ReentryCell(g: Grid, s: Scene, id: string, r: Ref, c: GridPos)
    requires CellOk(g, s, c) && r in s.homes && id in s.members && s.members[id] in s.homes
    requires s.homes[s.members[id]] == s.homes[r] && s.members[id] !in s.players
    ensures CellOk(if s.homes[r] == c then InsertInto(g, id, r, r in s.players) else g, Join(s, id, r), c)
  {
    var t := Join(s, id, r);
    assert forall i :: AtHome(s, i, c) <==> AtHome(t, i, c);
    if s.homes[r] == c {
      PlayersAfterReentry(s, id, r);
    } else {
      assert PlayersAt(t, c) == PlayersAt(s, c);
    }
  }

  lemma HousedReentry(cells: set<GridPos>, s: Scene, id: string, r: Ref)
    requires Housed(cells, s) && r in s.homes && s.homes[r] in cells
    requires id in s.members && forall i :: i in s.members && i != id ==> s.members[i] != r
    ensures Housed(cells, Join(s, id, r))
  {
  }

  lemma ReentryInPlace(cells: set<GridPos>, grids: Grids, s: Scene, id: string, r: Ref)
    requires Faithful(cells, grids, s) && r in s.homes && s.homes[r] in cells
    requires id in s.members && forall i :: i in s.members && i != id ==> s.members[i] != r
    requires s.homes[s.members[id]] == s.homes[r] && s.members[id] !in s.players
    ensures var c := s.homes[r];
            Faithful(cells, grids[c := InsertInto(grids[c], id, r, r in s.players)], Join(s, id, r))
  {
    var at, t := s.homes[r], Join(s, id, r);
    var g := InsertInto(grids[at], id, r, r in s.players);
    forall c | c in cells ensures CellOk(if at == c then g else grids[c], t, c) {
      ReentryCell(grids[c], s, id, r, c);
    }
    HousedReentry(cells, s, id, r);
    ReplaceCell(cells, grids, t, at, g);
  }

  lemma LeftBehind(cells: set<GridPos>, s: Scene, id: string)
    requires Housed(cells, s) && id in s.members
    ensures forall i :: i in Leave(s, id).members ==> Leave(s, id).members[i] != s.members[id]
  {
  }

  lemma ReturnsElsewhere(cells: set<GridPos>, out: Grids, s: Scene, id: string, to: GridPos)
    requires id in s.members && to in cells
    requires var r := s.members[id];
             Faithful(cells, out, Rehome(Leave(s, id), r, to)) &&
             forall i :: i in Leave(s, id).members ==> Leave(s, id).members[i] != r
    ensures var r := s.members[id];
            Faithful(cells, out[to := InsertInto(out[to], id, r, r in s.players)], Rehome(s, r, to))
  {
    var r := s.members[id];
    BackUnderItsId(s, id, to);
    InsertJoins(cells, out, Rehome(Leave(s, id), r, to), id, r);
  }

  lemma BackUnderItsId(s: Scene, id: string, to: GridPos)
    requires id in s.members
    ensures Join(Rehome(Leave(s, id), s.members[id], to), id, s.members[id]) == Rehome(s, s.members[id], to)
  {
    assert (s.members - {id})[id := s.members[id]] == s.members;
  }

  lemma CellUnique(g: Grid, h: Grid, s: Scene, c: GridPos)
    requires CellOk(g, s, c) && CellOk(h, s, c)
    ensures g == h
  {
    assert g.entities == h.entities;
  }

  /** A scene has one table. */
  lemma FaithfulUnique(cells: set<GridPos>, grids: Grids, other: Grids, s: Scene)
    requires Faithful(cells, grids, s) && Faithful(cells, other, s)
    ensures grids == other
  {
    forall c | c in cells ensures grids[c] == other[c] { CellUnique(grids[c], other[c], s, c); }
  }
}
