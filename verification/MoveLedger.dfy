/** Who is where while moves are half done: the registered players, the cells of their
    positions, the calls that move them, and the scene that the table still shows. */
module MoveLedger {
  import opened Bytes
  import opened CellTable

  /** How far a call of UpdatePlayerPosition is: it has found the player; it has read the
      old position, which matters only by its cell; it has stored the new one; UpdateEntity
      has found two different cells; it has left the old cell. */
  datatype Stage =
    | Found(r: Ref)
    | Knows(r: Ref, before: Option<GridPos>)
    | Stored(r: Ref, before: Option<GridPos>)
    | Aimed(r: Ref, from: GridPos, to: GridPos)
    | Out(r: Ref, to: GridPos)

  /** `at` is the cell of each object's position, for those in the world. */
  datatype Ledger = Ledger(players: map<string, Ref>, names: map<Ref, string>, at: map<Ref, GridPos>,
                           calls: map<nat, Stage>)

  /** Somewhere between the store and the last section. */
  predicate HalfDone(stage: Stage)
  {
    stage.Stored? || stage.Aimed? || stage.Out?
  }

  ghost predicate Busy(calls: map<nat, Stage>, r: Ref)
  {
    exists k :: k in calls && calls[k].r == r && HalfDone(calls[k])
  }

  ghost predicate Engaged(calls: map<nat, Stage>, r: Ref)
  {
    exists k :: k in calls && calls[k].r == r
  }

  /** One call at a time for each player. */
  ghost predicate Solo(calls: map<nat, Stage>)
  {
    forall k, l :: k in calls && l in calls && calls[k].r == calls[l].r ==> k == l
  }

  predicate Registered(l: Ledger, r: Ref)
  {
    r in l.names && l.names[r] in l.players && l.players[l.names[r]] == r
  }

  /** The table shows the player of a call where the call's stage says: still in the old
      cell after the store, nowhere when it is out; and what the call has read is so. */
  predicate Fits(l: Ledger, scene: Scene, stage: Stage)
  {
    && Registered(l, stage.r) && stage.r in l.at
    && var id, r := l.names[stage.r], stage.r;
       match stage
       case Found(_) => true
       case Knows(_, before) => before == Some(l.at[r])
       case Stored(_, before) => id in scene.members && r in scene.homes && before == Some(scene.homes[r])
       case Aimed(_, from, to) => id in scene.members && r in scene.homes && scene.homes[r] == from && l.at[r] == to
       case Out(_, to) => id !in scene.members && l.at[r] == to
  }

  /** The table shows the player where it is. */
  predicate InPlace(l: Ledger, scene: Scene, id: string)
  {
    && id in l.players && l.players[id] in l.at
    && id in scene.members && l.players[id] in scene.homes && scene.homes[l.players[id]] == l.at[l.players[id]]
  }

  ghost predicate People(l: Ledger, scene: Scene)
  {
    && (forall id :: id in l.players ==>
          l.players[id] in l.names && l.names[l.players[id]] == id && l.players[id] in l.at)
    && (forall r :: r in l.names ==> r in scene.players)
    && (forall id :: id in scene.members ==> id in l.players && scene.members[id] == l.players[id])
  }

  ghost predicate Calls(l: Ledger, scene: Scene)
  {
    Solo(l.calls) && forall k :: k in l.calls ==> Fits(l, scene, l.calls[k])
  }

  ghost predicate Homes(l: Ledger, scene: Scene)
  {
    forall id :: id in l.players && !Busy(l.calls, l.players[id]) ==> InPlace(l, scene, id)
  }

  ghost predicate Inv(l: Ledger, scene: Scene)
  {
    People(l, scene) && Calls(l, scene) && Homes(l, scene)
  }

  /******* What a call does *******/

  function With(l: Ledger, k: nat, stage: Stage): (m: Ledger)
  {
    l.(calls := l.calls[k := stage])
  }

  lemma MoreBusy(a: map<nat, Stage>, b: map<nat, Stage>, r: Ref)
    requires forall j :: j in a && a[j].r == r ==> j in b && b[j].r == r && (HalfDone(a[j]) ==> HalfDone(b[j]))
    ensures Busy(a, r) ==> Busy(b, r)
  {
    if Busy(a, r) {
      var j :| j in a && a[j].r == r && HalfDone(a[j]);
      assert j in b;
    }
  }

  lemma FindKeeps(l: Ledger, scene: Scene, k: nat, r: Ref)
    requires Inv(l, scene) && k !in l.calls && Registered(l, r) && r in l.at && !Engaged(l.calls, r)
    ensures Inv(With(l, k, Found(r)), scene)
  {
    var m := With(l, k, Found(r));
    forall j | j in m.calls ensures Fits(m, scene, m.calls[j]) {
      assert j != k ==> Fits(l, scene, l.calls[j]);
    }
    forall id | id in m.players && !Busy(m.calls, m.players[id]) ensures InPlace(m, scene, id) {
      MoreBusy(l.calls, m.calls, l.players[id]);
      assert InPlace(l, scene, id);
    }
  }

  /** A call goes on to a stage that fits as well, half done or not as before. */
  lemma StageKeeps(l: Ledger, scene: Scene, k: nat, stage: Stage)
    requires Inv(l, scene) && k in l.calls && stage.r == l.calls[k].r
    requires Fits(l, scene, stage) && (HalfDone(stage) <==> HalfDone(l.calls[k]))
    ensures Inv(With(l, k, stage), scene)
  {
    var m := With(l, k, stage);
    forall j | j in m.calls ensures Fits(m, scene, m.calls[j]) {
      assert j != k ==> Fits(l, scene, l.calls[j]);
    }
    forall id | id in m.players && !Busy(m.calls, m.players[id]) ensures InPlace(m, scene, id) {
      MoreBusy(l.calls, m.calls, l.players[id]);
      assert InPlace(l, scene, id);
    }
  }

  /** The player of a call that has stored nothing is in place: nobody else moves it. */
  lemma EarlyInPlace(l: Ledger, scene: Scene, k: nat)
    requires Inv(l, scene) && k in l.calls && !HalfDone(l.calls[k])
    ensures Registered(l, l.calls[k].r) && InPlace(l, scene, l.names[l.calls[k].r])
  {
    assert Fits(l, scene, l.calls[k]);
    assert !Busy(l.calls, l.calls[k].r);
  }

  /** Changing or dropping one call changes nothing for the players of others. */
  lemma SameBusy(l: Ledger, m: Ledger, k: nat, r: Ref)
    requires k in l.calls && l.calls[k].r != r
    requires forall j :: j in l.calls && j != k ==> j in m.calls && m.calls[j] == l.calls[j]
    ensures Busy(l.calls, r) ==> Busy(m.calls, r)
  {
    MoreBusy(l.calls, m.calls, r);
  }

  /** The new position is stored; the table still shows the old cell. */
  function Moved(l: Ledger, k: nat, c: GridPos): (m: Ledger)
    requires k in l.calls && l.calls[k].Knows?
  {
    With(l.(at := l.at[l.calls[k].r := c]), k, Stored(l.calls[k].r, l.calls[k].before))
  }

  lemma StoreKeeps(l: Ledger, scene: Scene, k: nat, c: GridPos)
    requires Inv(l, scene) && k in l.calls && l.calls[k].Knows?
    ensures Inv(Moved(l, k, c), scene)
  {
    var m, r := Moved(l, k, c), l.calls[k].r;
    EarlyInPlace(l, scene, k);
    assert Fits(l, scene, l.calls[k]);
    forall j | j in m.calls ensures Fits(m, scene, m.calls[j]) {
      assert Fits(l, scene, l.calls[j]);
    }
    forall id | id in m.players && !Busy(m.calls, m.players[id]) ensures InPlace(m, scene, id) {
      assert k in m.calls && HalfDone(m.calls[k]);
      SameBusy(l, m, k, l.players[id]);
    }
  }

  function Close(l: Ledger, k: nat): (m: Ledger)
  {
    l.(calls := l.calls - {k})
  }

  /** A call ends that left nothing to do: the table shows its player in place. */
  lemma CloseKeeps(l: Ledger, scene: Scene, k: nat)
    requires Inv(l, scene) && k in l.calls && Registered(l, l.calls[k].r) && InPlace(l, scene, l.names[l.calls[k].r])
    ensures Inv(Close(l, k), scene)
  {
    var m, r := Close(l, k), l.calls[k].r;
    forall j | j in m.calls ensures Fits(m, scene, m.calls[j]) {
      assert Fits(l, scene, l.calls[j]);
    }
    forall id | id in m.players && !Busy(m.calls, m.players[id]) ensures InPlace(m, scene, id) {
      if l.players[id] != r {
        SameBusy(l, m, k, l.players[id]);
      }
    }
  }

  lemma TakeOutKeeps(l: Ledger, scene: Scene, k: nat)
    requires Inv(l, scene) && k in l.calls && l.calls[k].Aimed?
    ensures Registered(l, l.calls[k].r)
    ensures Inv(With(l, k, Out(l.calls[k].r, l.calls[k].to)), Leave(scene, l.names[l.calls[k].r]))
  {
    assert Fits(l, scene, l.calls[k]);
    var m, r := With(l, k, Out(l.calls[k].r, l.calls[k].to)), l.calls[k].r;
    var after := Leave(scene, l.names[r]);
    forall j | j in m.calls ensures Fits(m, after, m.calls[j]) {
      assert Fits(l, scene, l.calls[j]);
    }
    forall i | i in m.players && !Busy(m.calls, m.players[i]) ensures InPlace(m, after, i) {
      assert k in m.calls && HalfDone(m.calls[k]);
      SameBusy(l, m, k, l.players[i]);
    }
  }

  /** The scene with the call's player in the cell of its position. */
  function Arrived(scene: Scene, id: string, r: Ref, c: GridPos): (after: Scene)
  {
    Join(Rehome(scene, r, c), id, r)
  }

  lemma ArrivedFaithful(cells: set<GridPos>, grids: Grids, scene: Scene, id: string, r: Ref, c: GridPos)
    requires Faithful(cells, grids, scene) && c in cells && r in scene.players
    requires id !in scene.members && forall i :: i in scene.members ==> scene.members[i] != r
    ensures Faithful(cells, grids[c := InsertInto(grids[c], id, r, true)], Arrived(scene, id, r, c))
  {
    SameScene(cells, grids, scene, Rehome(scene, r, c));
    InsertJoins(cells, grids, Rehome(scene, r, c), id, r);
  }

  /** A player that is out is nowhere in the scene. */
  lemma OutOfSight(l: Ledger, scene: Scene, k: nat)
    requires Inv(l, scene) && k in l.calls && l.calls[k].Out?
    ensures l.calls[k].r in l.names && l.calls[k].r in scene.players && l.names[l.calls[k].r] !in scene.members
    ensures forall i :: i in scene.members ==> scene.members[i] != l.calls[k].r
  {
    assert Fits(l, scene, l.calls[k]);
    forall i | i in scene.members ensures scene.members[i] != l.calls[k].r {
      assert l.names[l.players[i]] == i;
    }
  }

  /** A call may read the cell of its player's position. */
  lemma LookKeeps(l: Ledger, scene: Scene, k: nat)
    requires Inv(l, scene) && k in l.calls && l.calls[k].Found?
    ensures l.calls[k].r in l.at && Inv(With(l, k, Knows(l.calls[k].r, Some(l.at[l.calls[k].r]))), scene)
  {
    assert Fits(l, scene, l.calls[k]);
    StageKeeps(l, scene, k, Knows(l.calls[k].r, Some(l.at[l.calls[k].r])));
  }

  lemma PutInKeeps(l: Ledger, scene: Scene, k: nat)
    requires Inv(l, scene) && k in l.calls && l.calls[k].Out?
    ensures Registered(l, l.calls[k].r)
    ensures Inv(Close(l, k), Arrived(scene, l.names[l.calls[k].r], l.calls[k].r, l.calls[k].to))
  {
    assert Fits(l, scene, l.calls[k]);
    var m, r := Close(l, k), l.calls[k].r;
    var after := Arrived(scene, l.names[r], r, l.calls[k].to);
    forall j | j in m.calls ensures Fits(m, after, m.calls[j]) {
      assert Fits(l, scene, l.calls[j]);
    }
    forall i | i in m.players && !Busy(m.calls, m.players[i]) ensures InPlace(m, after, i) {
      if l.players[i] != r {
        SameBusy(l, m, k, l.players[i]);
      }
    }
  }

  /******* What the manager does *******/

  function Grown(l: Ledger, id: string, r: Ref, c: GridPos): (m: Ledger)
  {
    Ledger(l.players[id := r], l.names[r := id], l.at[r := c], l.calls)
  }

  function Entered(scene: Scene, id: string, r: Ref, c: GridPos): (after: Scene)
  {
    Join(scene.(homes := scene.homes[r := c], players := scene.players + {r}), id, r)
  }

  lemma EnteredFaithful(cells: set<GridPos>, grids: Grids, scene: Scene, id: string, r: Ref, c: GridPos)
    requires Faithful(cells, grids, scene) && c in cells
    requires id !in scene.members && forall i :: i in scene.members ==> scene.members[i] != r
    ensures Faithful(cells, grids[c := InsertInto(grids[c], id, r, true)], Entered(scene, id, r, c))
  {
    var there := scene.(homes := scene.homes[r := c], players := scene.players + {r});
    SameScene(cells, grids, scene, there);
    InsertJoins(cells, grids, there, id, r);
  }

  lemma NewFace(l: Ledger, scene: Scene, id: string, r: Ref)
    requires People(l, scene) && id !in l.players && r !in l.names
    ensures id !in scene.members && forall i :: i in scene.members ==> scene.members[i] != r
  {
  }

  lemma RegisterPeople(l: Ledger, scene: Scene, id: string, r: Ref, c: GridPos)
    requires People(l, scene) && id !in l.players && r !in l.names
    ensures People(Grown(l, id, r, c), Entered(scene, id, r, c))
  {
  }

  lemma RegisterFits(l: Ledger, scene: Scene, id: string, r: Ref, c: GridPos, stage: Stage)
    requires Fits(l, scene, stage) && id !in l.players && r !in l.names
    ensures Fits(Grown(l, id, r, c), Entered(scene, id, r, c), stage)
  {
  }

  lemma RegisterKeeps(l: Ledger, scene: Scene, id: string, r: Ref, c: GridPos)
    requires Inv(l, scene) && id !in l.players && r !in l.names
    ensures Inv(Grown(l, id, r, c), Entered(scene, id, r, c))
  {
    var m, after := Grown(l, id, r, c), Entered(scene, id, r, c);
    RegisterPeople(l, scene, id, r, c);
    forall j | j in m.calls ensures Fits(m, after, m.calls[j]) {
      RegisterFits(l, scene, id, r, c, l.calls[j]);
    }
    forall i | i in m.players && !Busy(m.calls, m.players[i]) ensures InPlace(m, after, i) {
      assert i != id ==> InPlace(l, scene, i);
    }
  }

  function Dropped(l: Ledger, id: string): (m: Ledger)
  {
    l.(players := l.players - {id})
  }

  lemma UnregisterKeeps(l: Ledger, scene: Scene, id: string)
    requires Inv(l, scene) && id in l.players && !Engaged(l.calls, l.players[id])
    ensures Inv(Dropped(l, id), Leave(scene, id)) && InPlace(l, scene, id)
  {
    var m, after := Dropped(l, id), Leave(scene, id);
    forall j | j in m.calls ensures Fits(m, after, m.calls[j]) {
      assert Fits(l, scene, l.calls[j]);
    }
    forall i | i in m.players && !Busy(m.calls, m.players[i]) ensures InPlace(m, after, i) {
      assert InPlace(l, scene, i);
    }
    assert !Busy(l.calls, l.players[id]);
  }

  /** When no call is half done, the scene shows every player where it is. */
  lemma NobodyBusy(l: Ledger, scene: Scene)
    requires Inv(l, scene) && forall k :: k in l.calls ==> !HalfDone(l.calls[k])
    ensures scene.members == l.players && forall id :: id in l.players ==> InPlace(l, scene, id)
  {
    forall id | id in l.players ensures InPlace(l, scene, id) {
      assert !Busy(l.calls, l.players[id]);
    }
  }
}
