/** What happens to the index when operations of one player overlap, and which overlaps
    callers must avoid. */
module PlayerOverlaps {
  import opened Bytes
  import opened Counting
  import opened CellTable
  import opened AoiGrid
  import opened PlayerState
  import opened MoveLedger
  import opened PlayerMoves

  /******* Putting runs together *******/

  lemma {:induction false} RunCons(p: Policy, s: System, step: Step, rest: seq<Step>)
    requires Rooted(s) && Enabled(s, step) && Permits(p, s, step) && Legal(p, Advance(s, step), rest)
    ensures Legal(p, s, [step] + rest) && Reach(p, s, [step] + rest) == Reach(p, Advance(s, step), rest)
  {
    assert ([step] + rest)[1..] == rest;
  }

  lemma {:induction false} RunConcat(p: Policy, s: System, first: seq<Step>, second: seq<Step>)
    requires Legal(p, s, first) && Legal(p, Reach(p, s, first), second)
    ensures Legal(p, s, first + second) && Reach(p, s, first + second) == Reach(p, Reach(p, s, first), second)
    decreases |first|
  {
    if first == [] {
      assert first + second == second;
    } else {
      RunConcat(p, Advance(s, first[0]), first[1..], second);
      RunCons(p, s, first[0], first[1..] + second);
      Regroup(first, second);
    }
  }

  lemma {:induction false} RunOne(p: Policy, s: System, step: Step)
    requires Rooted(s) && Enabled(s, step) && Permits(p, s, step)
    ensures Legal(p, s, [step]) && Reach(p, s, [step]) == Advance(s, step)
  {
    StepRooted(s, step);
    assert [step][1..] == [];
  }

  lemma {:induction false} EndRooted(p: Policy, s: System, steps: seq<Step>)
    requires Legal(p, s, steps)
    ensures Rooted(Reach(p, s, steps))
    decreases |steps|
  {
    if steps != [] {
      EndRooted(p, Advance(s, steps[0]), steps[1..]);
    }
  }

  /** One more step after a run. */
  lemma RunSnoc(p: Policy, s: System, steps: seq<Step>, step: Step)
    requires Legal(p, s, steps) && Enabled(Reach(p, s, steps), step) && Permits(p, Reach(p, s, steps), step)
    ensures Rooted(Reach(p, s, steps))
    ensures Legal(p, s, steps + [step]) && Reach(p, s, steps + [step]) == Advance(Reach(p, s, steps), step)
  {
    EndRooted(p, s, steps);
    RunOne(p, Reach(p, s, steps), step);
    RunConcat(p, s, steps, [step]);
  }

  /******* One call by itself *******/

  /** The sections of a call; the last two only if the player changes its cell. */
  function Sections(k: nat, id: string, pos: Position, moves: bool): (steps: seq<Step>)
    ensures |steps| == if moves then 6 else 4
  {
    [Find(k, id), Look(k), Store(k, pos), Aim(k)] + if moves then [TakeOut(k), PutIn(k)] else []
  }

  /** A call that may run: it is new, its player is registered, and the policy allows it. */
  ghost predicate Ready(p: Policy, s: System, k: nat, id: string, pos: Position)
  {
    && Rooted(s) && k !in s.calls && id in s.m.players
    && Permits(p, s, Find(k, id)) && (!ARENA.Contains(pos.x, pos.z) ==> p.outside)
  }

  predicate Moves(m: Manager, r: Ref, pos: Position)
    requires r in m.objects
  {
    var from, to := CellOf(m.objects[r].pos), CellOf(pos);
    from.Some? && to.Some? && from != to
  }

  /** The stage after the first n sections. */
  function StageAt(m: Manager, r: Ref, pos: Position, n: nat): (stage: Stage)
    requires r in m.objects && 1 <= n <= 5 && (n > 3 ==> Moves(m, r, pos))
  {
    var from, to := CellOf(m.objects[r].pos), CellOf(pos);
    if n == 1 then Found(r)
    else if n == 2 then Knows(r, from)
    else if n == 3 then Stored(r, from)
    else if n == 4 then Aimed(r, from.value, to.value)
    else Out(r, to.value)
  }

  function ManagerAt(m: Manager, r: Ref, pos: Position, n: nat): (t: Manager)
    requires Sound(m) && r in m.objects && (n > 3 ==> Moves(m, r, pos))
  {
    if n < 3 then m
    else if n < 5 then Stood(m, r, pos)
    else Taken(Stood(m, r, pos), StageAt(m, r, pos, 4))
  }

  /** The system after the first n sections of a call that nobody interrupts. */
  function SystemAt(s: System, k: nat, r: Ref, pos: Position, n: nat): (t: System)
    requires Sound(s.m) && r in s.m.objects && 1 <= n <= 5 && (n > 3 ==> Moves(s.m, r, pos))
  {
    System(ManagerAt(s.m, r, pos, n), s.calls[k := StageAt(s.m, r, pos, n)])
  }

  /** The n-th section, from n = 1 on. */
  lemma NextSection(p: Policy, s: System, k: nat, id: string, pos: Position, n: nat)
    requires Ready(p, s, k, id, pos) && 1 <= n <= 4
    requires var r := s.m.players[id]; n >= 3 ==> Moves(s.m, r, pos)
    ensures var r := s.m.players[id];
            var t, step := SystemAt(s, k, r, pos, n), Sections(k, id, pos, Moves(s.m, r, pos))[n];
            Rooted(t) ==> Enabled(t, step) && Permits(p, t, step) && Advance(t, step) == SystemAt(s, k, r, pos, n + 1)
  {
    var r := s.m.players[id];
    assert s.calls[k := StageAt(s.m, r, pos, n)][k := StageAt(s.m, r, pos, n + 1)]
           == s.calls[k := StageAt(s.m, r, pos, n + 1)];
  }

  /** A call runs through its first n sections as `SystemAt` says. */
  lemma {:induction false} UpTo(p: Policy, s: System, k: nat, id: string, pos: Position, n: nat)
    requires Ready(p, s, k, id, pos) && 1 <= n <= 5
    requires n > 3 ==> Moves(s.m, s.m.players[id], pos)
    ensures var r := s.m.players[id];
            var steps := Sections(k, id, pos, Moves(s.m, r, pos))[..n];
            Legal(p, s, steps) && Reach(p, s, steps) == SystemAt(s, k, r, pos, n)
    decreases n
  {
    var steps := Sections(k, id, pos, Moves(s.m, s.m.players[id], pos));
    if n == 1 {
      RunOne(p, s, Find(k, id));
      assert steps[..1] == [Find(k, id)];
    } else {
      UpTo(p, s, k, id, pos, n - 1);
      EndRooted(p, s, steps[..n - 1]);
      NextSection(p, s, k, id, pos, n - 1);
      RunSnoc(p, s, steps[..n - 1], steps[n - 1]);
      assert steps[..n] == steps[..n - 1] + [steps[n - 1]];
    }
  }

  predicate AtSection(stage: Stage, n: nat)
  {
    match n
    case 1 => stage.Found?
    case 2 => stage.Knows?
    case 3 => stage.Stored?
    case 4 => stage.Aimed?
    case 5 => stage.Out?
    case _ => false
  }

  /** A call that will put its player into the cell `to`. */
  predicate Heading(m: Manager, stage: Stage, id: string, pos: Position, to: GridPos)
  {
    && stage.r in m.objects && m.objects[stage.r].id == id && CellOf(pos) == Some(to)
    && var at := CellOf(m.objects[stage.r].pos);
       match stage
       case Found(_) => at.Some? && at != Some(to)
       case Knows(_, before) => before.Some? && before != Some(to)
       case Stored(_, before) => before.Some? && before != Some(to) && at == Some(to)
       case Aimed(_, _, c) => c == to
       case Out(_, c) => c == to
  }

  lemma CellInArena(pos: Position)
    ensures CellOf(pos).Some? <==> ARENA.Contains(pos.x, pos.z)
  {
  }

  /** What its sections leave alone. */
  ghost predicate SamePeople(m: Manager, t: Manager)
  {
    t.players == m.players && t.nextRef == m.nextRef && Names(t.objects) == Names(m.objects)
  }

  lemma HeadingStep(p: Policy, s: System, k: nat, id: string, pos: Position, to: GridPos, n: nat)
    requires Rooted(s) && k in s.calls && AtSection(s.calls[k], n) && Heading(s.m, s.calls[k], id, pos, to)
    ensures var step := Sections(k, id, pos, true)[n];
            && Enabled(s, step) && Permits(p, s, step)
            && var t := Advance(s, step);
               && SamePeople(s.m, t.m) && t.calls - {k} == s.calls - {k}
               && (n < 5 ==> k in t.calls && AtSection(t.calls[k], n + 1) && Heading(t.m, t.calls[k], id, pos, to))
               && (n == 5 ==> k !in t.calls && to in t.m.grids && id in t.m.grids[to].entities)
  {
    CellInArena(pos);
  }

  /** Whatever else has changed, its remaining sections do so. */
  lemma {:induction false} EndsThere(p: Policy, s: System, k: nat, id: string, pos: Position, to: GridPos, n: nat)
    requires Rooted(s) && k in s.calls && AtSection(s.calls[k], n) && Heading(s.m, s.calls[k], id, pos, to)
    ensures var steps := Sections(k, id, pos, true)[n..];
            && Legal(p, s, steps)
            && var t := Reach(p, s, steps);
               && t.calls == s.calls - {k} && SamePeople(s.m, t.m)
               && to in t.m.grids && id in t.m.grids[to].entities
    decreases 6 - n
  {
    var steps := Sections(k, id, pos, true);
    var step := steps[n];
    HeadingStep(p, s, k, id, pos, to, n);
    StepRooted(s, step);
    var t := Advance(s, step);
    if n == 5 {
      RunOne(p, s, step);
      assert steps[5..] == [step];
      assert t.calls == t.calls - {k};
    } else {
      EndsThere(p, t, k, id, pos, to, n + 1);
      RunCons(p, s, step, steps[n + 1..]);
      assert steps[n..] == [step] + steps[n + 1..];
    }
  }

  /** A call whose player stays in its cell. */
  predicate Staying(m: Manager, stage: Stage, pos: Position)
  {
    && stage.r in m.objects
    && match stage
       case Found(_) => CellOf(m.objects[stage.r].pos) == CellOf(pos)
       case Knows(_, before) => before == CellOf(pos)
       case Stored(_, before) => before == CellOf(m.objects[stage.r].pos)
       case _ => false
  }

  lemma {:induction false} EndsStill(p: Policy, s: System, k: nat, id: string, pos: Position, n: nat)
    requires Rooted(s) && k in s.calls && AtSection(s.calls[k], n) && Staying(s.m, s.calls[k], pos)
    requires ARENA.Contains(pos.x, pos.z)
    ensures var steps := Sections(k, id, pos, false)[n..];
            && Legal(p, s, steps)
            && Reach(p, s, steps) == System(if n == 3 then s.m else Stood(s.m, s.calls[k].r, pos), s.calls - {k})
    decreases 4 - n
  {
    var steps := Sections(k, id, pos, false);
    var step := steps[n];
    StepRooted(s, step);
    var t := Advance(s, step);
    if n == 3 {
      RunOne(p, s, step);
      assert steps[3..] == [step];
    } else {
      assert t.calls - {k} == s.calls - {k};
      EndsStill(p, t, k, id, pos, n + 1);
      RunCons(p, s, step, steps[n + 1..]);
      assert steps[n..] == [step] + steps[n + 1..];
    }
  }

  lemma SectionsAreUpdate(m: Manager, id: string, pos: Position)
    requires Sound(m) && id in m.players
    ensures var r := m.players[id];
            if Moves(m, r, pos) then
              Grounded(ManagerAt(m, r, pos, 5), StageAt(m, r, pos, 5))
              && Put(ManagerAt(m, r, pos, 5), StageAt(m, r, pos, 5)) == UpdatePosition(m, id, pos)
            else Stood(m, r, pos) == UpdatePosition(m, id, pos)
  {
  }

  /** The last section of a call. */
  lemma LastSection(s: System, k: nat, id: string, pos: Position)
    requires Rooted(s) && k !in s.calls && id in s.m.players
    ensures var r := s.m.players[id];
            var moves := Moves(s.m, r, pos);
            var n := if moves then 5 else 3;
            var t, step := SystemAt(s, k, r, pos, n), Sections(k, id, pos, moves)[n];
            Rooted(t) ==> Enabled(t, step) && Advance(t, step) == System(UpdatePosition(s.m, id, pos), s.calls)
  {
    var r := s.m.players[id];
    SectionsAreUpdate(s.m, id, pos);
    var n := if Moves(s.m, r, pos) then 5 else 3;
    assert s.calls[k := StageAt(s.m, r, pos, n)] - {k} == s.calls;
  }

  /** A call that nobody interrupts is the move in one step, within the arena or out of it. */
  lemma Uninterrupted(p: Policy, s: System, k: nat, id: string, pos: Position)
    requires Ready(p, s, k, id, pos)
    ensures var steps := Sections(k, id, pos, Moves(s.m, s.m.players[id], pos));
            Legal(p, s, steps) && Reach(p, s, steps) == System(UpdatePosition(s.m, id, pos), s.calls)
  {
    var moves := Moves(s.m, s.m.players[id], pos);
    var steps, n := Sections(k, id, pos, moves), if moves then 5 else 3;
    var t := BeforeLast(p, s, k, id, pos);
    RunSnoc(p, s, steps[..n], steps[n]);
    assert steps == steps[..n] + [steps[n]];
  }

  lemma BeforeLast(p: Policy, s: System, k: nat, id: string, pos: Position) returns (t: System)
    requires Ready(p, s, k, id, pos)
    ensures var moves := Moves(s.m, s.m.players[id], pos);
            var steps, n := Sections(k, id, pos, moves), if moves then 5 else 3;
            && Legal(p, s, steps[..n]) && t == Reach(p, s, steps[..n]) && Rooted(t)
            && Enabled(t, steps[n]) && Permits(p, t, steps[n])
            && Advance(t, steps[n]) == System(UpdatePosition(s.m, id, pos), s.calls)
  {
    var moves := Moves(s.m, s.m.players[id], pos);
    var steps, n := Sections(k, id, pos, moves), if moves then 5 else 3;
    UpTo(p, s, k, id, pos, n);
    t := Reach(p, s, steps[..n]);
    EndRooted(p, s, steps[..n]);
    LastSection(s, k, id, pos);
  }

  /******* Unregistering during a move *******/

  /** The call, with the player unregistered after its first n sections. */
  function CutAt(k: nat, id: string, pos: Position, moves: bool, n: nat): (steps: seq<Step>)
    requires n < |Sections(k, id, pos, moves)|
  {
    Sections(k, id, pos, moves)[..n] + ([Manage(DoUnregister(id))] + Sections(k, id, pos, moves)[n..])
  }

  /** A run and a step and a run. */
  lemma RunThree(p: Policy, s: System, first: seq<Step>, step: Step, rest: seq<Step>)
    requires Legal(p, s, first) && Enabled(Reach(p, s, first), step) && Permits(p, Reach(p, s, first), step)
    requires Rooted(Reach(p, s, first)) && Legal(p, Advance(Reach(p, s, first), step), rest)
    ensures Legal(p, s, first + ([step] + rest))
    ensures Reach(p, s, first + ([step] + rest)) == Reach(p, Advance(Reach(p, s, first), step), rest)
  {
    RunCons(p, Reach(p, s, first), step, rest);
    RunConcat(p, s, first, [step] + rest);
  }

  lemma Leaves(p: Policy, s: System, id: string)
    requires Rooted(s) && p.unregisterInMove
    ensures var leave := Manage(DoUnregister(id));
            && Enabled(s, leave) && Permits(p, s, leave)
            && Advance(s, leave) == System(Unregister(s.m, id), s.calls) && Rooted(Advance(s, leave))
  {
    StepRooted(s, Manage(DoUnregister(id)));
  }

  /** The state after the section and the unregistering, and how a run goes on from it. */
  lemma CutStart(p: Policy, s: System, k: nat, id: string, pos: Position, n: nat) returns (u: System)
    requires Ready(p, s, k, id, pos) && p.unregisterInMove && 1 <= n <= 5
    requires n > 3 ==> Moves(s.m, s.m.players[id], pos)
    ensures var t := SystemAt(s, k, s.m.players[id], pos, n); Sound(t.m) && u == System(Unregister(t.m, id), t.calls)
    ensures Rooted(u)
    ensures forall rest :: Legal(p, u, rest) ==>
              var first := Sections(k, id, pos, Moves(s.m, s.m.players[id], pos))[..n];
              var steps := first + ([Manage(DoUnregister(id))] + rest);
              Legal(p, s, steps) && Reach(p, s, steps) == Reach(p, u, rest)
  {
    var first := Sections(k, id, pos, Moves(s.m, s.m.players[id], pos))[..n];
    UpTo(p, s, k, id, pos, n);
    EndRooted(p, s, first);
    var t := Reach(p, s, first);
    Leaves(p, t, id);
    u := Advance(t, Manage(DoUnregister(id)));
    forall rest | Legal(p, u, rest)
      ensures Legal(p, s, first + ([Manage(DoUnregister(id))] + rest))
      ensures Reach(p, s, first + ([Manage(DoUnregister(id))] + rest)) == Reach(p, u, rest)
    {
      RunThree(p, s, first, Manage(DoUnregister(id)), rest);
    }
  }

  lemma HeadingAt(m: Manager, id: string, pos: Position, n: nat)
    requires Sound(m) && id in m.players && m.objects[m.players[id]].id == id && 1 <= n <= 5
    requires Moves(m, m.players[id], pos)
    ensures var r := m.players[id];
            var u, stage := Unregister(ManagerAt(m, r, pos, n), id), StageAt(m, r, pos, n);
            && AtSection(stage, n) && Heading(u, stage, id, pos, CellOf(pos).value)
            && u.players == m.players - {id} && u.nextRef == m.nextRef && Names(u.objects) == Names(m.objects)
  {
  }

  /** The same, for a player who changes its cell, by what it means for the rest. */
  lemma CutHeading(p: Policy, s: System, k: nat, id: string, pos: Position, n: nat) returns (u: System)
    requires Ready(p, s, k, id, pos) && p.unregisterInMove && 1 <= n <= 5
    requires s.m.objects[s.m.players[id]].id == id && Moves(s.m, s.m.players[id], pos)
    ensures Rooted(u) && k in u.calls && u.calls - {k} == s.calls
    ensures AtSection(u.calls[k], n) && Heading(u.m, u.calls[k], id, pos, CellOf(pos).value)
    ensures u.m.players == s.m.players - {id} && u.m.nextRef == s.m.nextRef && Names(u.m.objects) == Names(s.m.objects)
    ensures forall rest :: Legal(p, u, rest) ==>
              var steps := Sections(k, id, pos, true)[..n] + ([Manage(DoUnregister(id))] + rest);
              Legal(p, s, steps) && Reach(p, s, steps) == Reach(p, u, rest)
  {
    u := CutStart(p, s, k, id, pos, n);
    HeadingAt(s.m, id, pos, n);
    assert s.calls[k := StageAt(s.m, s.m.players[id], pos, n)] - {k} == s.calls;
  }

  /** The player changes its cell: at whatever section it is unregistered, it is left behind. */
  lemma CutMoving(p: Policy, s: System, k: nat, id: string, pos: Position, n: nat)
    requires Ready(p, s, k, id, pos) && p.unregisterInMove && 1 <= n <= 5
    requires s.m.objects[s.m.players[id]].id == id && Moves(s.m, s.m.players[id], pos)
    ensures var steps, to := CutAt(k, id, pos, true, n), CellOf(pos).value;
            && Legal(p, s, steps)
            && var t := Reach(p, s, steps);
               && t.calls == s.calls && t.m.players == s.m.players - {id} && t.m.nextRef == s.m.nextRef
               && Names(t.m.objects) == Names(s.m.objects) && to in t.m.grids && id in t.m.grids[to].entities
  {
    var u := CutHeading(p, s, k, id, pos, n);
    EndsThere(p, u, k, id, pos, CellOf(pos).value, n);
  }

  /** What is left of the registration of a player who stays in its cell. */
  function Left(m: Manager, id: string, pos: Position, n: nat): (t: Manager)
    requires Sound(m) && id in m.players
  {
    var r := m.players[id];
    if n == 3 then Unregister(Stood(m, r, pos), id) else Stood(Unregister(m, id), r, pos)
  }

  /** The player stays in its cell: the unregistering takes it out. */
  lemma CutStaying(p: Policy, s: System, k: nat, id: string, pos: Position, n: nat)
    requires Ready(p, s, k, id, pos) && p.unregisterInMove && 1 <= n <= 3 && ARENA.Contains(pos.x, pos.z)
    requires CellOf(s.m.objects[s.m.players[id]].pos) == CellOf(pos)
    ensures var steps := CutAt(k, id, pos, false, n);
            Legal(p, s, steps) && Reach(p, s, steps) == System(Left(s.m, id, pos, n), s.calls)
  {
    var u := CutStill(p, s, k, id, pos, n);
    EndsStill(p, u, k, id, pos, n);
  }

  lemma CutStill(p: Policy, s: System, k: nat, id: string, pos: Position, n: nat) returns (u: System)
    requires Ready(p, s, k, id, pos) && p.unregisterInMove && 1 <= n <= 3
    requires CellOf(s.m.objects[s.m.players[id]].pos) == CellOf(pos)
    ensures Rooted(u) && k in u.calls && u.calls - {k} == s.calls
    ensures AtSection(u.calls[k], n) && Staying(u.m, u.calls[k], pos)
    ensures Left(s.m, id, pos, n) == if n == 3 then u.m else Stood(u.m, u.calls[k].r, pos)
    ensures forall rest :: Legal(p, u, rest) ==>
              var steps := Sections(k, id, pos, false)[..n] + ([Manage(DoUnregister(id))] + rest);
              Legal(p, s, steps) && Reach(p, s, steps) == Reach(p, u, rest)
  {
    u := CutStart(p, s, k, id, pos, n);
    assert s.calls[k := StageAt(s.m, s.m.players[id], pos, n)] - {k} == s.calls;
  }

  lemma StoodStranger(m: Manager, r: Ref, pos: Position)
    requires Consistent(m) && r in m.objects && forall i :: i in m.players ==> m.players[i] != r
    ensures Consistent(Stood(m, r, pos))
  {
    StrangerKeeps(ARENA, m.grids, m.objects, m.players, r, m.objects[r].(pos := pos));
    MoveAllocated(m.objects, r, pos, m.nextRef);
  }

  lemma StoodInCell(m: Manager, id: string, pos: Position)
    requires Consistent(m) && Sound(m) && id in m.players && ARENA.Contains(pos.x, pos.z)
    requires CellOf(m.objects[m.players[id]].pos) == CellOf(pos)
    ensures Consistent(Stood(m, m.players[id], pos)) && Sound(Stood(m, m.players[id], pos))
  {
    SectionsAreUpdate(m, id, pos);
    UpdatePositionIff(m, id, pos);
  }

  lemma LeftConsistent(m: Manager, id: string, pos: Position, n: nat)
    requires Consistent(m) && Sound(m) && id in m.players && ARENA.Contains(pos.x, pos.z)
    requires CellOf(m.objects[m.players[id]].pos) == CellOf(pos)
    ensures Consistent(Left(m, id, pos, n))
  {
    if n == 3 {
      StoodInCell(m, id, pos);
      PlayerState.UnregisterKeeps(Stood(m, m.players[id], pos), id);
    } else {
      PlayerState.UnregisterKeeps(m, id);
      GoneStranger(m, id);
      StoodStranger(Unregister(m, id), m.players[id], pos);
    }
  }

  lemma GoneStranger(m: Manager, id: string)
    requires Consistent(m) && Sound(m) && id in m.players
    ensures forall i :: i in Unregister(m, id).players ==> Unregister(m, id).players[i] != m.players[id]
  {
    forall i | i in m.players && i != id ensures m.players[i] != m.players[id] {
      assert m.objects[m.players[i]].id == i && m.objects[m.players[id]].id == id;
    }
  }

  lemma HasCell(m: Manager, id: string)
    requires Consistent(m) && id in m.players
    ensures m.players[id] in m.objects && m.objects[m.players[id]].id == id
    ensures CellOf(m.objects[m.players[id]].pos).Some?
  {
  }

  lemma LeftBehindBy(m: Manager, id: string, c: GridPos)
    requires c in m.grids && id in m.grids[c].entities && id !in m.players
    ensures !Consistent(m)
  {
    assert Consistent(m) ==> CellOk(m.grids[c], SceneOf(ARENA, m.objects, m.players), c);
  }

  /** A player unregistered during a move within the arena, after any of its sections, is
      left in the index exactly when the move takes it to another cell. */
  lemma UnregisteredInMoveIff(p: Policy, m: Manager, id: string, pos: Position, n: nat)
    requires Consistent(m) && Sound(m) && id in m.players && ARENA.Contains(pos.x, pos.z) && p.unregisterInMove
    requires 1 <= n <= if Moves(m, m.players[id], pos) then 5 else 3
    ensures var s, moves := System(m, map[]), Moves(m, m.players[id], pos);
            var steps := CutAt(0, id, pos, moves, n);
            && Legal(p, s, steps)
            && var t := Reach(p, s, steps);
               && t.calls == map[] && id !in t.m.players && (Consistent(t.m) <==> !moves)
               && (moves ==> Stray(t, id, CellOf(pos).value))
  {
    HasCell(m, id);
    CellInArena(pos);
    if Moves(m, m.players[id], pos) {
      LeftInMove(p, m, id, pos, n);
    } else {
      GoneInMove(p, m, id, pos, n);
    }
  }

  lemma GoneInMove(p: Policy, m: Manager, id: string, pos: Position, n: nat)
    requires Consistent(m) && Sound(m) && id in m.players && ARENA.Contains(pos.x, pos.z) && p.unregisterInMove
    requires 1 <= n <= 3 && CellOf(m.objects[m.players[id]].pos) == CellOf(pos)
    ensures var s, steps := System(m, map[]), CutAt(0, id, pos, false, n);
            && Legal(p, s, steps)
            && var t := Reach(p, s, steps); t.calls == map[] && id !in t.m.players && Consistent(t.m)
  {
    CutStaying(p, System(m, map[]), 0, id, pos, n);
    LeftConsistent(m, id, pos, n);
  }

  lemma LeftInMove(p: Policy, m: Manager, id: string, pos: Position, n: nat)
    requires Consistent(m) && Sound(m) && id in m.players && p.unregisterInMove && 1 <= n <= 5
    requires m.objects[m.players[id]].id == id && Moves(m, m.players[id], pos)
    ensures var s, steps := System(m, map[]), CutAt(0, id, pos, true, n);
            && Legal(p, s, steps)
            && var t := Reach(p, s, steps);
               t.calls == map[] && id !in t.m.players && !Consistent(t.m) && Stray(t, id, CellOf(pos).value)
  {
    CellInArena(pos);
    CutMoving(p, System(m, map[]), 0, id, pos, n);
    var t := Reach(p, System(m, map[]), CutAt(0, id, pos, true, n));
    LeftBehindBy(t.m, id, CellOf(pos).value);
    StrayFrom(m, t.m, id);
  }

  /******* What is left behind *******/

  /** Every registration is an object of its name, and no object has a number to come. */
  ghost predicate Named(m: Manager)
  {
    && (forall x :: x in m.players ==> m.players[x] in m.objects && m.objects[m.players[x]].id == x)
    && Allocated(m.objects, m.nextRef)
  }

  /** An entry of the cell `c` under an id that is not registered and that no call moves. */
  ghost predicate Stray(s: System, id: string, c: GridPos)
  {
    Named(s.m) && NotFor(s, id) && id !in s.m.players && c in s.m.grids && id in s.m.grids[c].entities
  }

  lemma StrayFrom(m: Manager, t: Manager, id: string)
    requires Consistent(m) && t.players == m.players - {id} && t.nextRef == m.nextRef
    requires Names(t.objects) == Names(m.objects)
    ensures Named(t)
  {
    forall r ensures r in t.objects <==> r in m.objects {
      assert r in Names(t.objects) <==> r in Names(m.objects);
    }
    forall x | x in t.players ensures t.players[x] in t.objects && t.objects[t.players[x]].id == x {
      assert Names(t.objects)[t.players[x]] == Names(m.objects)[t.players[x]];
    }
  }

  lemma StepNamed(s: System, step: Step)
    requires Rooted(s) && Enabled(s, step) && Named(s.m)
    ensures Named(Advance(s, step).m)
  {
  }

  ghost predicate NotFor(s: System, id: string)
  {
    forall k :: k in s.calls ==> s.calls[k].r in s.m.objects && s.m.objects[s.calls[k].r].id != id
  }

  lemma StepNotFor(s: System, step: Step, id: string)
    requires Rooted(s) && Enabled(s, step) && Named(s.m) && NotFor(s, id) && id !in s.m.players
    ensures NotFor(Advance(s, step), id)
  {
    if step.Manage? {
      ManagedNames(s.m, step.command);
    }
  }

  /** Objects keep their names. */
  lemma ManagedNames(m: Manager, command: Command)
    requires Sound(m) && Named(m) && !command.DoMove?
    ensures var t := PlayerState.Apply(m, command);
            forall r :: r in m.objects ==> r in t.objects && t.objects[r].id == m.objects[r].id
  {
  }

  lemma StepEntry(s: System, step: Step, id: string, c: GridPos)
    requires Rooted(s) && Enabled(s, step) && Stray(s, id, c) && step != Manage(DoRegister(id))
    ensures var t := Advance(s, step); id !in t.m.players && c in t.m.grids && id in t.m.grids[c].entities
  {
    if step.Manage? {
      ManagedEntry(s.m, step.command, id, c);
    }
  }

  lemma ManagedEntry(m: Manager, command: Command, id: string, c: GridPos)
    requires Sound(m) && Named(m) && id !in m.players && c in m.grids && id in m.grids[c].entities
    requires !command.DoMove? && command != DoRegister(id)
    ensures var t := PlayerState.Apply(m, command); id !in t.players && c in t.grids && id in t.grids[c].entities
  {
  }

  lemma StepStray(s: System, step: Step, id: string, c: GridPos)
    requires Rooted(s) && Enabled(s, step) && Stray(s, id, c) && step != Manage(DoRegister(id))
    ensures Stray(Advance(s, step), id, c)
  {
    StepNamed(s, step);
    StepNotFor(s, step, id);
    StepEntry(s, step, id, c);
  }

  /** It stays through every run in which the id is not registered again. */
  lemma {:induction false} StrayStays(p: Policy, s: System, steps: seq<Step>, id: string, c: GridPos)
    requires Legal(p, s, steps) && Stray(s, id, c) && Manage(DoRegister(id)) !in steps
    ensures Stray(Reach(p, s, steps), id, c)
    decreases |steps|
  {
    if steps != [] {
      StepStray(s, steps[0], id, c);
      StrayStays(p, Advance(s, steps[0]), steps[1..], id, c);
    }
  }

  /******* Two moves at once *******/

  /** The two critical sections of UpdateEntity, one after the other. */
  function Switched(m: Manager, r: Ref, from: GridPos, to: GridPos): (t: Manager)
    requires Grounded(m, Aimed(r, from, to))
  {
    Put(Taken(m, Aimed(r, from, to)), Out(r, to))
  }

  /** The rest of a call after its store, when its player has changed its cell. */
  lemma Finish(p: Policy, s: System, k: nat, to: GridPos) returns (steps: seq<Step>)
    requires Rooted(s) && k in s.calls && s.calls[k].Stored? && s.calls[k].before.Some?
    requires CellOf(s.m.objects[s.calls[k].r].pos) == Some(to) && s.calls[k].before != Some(to)
    ensures Grounded(s.m, Aimed(s.calls[k].r, s.calls[k].before.value, to))
    ensures Legal(p, s, steps)
    ensures Reach(p, s, steps) == System(Switched(s.m, s.calls[k].r, s.calls[k].before.value, to), s.calls - {k})
  {
    var r, from := s.calls[k].r, s.calls[k].before.value;
    assert Grounded(s.m, s.calls[k]);
    RunOne(p, s, Aim(k));
    var s1 := Advance(s, Aim(k));
    assert s1.calls[k] == Aimed(r, from, to);
    RunSnoc(p, s, [Aim(k)], TakeOut(k));
    var s2 := Advance(s1, TakeOut(k));
    RunSnoc(p, s, [Aim(k)] + [TakeOut(k)], PutIn(k));
    steps := [Aim(k)] + [TakeOut(k)] + [PutIn(k)];
    assert s2.calls - {k} == s.calls - {k};
  }

  /** Two calls for one player: both read the old position before either stores. */
  lemma BothLook(p: Policy, s: System, id: string, pos: Position) returns (steps: seq<Step>)
    requires Rooted(s) && s.calls == map[] && id in s.m.players && p.moveInMove && ARENA.Contains(pos.x, pos.z)
    ensures Legal(p, s, steps)
    ensures var known := Knows(s.m.players[id], CellOf(s.m.objects[s.m.players[id]].pos));
            Reach(p, s, steps) == System(s.m, map[0 := known, 1 := known])
  {
    var one := Sections(0, id, pos, Moves(s.m, s.m.players[id], pos))[..2];
    UpTo(p, s, 0, id, pos, 2);
    EndRooted(p, s, one);
    var t := Reach(p, s, one);
    var two := Sections(1, id, pos, Moves(t.m, t.m.players[id], pos))[..2];
    UpTo(p, t, 1, id, pos, 2);
    RunConcat(p, s, one, two);
    steps := one + two;
  }

  lemma BothStore(p: Policy, s: System, r: Ref, from: Option<GridPos>, first: Position, second: Position)
    requires Rooted(s) && s.calls == map[0 := Knows(r, from), 1 := Knows(r, from)]
    requires ARENA.Contains(first.x, first.z) && ARENA.Contains(second.x, second.z)
    ensures var steps := [Store(0, first)] + [Store(1, second)];
            && Legal(p, s, steps) && r in s.m.objects
            && Reach(p, s, steps) == System(Stood(s.m, r, second), map[0 := Stored(r, from), 1 := Stored(r, from)])
  {
    assert Grounded(s.m, s.calls[0]);
    RunOne(p, s, Store(0, first));
    RunSnoc(p, s, [Store(0, first)], Store(1, second));
    assert Stood(Stood(s.m, r, first), r, second) == Stood(s.m, r, second);
    assert s.calls[0 := Stored(r, from)][1 := Stored(r, from)] == map[0 := Stored(r, from), 1 := Stored(r, from)];
  }

  /** Both calls switch the player to the cell of the last position. */
  lemma BothFinish(p: Policy, s: System, r: Ref, a: GridPos, c: GridPos) returns (steps: seq<Step>)
    requires Rooted(s) && s.calls == map[0 := Stored(r, Some(a)), 1 := Stored(r, Some(a))]
    requires r in s.m.objects && CellOf(s.m.objects[r].pos) == Some(c) && a != c && c in s.m.grids
    ensures Grounded(s.m, Aimed(r, a, c)) && Grounded(Switched(s.m, r, a, c), Aimed(r, a, c))
    ensures Legal(p, s, steps) && Reach(p, s, steps) == System(Switched(Switched(s.m, r, a, c), r, a, c), map[])
  {
    TwoCalls(Stored(r, Some(a)));
    assert Grounded(s.m, s.calls[0]);
    SwitchedGrounded(s.m, r, a, c);
    var one := Finish(p, s, 0, c);
    EndRooted(p, s, one);
    var two := Finish(p, Reach(p, s, one), 1, c);
    RunConcat(p, s, one, two);
    steps := one + two;
  }

  lemma TwoCalls(x: Stage)
    ensures map[0 := x, 1 := x] - {0} == map[1 := x] && map[1 := x] - {1} == map[]
  {
  }

  lemma SwitchedGrounded(m: Manager, r: Ref, a: GridPos, c: GridPos)
    requires Grounded(m, Stored(r, Some(a))) && c in m.grids
    ensures Grounded(m, Aimed(r, a, c)) && Grounded(Switched(m, r, a, c), Aimed(r, a, c))
    ensures Switched(m, r, a, c).objects == m.objects
  {
  }

  lemma CountedTwice(m: Manager, r: Ref, a: GridPos, c: GridPos)
    requires Grounded(m, Aimed(r, a, c)) && a != c && m.objects[r].typeId == PLAYER
    ensures Switched(m, r, a, c).grids[c].playerCount == m.grids[c].playerCount + 1
    ensures Switched(Switched(m, r, a, c), r, a, c).grids[c].playerCount == m.grids[c].playerCount + 2
  {
  }

  /** The right table counts a player that moved into a cell once. */
  lemma TwiceIsWrong(m: Manager, id: string, pos: Position, t: Manager)
    requires Consistent(m) && Sound(m) && id in m.players && ARENA.Contains(pos.x, pos.z)
    requires Moves(m, m.players[id], pos) && m.objects[m.players[id]].typeId == PLAYER
    requires t.objects == MoveTo(m.objects, m.players[id], pos) && t.players == m.players
    requires CellOf(pos).value in t.grids && CellOf(pos).value in m.grids
    requires t.grids[CellOf(pos).value].playerCount == m.grids[CellOf(pos).value].playerCount + 2
    ensures !Consistent(t)
  {
    var r, u := m.players[id], UpdatePosition(m, id, pos);
    UpdatePositionIff(m, id, pos);
    SectionsAreUpdate(m, id, pos);
    CountedTwice(Stood(m, r, pos), r, CellOf(m.objects[r].pos).value, CellOf(pos).value);
    if Consistent(t) {
      OneIndex(t.grids, u.grids, t.objects, t.players);
    }
  }

  /** Two moves of one player that overlap count it twice in the cell of the last one, if
      that is not the cell it came from, although it never leaves the arena. */
  lemma MovedTwiceAtOnce(p: Policy, m: Manager, id: string, first: Position, second: Position)
    returns (steps: seq<Step>)
    requires Consistent(m) && Sound(m) && id in m.players && m.objects[m.players[id]].typeId == PLAYER && p.moveInMove
    requires ARENA.Contains(first.x, first.z) && ARENA.Contains(second.x, second.z)
    requires CellOf(second) != CellOf(m.objects[m.players[id]].pos)
    ensures Legal(p, System(m, map[]), steps)
    ensures var t, c := Reach(p, System(m, map[]), steps), CellOf(second);
            && t.calls == map[] && !Consistent(t.m)
            && c.Some? && c.value in m.grids && c.value in t.m.grids
            && t.m.grids[c.value].playerCount == m.grids[c.value].playerCount + 2
  {
    var r, s := m.players[id], System(m, map[]);
    HasCell(m, id);
    CellInArena(second);
    var a, c := CellOf(m.objects[r].pos).value, CellOf(second).value;
    var one := BothLook(p, s, id, second);
    EndRooted(p, s, one);
    BothStore(p, Reach(p, s, one), r, Some(a), first, second);
    var two := [Store(0, first)] + [Store(1, second)];
    RunConcat(p, s, one, two);
    EndRooted(p, s, one + two);
    var t := Reach(p, s, one + two);
    var three := BothFinish(p, t, r, a, c);
    RunConcat(p, s, one + two, three);
    steps := one + two + three;
    CountedTwice(t.m, r, a, c);
    TwiceIsWrong(m, id, second, Reach(p, t, three).m);
  }

  /******* Which overlaps callers must avoid *******/

  const SOMEBODY := "player"
  const FAR := Position(500.0, 0.0, 0.0)
  const NOWHERE := Position(-1.0, 0.0, 0.0)

  /** The registry with one player, at the spawn point. */
  function One(): (m: Manager)
  {
    Manager(map[SOMEBODY := 0], map[0 := NewPlayer(SOMEBODY)], map[SOMEBODY := []],
            Add(ARENA, Empty(ARENA).grids, 0, NewPlayer(SOMEBODY)), 1)
  }

  lemma OneRight()
    ensures Consistent(One()) && Sound(One()) && Rooted(Start())
    ensures Advance(Start(), Manage(DoRegister(SOMEBODY))) == System(One(), map[])
  {
    StartRight();
    RightRooted(Start(), SceneOf(ARENA, map[], map[]));
    SpawnInArena();
    EmptyIndexed(ARENA);
    PlayerState.RegisterKeeps(Initial(), SOMEBODY);
  }

  lemma FarApart()
    ensures ARENA.Contains(FAR.x, FAR.z) && !ARENA.Contains(NOWHERE.x, NOWHERE.z)
    ensures CellOf(SPAWN) == Some(GridPos(0, 0)) && CellOf(FAR) == Some(GridPos(10, 0))
  {
    assert ARENA.GridWidth() == 50.0;
  }

  /** What is wrong after a run from the first player on is wrong after a run. */
  lemma FromOne(p: Policy, steps: seq<Step>)
    requires Legal(p, System(One(), map[]), steps)
    ensures var all := [Manage(DoRegister(SOMEBODY))] + steps;
            Legal(p, Start(), all) && Reach(p, Start(), all) == Reach(p, System(One(), map[]), steps)
  {
    OneRight();
    RunCons(p, Start(), Manage(DoRegister(SOMEBODY)), steps);
  }

  /** A run that ends with no move half done and the index wrong. */
  ghost predicate GoesWrong(p: Policy, steps: seq<Step>)
  {
    Legal(p, Start(), steps) && Settled(Reach(p, Start(), steps)) && !Consistent(Reach(p, Start(), steps).m)
  }

  lemma WrongByUnregister(p: Policy) returns (steps: seq<Step>)
    requires p.unregisterInMove
    ensures GoesWrong(p, steps)
  {
    OneRight();
    FarApart();
    UnregisteredInMoveIff(p, One(), SOMEBODY, FAR, 3);
    FromOne(p, CutAt(0, SOMEBODY, FAR, true, 3));
    steps := [Manage(DoRegister(SOMEBODY))] + CutAt(0, SOMEBODY, FAR, true, 3);
  }

  lemma WrongByMove(p: Policy) returns (steps: seq<Step>)
    requires p.moveInMove
    ensures GoesWrong(p, steps)
  {
    OneRight();
    FarApart();
    var rest := MovedTwiceAtOnce(p, One(), SOMEBODY, FAR, FAR);
    FromOne(p, rest);
    steps := [Manage(DoRegister(SOMEBODY))] + rest;
  }

  lemma LeavesArena(p: Policy, s: System, id: string, pos: Position) returns (steps: seq<Step>)
    requires Rooted(s) && s.calls == map[] && Consistent(s.m) && id in s.m.players
    requires p.outside && !ARENA.Contains(pos.x, pos.z)
    ensures Legal(p, s, steps) && Reach(p, s, steps).calls == map[] && !Consistent(Reach(p, s, steps).m)
  {
    Uninterrupted(p, s, 0, id, pos);
    UpdatePositionIff(s.m, id, pos);
    steps := Sections(0, id, pos, Moves(s.m, s.m.players[id], pos));
  }

  lemma WrongByLeaving(p: Policy) returns (steps: seq<Step>)
    requires p.outside
    ensures GoesWrong(p, steps)
  {
    OneRight();
    FarApart();
    var s := System(One(), map[]);
    StepRooted(Start(), Manage(DoRegister(SOMEBODY)));
    var rest := LeavesArena(p, s, SOMEBODY, NOWHERE);
    FromOne(p, rest);
    steps := [Manage(DoRegister(SOMEBODY))] + rest;
  }

  /** What callers may do, exactly: every run that a policy permits leaves the index right
      whenever no move is half done, if and only if the policy forbids to unregister a
      player during a move of it, to move it again meanwhile, and to move it out of the
      arena. */
  lemma RightIffStrict(p: Policy)
    ensures p == STRICT <==> forall steps :: !GoesWrong(p, steps)
  {
    if p == STRICT {
      forall steps ensures !GoesWrong(p, steps) {
        if Legal(STRICT, Start(), steps) && Settled(Reach(STRICT, Start(), steps)) {
          InterleavedConsistent(steps);
        }
      }
    } else if p.unregisterInMove {
      var steps := WrongByUnregister(p);
    } else if p.moveInMove {
      var steps := WrongByMove(p);
    } else {
      var steps := WrongByLeaving(p);
    }
  }

  /** A player who moved out of the arena and was then unregistered is such an entry too. */
  lemma StrayOutside(m: Manager, id: string, pos: Position) returns (c: GridPos)
    requires Consistent(m) && Sound(m) && id in m.players && !ARENA.Contains(pos.x, pos.z)
    ensures Stray(System(Unregister(UpdatePosition(m, id, pos), id), map[]), id, c)
  {
    var t := Unregister(UpdatePosition(m, id, pos), id);
    LeftInIndex(m, id, pos);
    c :| c in t.grids && id in t.grids[c].entities;
    NamedOutside(m, id, pos);
  }

  lemma NamedOutside(m: Manager, id: string, pos: Position)
    requires Consistent(m) && Sound(m) && id in m.players && !ARENA.Contains(pos.x, pos.z)
    ensures Named(Unregister(UpdatePosition(m, id, pos), id))
  {
    UpdatedOutside(m, id, pos);
    MoveAllocated(m.objects, m.players[id], pos, m.nextRef);
    HasNames(m);
  }

  lemma HasNames(m: Manager)
    requires Consistent(m)
    ensures Named(m)
  {
  }
}
