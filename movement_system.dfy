/** src/systems/movement_system.rs: every actor that wants to move pays its
    move cost, and steps onto its destination unless the map blocks it there.
    Movers are handled one after another, so a cell taken by an earlier
    monster blocks a later one. */
module MovementSystem {
  import opened Components
  import opened Seqs
  import opened GameMap
  import opened Ecs

  /** The part of the world the system writes. */
  datatype MoveState = MoveState(
    scores: map<Entity, nat>,
    positions: map<Entity, Point>,
    viewsheds: map<Entity, Viewshed>,
    blocked: seq<bool>,
    playerPosition: Point)

  /** One iteration of the loop for entity e. The old cell is freed only when
      its index is in range; the system itself panics otherwise, and Run
      requires every mover to stand on a valid cell. */
  function Step(s: MoveState, e: Entity, dest: Point, speed: nat, isPlayer: bool, width: int, height: int): (r: MoveState)
    requires |s.blocked| == width * height && e in s.scores && e in s.positions && e in s.viewsheds
    ensures |r.blocked| == |s.blocked|
    ensures r.scores.Keys == s.scores.Keys && r.positions.Keys == s.positions.Keys && r.viewsheds.Keys == s.viewsheds.Keys
  {
    var scores := s.scores[e := s.scores[e] + speed];
    if CellBlocked(s.blocked, width, height, dest.x, dest.y) then s.(scores := scores)
    else
      var from := XyIdx(width, s.positions[e].x, s.positions[e].y);
      var to := XyIdx(width, dest.x, dest.y);
      var freed := if 0 <= from < |s.blocked| then s.blocked[from := false] else s.blocked;
      MoveState(
        scores,
        s.positions[e := dest],
        s.viewsheds[e := s.viewsheds[e].(dirty := true)],
        if isPlayer then freed else freed[to := true],
        if isPlayer then dest else s.playerPosition)
  }

  /** The state after the movers of `order` took their steps in that order. */
  function Moved(s: MoveState, order: seq<Entity>, wants: map<Entity, Point>, speeds: map<Entity, nat>,
                 players: set<Entity>, width: int, height: int): (r: MoveState)
    requires |s.blocked| == width * height
    requires forall e :: e in order ==> e in s.scores && e in s.positions && e in s.viewsheds && e in wants && e in speeds
    ensures |r.blocked| == |s.blocked|
    ensures r.scores.Keys == s.scores.Keys && r.positions.Keys == s.positions.Keys && r.viewsheds.Keys == s.viewsheds.Keys
  {
    if order == [] then s
    else
      var e := order[|order| - 1];
      Step(Moved(s, order[..|order| - 1], wants, speeds, players, width, height), e, wants[e], speeds[e], e in players, width, height)
  }

  /** A step into a blocked cell (or off the grid) changes nothing but the
      mover's score. A free step puts the mover on its destination, marks its
      view dirty and frees its old cell; a monster then blocks its new cell
      and the player instead carries the player position along. */
  lemma StepProperties(s: MoveState, e: Entity, dest: Point, speed: nat, isPlayer: bool, width: int, height: int)
    requires |s.blocked| == width * height && e in s.scores && e in s.positions && e in s.viewsheds
    requires IsValidIdx(width, height, s.positions[e].x, s.positions[e].y)
    ensures var r := Step(s, e, dest, speed, isPlayer, width, height);
      var from := XyIdx(width, s.positions[e].x, s.positions[e].y);
      var to := XyIdx(width, dest.x, dest.y);
      && r.scores[e] == s.scores[e] + speed
      && (forall x :: x in s.scores && x != e ==> r.scores[x] == s.scores[x])
      && (forall x :: x in s.positions && x != e ==> r.positions[x] == s.positions[x])
      && (forall x :: x in s.viewsheds && x != e ==> r.viewsheds[x] == s.viewsheds[x])
      && (CellBlocked(s.blocked, width, height, dest.x, dest.y) ==>
            r.positions == s.positions && r.viewsheds == s.viewsheds
            && r.blocked == s.blocked && r.playerPosition == s.playerPosition)
      && (!CellBlocked(s.blocked, width, height, dest.x, dest.y) ==>
            && IsValidIdx(width, height, dest.x, dest.y)
            && r.positions[e] == dest && r.viewsheds[e].dirty
            && r.viewsheds[e].visibleTiles == s.viewsheds[e].visibleTiles
            && (forall i :: 0 <= i < |s.blocked| && i != from && i != to ==> r.blocked[i] == s.blocked[i])
            && (to != from ==> !r.blocked[from])
            && (!isPlayer ==> r.blocked[to] && r.playerPosition == s.playerPosition)
            && (isPlayer ==> r.playerPosition == dest && (to != from ==> r.blocked[to] == s.blocked[to])))
  {
  }

  /** Over a whole run, every mover pays its speed exactly once, blocked or
      not, and the scores of other actors stay. */
  lemma {:induction false} MovedScores(s: MoveState, order: seq<Entity>, wants: map<Entity, Point>, speeds: map<Entity, nat>,
                                       players: set<Entity>, width: int, height: int)
    requires Distinct(order)
    requires |s.blocked| == width * height
    requires forall e :: e in order ==> e in s.scores && e in s.positions && e in s.viewsheds && e in wants && e in speeds
    ensures var r := Moved(s, order, wants, speeds, players, width, height);
      forall e :: e in s.scores ==> r.scores[e] == s.scores[e] + if e in order then speeds[e] else 0
  {
    if order != [] {
      var init := order[..|order| - 1];
      assert Distinct(init);
      MovedScores(s, init, wants, speeds, players, width, height);
      assert forall e :: e in order <==> e in init || e == order[|order| - 1];
    }
  }

  /** Entities that did not want to move keep their position and view, and
      each mover ends either where it stood or on its destination. */
  lemma {:induction false} MovedStayOrArrive(s: MoveState, order: seq<Entity>, wants: map<Entity, Point>, speeds: map<Entity, nat>,
                                             players: set<Entity>, width: int, height: int)
    requires Distinct(order)
    requires |s.blocked| == width * height
    requires forall e :: e in order ==> e in s.scores && e in s.positions && e in s.viewsheds && e in wants && e in speeds
    ensures var r := Moved(s, order, wants, speeds, players, width, height);
      && (forall e :: e in s.positions && e !in order ==> r.positions[e] == s.positions[e])
      && (forall e :: e in s.viewsheds && e !in order ==> r.viewsheds[e] == s.viewsheds[e])
      && (forall e :: e in order ==> r.positions[e] == s.positions[e] || r.positions[e] == wants[e])
  {
    if order != [] {
      var init := order[..|order| - 1];
      var last := order[|order| - 1];
      DistinctInit(order);
      MovedStayOrArrive(s, init, wants, speeds, players, width, height);
      var m := Moved(s, init, wants, speeds, players, width, height);
      var r := Step(m, last, wants[last], speeds[last], last in players, width, height);
      assert Moved(s, order, wants, speeds, players, width, height) == r;
      StepStayOrArrive(m, last, wants[last], speeds[last], last in players, width, height);
      assert last !in init;
      forall e | e in order
        ensures r.positions[e] == s.positions[e] || r.positions[e] == wants[e]
      {
        if e != last {
          assert e in init by {
            var k :| 0 <= k < |order| && order[k] == e;
            assert init[k] == e;
          }
        }
      }
    }
  }

  lemma DistinctInit(order: seq<Entity>)
    requires Distinct(order) && order != []
    ensures Distinct(order[..|order| - 1])
  {
  }

  /** One step moves only its mover, to its destination or nowhere, and
      touches only the mover's view. */
  lemma StepStayOrArrive(s: MoveState, e: Entity, dest: Point, speed: nat, isPlayer: bool, width: int, height: int)
    requires |s.blocked| == width * height && e in s.scores && e in s.positions && e in s.viewsheds
    ensures var r := Step(s, e, dest, speed, isPlayer, width, height);
      && (forall x :: x in s.positions && x != e ==> r.positions[x] == s.positions[x])
      && (forall x :: x in s.viewsheds && x != e ==> r.viewsheds[x] == s.viewsheds[x])
      && (r.positions[e] == s.positions[e] || r.positions[e] == dest)
  {
  }

  /** Two monsters on a 3 by 1 strip, at either end, both want the middle
      cell: the first in iteration order gets it and the second is left
      where it stood, though both pay for the move. */
  lemma SecondMonsterIsBlocked()
    ensures var v := Viewshed([], 8, false);
      var s := MoveState(map[1 := 0, 2 := 0], map[1 := Point(0, 0), 2 := Point(2, 0)], map[1 := v, 2 := v],
                         [true, false, true], Point(9, 9));
      var r := Moved(s, [1, 2], map[1 := Point(1, 0), 2 := Point(1, 0)], map[1 := 5, 2 := 5], {}, 3, 1);
      && r.positions == map[1 := Point(1, 0), 2 := Point(2, 0)]
      && r.scores == map[1 := 5, 2 := 5]
      && r.blocked == [false, true, true]
  {
    var v := Viewshed([], 8, false);
    var s := MoveState(map[1 := 0, 2 := 0], map[1 := Point(0, 0), 2 := Point(2, 0)], map[1 := v, 2 := v],
                       [true, false, true], Point(9, 9));
    var wants, speeds := map[1 := Point(1, 0), 2 := Point(1, 0)], map[1 := 5, 2 := 5];
    assert [1, 2][..1] == [1] && [1][..0] == [];
    assert Moved(s, [], wants, speeds, {}, 3, 1) == s;
    assert CellBlocked(s.blocked, 3, 1, 1, 0) == false;
    var s1 := Step(s, 1, Point(1, 0), 5, false, 3, 1);
    assert s1.blocked == [false, true, true];
    assert Moved(s, [1], wants, speeds, {}, 3, 1) == s1;
    assert CellBlocked(s1.blocked, 3, 1, 1, 0);
  }

  /** The body of the loop for one mover. */
  method MoveOne(s: MoveState, e: Entity, newPosition: Point, speed: nat, isPlayer: bool, width: int, height: int)
    returns (r: MoveState)
    requires |s.blocked| == width * height && e in s.scores && e in s.positions && e in s.viewsheds
    requires IsValidIdx(width, height, s.positions[e].x, s.positions[e].y)
    ensures r == Step(s, e, newPosition, speed, isPlayer, width, height)
    ensures forall x :: x in s.positions && x != e ==> r.positions[x] == s.positions[x]
  {
    var scores, positions, viewsheds, blocked, playerPosition := s.scores, s.positions, s.viewsheds, s.blocked, s.playerPosition;
    scores := scores[e := scores[e] + speed];
    if !CellBlocked(blocked, width, height, newPosition.x, newPosition.y) {
      var oldPositionIdx := XyIdx(width, positions[e].x, positions[e].y);
      var newPositionIdx := XyIdx(width, newPosition.x, newPosition.y);
      positions := positions[e := newPosition];
      viewsheds := viewsheds[e := viewsheds[e].(dirty := true)];
      blocked := blocked[oldPositionIdx := false];
      if !isPlayer {
        blocked := blocked[newPositionIdx := true];
      } else {
        playerPosition := newPosition;
      }
    }
    r := MoveState(scores, positions, viewsheds, blocked, playerPosition);
  }

  /** The loop of the system over the join order. */
  method MoveAll(s0: MoveState, order: seq<Entity>, wants: map<Entity, Point>, speeds: map<Entity, nat>,
                 players: set<Entity>, width: int, height: int) returns (r: MoveState)
    requires Distinct(order)
    requires |s0.blocked| == width * height
    requires forall e :: e in order ==> e in s0.scores && e in s0.positions && e in s0.viewsheds && e in wants && e in speeds
    requires forall e :: e in order ==> IsValidIdx(width, height, s0.positions[e].x, s0.positions[e].y)
    ensures r == Moved(s0, order, wants, speeds, players, width, height)
  {
    r := s0;
    var i := 0;
    while i < |order|
      invariant 0 <= i <= |order|
      invariant r == Moved(s0, order[..i], wants, speeds, players, width, height)
      invariant forall k :: i <= k < |order| ==> r.positions[order[k]] == s0.positions[order[k]]
    {
      var e := order[i];
      assert order[..i + 1][..i] == order[..i];
      r := MoveOne(r, e, wants[e], speeds[e], e in players, width, height);
      i := i + 1;
    }
    assert order[..i] == order;
  }

  /** The keys of the movement join: WantsToMove, TakesTurn, Position,
      Viewshed and CanMove. */
  function MoverKeys(wants: map<Entity, Point>, scores: map<Entity, nat>, positions: map<Entity, Point>,
                     viewsheds: map<Entity, Viewshed>, speeds: map<Entity, nat>): set<Entity> {
    wants.Keys * scores.Keys * positions.Keys * viewsheds.Keys * speeds.Keys
  }

  /** The system over a snapshot of the world: the join, then the loop. */
  method RunOn(alive: seq<Entity>, s0: MoveState, wants: map<Entity, Point>, speeds: map<Entity, nat>,
               players: set<Entity>, width: int, height: int) returns (r: MoveState)
    requires Distinct(alive)
    requires |s0.blocked| == width * height
    requires forall e :: e in Join(alive, MoverKeys(wants, s0.scores, s0.positions, s0.viewsheds, speeds)) ==>
      IsValidIdx(width, height, s0.positions[e].x, s0.positions[e].y)
    ensures r == Moved(s0, Join(alive, MoverKeys(wants, s0.scores, s0.positions, s0.viewsheds, speeds)), wants, speeds, players, width, height)
  {
    var keys := MoverKeys(wants, s0.scores, s0.positions, s0.viewsheds, speeds);
    var order := Join(alive, keys);
    JoinDistinct(alive, keys);
    r := MoveAll(s0, order, wants, speeds, players, width, height);
  }

  /** MovementSystem::run. Freeing the old cell indexes blocked[], so every
      live mover must stand on a valid cell. Afterwards no WantsToMove is
      left. */
  method Run(w: World)
    requires w.Valid()
    requires forall e :: e in Join(w.alive, MoverKeys(w.wantsToMove, w.takesTurn, w.positions, w.viewsheds, w.canMove)) ==>
      IsValidIdx(w.grid.width, w.grid.height, w.positions[e].x, w.positions[e].y)
    modifies w`takesTurn, w`positions, w`viewsheds, w`playerPosition, w`wantsToMove, w.grid`blocked
    ensures w.Valid()
    ensures MoveState(w.takesTurn, w.positions, w.viewsheds, w.grid.blocked, w.playerPosition)
      == Moved(MoveState(old(w.takesTurn), old(w.positions), old(w.viewsheds), old(w.grid.blocked), old(w.playerPosition)),
               Join(w.alive, MoverKeys(old(w.wantsToMove), old(w.takesTurn), old(w.positions), old(w.viewsheds), w.canMove)),
               old(w.wantsToMove), w.canMove, w.players, w.grid.width, w.grid.height)
    ensures w.wantsToMove == map[]
  {
    var alive, wants, speeds, players := w.alive, w.wantsToMove, w.canMove, w.players;
    var s0 := MoveState(w.takesTurn, w.positions, w.viewsheds, w.grid.blocked, w.playerPosition);
    var r := RunOn(alive, s0, wants, speeds, players, w.grid.width, w.grid.height);
    w.takesTurn, w.positions, w.viewsheds, w.playerPosition := r.scores, r.positions, r.viewsheds, r.playerPosition;
    w.grid.blocked := r.blocked;
    w.wantsToMove := map[];
    assert s0 == MoveState(old(w.takesTurn), old(w.positions), old(w.viewsheds), old(w.grid.blocked), old(w.playerPosition));
    assert alive == w.alive && speeds == w.canMove && players == w.players && wants == old(w.wantsToMove);
    assert r == MoveState(w.takesTurn, w.positions, w.viewsheds, w.grid.blocked, w.playerPosition);
    assert w.grid.Valid() && w.log.Valid() && Distinct(w.alive);
  }
}
