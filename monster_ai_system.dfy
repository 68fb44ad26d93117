/** src/systems/monster_ai_system.rs: every monster whose turn it is posts
    exactly one intent. A confused monster waits; one next to the player
    attacks it; one that sees the player walks the first step of a path
    towards it; any other wanders at random. The path search
    (rltk::a_star_search over the map) and the die rolls are parameters:
    `path(from, to)` is the search result between two cell indices and
    `dice(k, sides)` is the k-th roll of the game's generator. */
module MonsterAiSystem {
  import opened Components
  import opened Seqs
  import opened GameMap
  import opened Ecs

  /** rltk::NavigationPath: whether the search succeeded, and its cell
      indices from start to goal. */
  datatype NavigationPath = NavigationPath(success: bool, steps: seq<int>)

  /** The one intent a monster posts. A bare WantsToWait posted for a
      confused monster has cause Confusion, any other has cause Choice. */
  datatype Decision = Wait(cause: WaitCause) | Melee(target: Entity) | MoveTo(destination: Point)

  /** DistanceAlg::Pythagoras below 1.01 on integer points: the square of
      the distance is 0 or 1 (a diagonal neighbour is at 1.41). */
  predicate Adjacent(a: Point, b: Point) {
    (a.x - b.x) * (a.x - b.x) + (a.y - b.y) * (a.y - b.y) <= 1
  }

  /** The step of a random walk for a roll of the four-sided die. */
  function WanderDelta(roll: int): Point {
    if roll == 1 then Point(1, 0)
    else if roll == 2 then Point(-1, 0)
    else if roll == 3 then Point(0, 1)
    else if roll == 4 then Point(0, -1)
    else Point(0, 0)
  }

  /** Whether a decision takes the path step, for which index_to_point2d
      divides by the map width. */
  predicate TakesPathStep(confused: bool, pos: Point, playerPos: Point, inView: bool, path: NavigationPath) {
    !confused && !Adjacent(pos, playerPos) && inView && path.success && |path.steps| > 1
  }

  /** The decision of one monster at pos; roll4 and roll7 are the two rolls
      a wandering monster makes. */
  function Decide(confused: bool, pos: Point, playerPos: Point, player: Entity, inView: bool, path: NavigationPath,
                  roll4: int, roll7: int, width: int): Decision
    requires TakesPathStep(confused, pos, playerPos, inView, path) ==> width != 0
  {
    if confused then Wait(Confusion)
    else if Adjacent(pos, playerPos) then Melee(player)
    else if inView then
      (if path.success && |path.steps| > 1 then MoveTo(IndexToPoint2d(width, path.steps[1])) else Wait(Choice))
    else
      var delta := WanderDelta(roll4);
      if roll7 > 1 then MoveTo(Point(pos.x + delta.x, pos.y + delta.y)) else Wait(Choice)
  }

  /** Whether a decision wanders, and so uses two rolls. */
  predicate Wanders(confused: bool, pos: Point, playerPos: Point, inView: bool) {
    !confused && !Adjacent(pos, playerPos) && !inView
  }

  /** A confused monster only waits; a monster next to the player always
      attacks the player, whatever it sees or rolls; a monster that sees
      the player never wanders off at random: it waits or takes its path's
      second cell. A wandering monster moves by at most one cell along an
      axis, and waits exactly when the seven-sided die shows 1 or less. */
  lemma DecideProperties(confused: bool, pos: Point, playerPos: Point, player: Entity, inView: bool, path: NavigationPath,
                         roll4: int, roll7: int, width: int)
    requires TakesPathStep(confused, pos, playerPos, inView, path) ==> width != 0
    ensures var d := Decide(confused, pos, playerPos, player, inView, path, roll4, roll7, width);
      && (confused <==> d == Wait(Confusion))
      && (!confused && Adjacent(pos, playerPos) ==> d == Melee(player))
      && (d.Melee? ==> d.target == player && Adjacent(pos, playerPos))
      && (!confused && !Adjacent(pos, playerPos) && inView ==>
            d == (if path.success && |path.steps| > 1 then MoveTo(IndexToPoint2d(width, path.steps[1])) else Wait(Choice)))
      && (Wanders(confused, pos, playerPos, inView) ==>
            && (d.Wait? <==> roll7 <= 1)
            && (d.MoveTo? ==> (d.destination.x - pos.x) * (d.destination.x - pos.x)
                                + (d.destination.y - pos.y) * (d.destination.y - pos.y) <= 1)
            && (d.MoveTo? && 1 <= roll4 <= 4 ==> d.destination != pos))
  {
  }

  /** A monster on a diagonal next to the player is not adjacent; one on
      a side is. */
  lemma DiagonalIsNotAdjacent()
    ensures !Adjacent(Point(3, 3), Point(4, 4)) && Adjacent(Point(3, 3), Point(3, 4)) && Adjacent(Point(3, 3), Point(3, 3))
  {
  }

  /** A path step whose cell index lies on the map leads to the in-bounds
      point with that index. */
  lemma PathStepIsOnMap(confused: bool, pos: Point, playerPos: Point, player: Entity, path: NavigationPath,
                        roll4: int, roll7: int, width: int, height: int)
    requires TakesPathStep(confused, pos, playerPos, true, path) && width > 0
    requires 0 <= path.steps[1] < width * height
    ensures var d := Decide(confused, pos, playerPos, player, true, path, roll4, roll7, width);
      d.MoveTo? && InBounds(width, height, d.destination) && Point2dToIndex(width, d.destination) == path.steps[1]
  {
    PointRoundTrip(width, height, path.steps[1]);
  }

  /** The intent storages the system writes, and how many rolls the
      generator has made. */
  datatype AiState = AiState(melee: map<Entity, Entity>, moves: map<Entity, Point>, waits: map<Entity, WaitCause>, rolls: nat)

  /** What the system reads about the monsters. */
  datatype AiEnv = AiEnv(positions: map<Entity, Point>, viewsheds: map<Entity, Viewshed>, confused: set<Entity>,
                         player: Entity, playerPos: Point, width: int,
                         path: (int, int) -> NavigationPath, dice: (nat, int) -> int)

  /** The search the system runs for a monster at pos. */
  function PathFrom(env: AiEnv, pos: Point): NavigationPath {
    env.path(XyIdx(env.width, pos.x, pos.y), Point2dToIndex(env.width, env.playerPos))
  }

  /** Monster e can decide: it has a position and a viewshed, and the width
      is not zero if it takes a path step. */
  predicate CanDecide(env: AiEnv, e: Entity) {
    && e in env.positions && e in env.viewsheds
    && var pos, sees := env.positions[e], env.playerPos in env.viewsheds[e].visibleTiles;
      TakesPathStep(e in env.confused, pos, env.playerPos, sees, PathFrom(env, pos)) ==> env.width != 0
  }

  /** Monster e's decision, with the rolls at the generator's count. */
  function DecisionOf(env: AiEnv, s: AiState, e: Entity): Decision
    requires CanDecide(env, e)
  {
    var pos := env.positions[e];
    Decide(e in env.confused, pos, env.playerPos, env.player, env.playerPos in env.viewsheds[e].visibleTiles,
           PathFrom(env, pos), env.dice(s.rolls, 4), env.dice(s.rolls + 1, 7), env.width)
  }

  /** One iteration: the decision goes into its storage, replacing what
      the monster held there. */
  function Step(env: AiEnv, s: AiState, e: Entity): AiState
    requires CanDecide(env, e)
  {
    var pos := env.positions[e];
    var used := if Wanders(e in env.confused, pos, env.playerPos, env.playerPos in env.viewsheds[e].visibleTiles) then 2 else 0;
    match DecisionOf(env, s, e)
    case Wait(cause) => s.(waits := s.waits[e := cause], rolls := s.rolls + used)
    case Melee(target) => s.(melee := s.melee[e := target], rolls := s.rolls + used)
    case MoveTo(dest) => s.(moves := s.moves[e := dest], rolls := s.rolls + used)
  }

  /** The state after the monsters of `order` decided in that order. */
  function Decided(env: AiEnv, s: AiState, order: seq<Entity>): AiState
    requires forall e :: e in order ==> CanDecide(env, e)
  {
    if order == [] then s
    else
      var e := order[|order| - 1];
      Step(env, Decided(env, s, order[..|order| - 1]), e)
  }

  /** A step posts its decision in exactly one storage and touches nothing
      else; only a wandering monster rolls, and it rolls twice. */
  lemma StepProperties(env: AiEnv, s: AiState, e: Entity)
    requires CanDecide(env, e)
    ensures var r := Step(env, s, e);
      var d := DecisionOf(env, s, e);
      && (d.Wait? ==> r.waits == s.waits[e := d.cause] && r.melee == s.melee && r.moves == s.moves)
      && (d.Melee? ==> r.melee == s.melee[e := d.target] && r.waits == s.waits && r.moves == s.moves)
      && (d.MoveTo? ==> r.moves == s.moves[e := d.destination] && r.waits == s.waits && r.melee == s.melee)
      && r.rolls == s.rolls + (if Wanders(e in env.confused, env.positions[e], env.playerPos,
                                          env.playerPos in env.viewsheds[e].visibleTiles) then 2 else 0)
  {
  }

  /** After a run every monster of `order` holds at least one intent, the
      entries of everyone else are unchanged, the generator never goes
      back, and each storage only gains keys. */
  lemma {:induction false} DecidedProperties(env: AiEnv, s: AiState, order: seq<Entity>)
    requires forall e :: e in order ==> CanDecide(env, e)
    ensures var r := Decided(env, s, order);
      && (forall e :: e in order ==> e in r.melee || e in r.moves || e in r.waits)
      && (forall e :: e in s.melee && e !in order ==> e in r.melee && r.melee[e] == s.melee[e])
      && (forall e :: e in s.moves && e !in order ==> e in r.moves && r.moves[e] == s.moves[e])
      && (forall e :: e in s.waits && e !in order ==> e in r.waits && r.waits[e] == s.waits[e])
      && r.melee.Keys <= s.melee.Keys + Elems(order)
      && r.moves.Keys <= s.moves.Keys + Elems(order)
      && r.waits.Keys <= s.waits.Keys + Elems(order)
      && s.melee.Keys <= r.melee.Keys && s.moves.Keys <= r.moves.Keys && s.waits.Keys <= r.waits.Keys
      && s.rolls <= r.rolls <= s.rolls + 2 * |order|
  {
    if order != [] {
      var init, e := order[..|order| - 1], order[|order| - 1];
      assert forall x :: x in order <==> x in init || x == e;
      DecidedProperties(env, s, init);
      StepProperties(env, Decided(env, s, init), e);
    }
  }

  /** A confused monster waits, one beside the player attacks it, and a
      monster far away with no sight of the player wanders on a roll of 2
      or more. */
  lemma ThreeMonsters()
    ensures var env := AiEnv(map[1 := Point(5, 5), 2 := Point(4, 5), 3 := Point(9, 9)],
                             map[1 := Viewshed([], 8, false), 2 := Viewshed([], 8, false), 3 := Viewshed([], 8, false)],
                             {1}, 7, Point(5, 5), 10, (a: int, b: int) => NavigationPath(false, []), (k: nat, n: int) => 3);
      Decided(env, AiState(map[], map[], map[], 0), [1, 2, 3])
        == AiState(map[2 := 7], map[3 := Point(9, 10)], map[1 := Confusion], 2)
  {
    var env := AiEnv(map[1 := Point(5, 5), 2 := Point(4, 5), 3 := Point(9, 9)],
                     map[1 := Viewshed([], 8, false), 2 := Viewshed([], 8, false), 3 := Viewshed([], 8, false)],
                     {1}, 7, Point(5, 5), 10, (a: int, b: int) => NavigationPath(false, []), (k: nat, n: int) => 3);
    var s0 := AiState(map[], map[], map[], 0);
    assert [1, 2, 3][..2] == [1, 2] && [1, 2][..1] == [1] && [1][..0] == [];
    var s1 := Decided(env, s0, [1]);
    assert s1 == AiState(map[], map[], map[1 := Confusion], 0);
    var s2 := Decided(env, s0, [1, 2]);
    assert s2 == AiState(map[2 := 7], map[], map[1 := Confusion], 0);
    assert Decided(env, s0, [1, 2, 3]) == Step(env, s2, 3);
  }

  /** The body of the loop for one monster. */
  method DecideOne(env: AiEnv, s: AiState, e: Entity) returns (r: AiState)
    requires CanDecide(env, e)
    ensures r == Step(env, s, e)
  {
    r := s;
    var position := env.positions[e];
    if e in env.confused {
      r := r.(waits := r.waits[e := Confusion]);
      return;
    }
    if Adjacent(position, env.playerPos) {
      r := r.(melee := r.melee[e := env.player]);
    } else if env.playerPos in env.viewsheds[e].visibleTiles {
      var monsterIdx := XyIdx(env.width, position.x, position.y);
      var path := env.path(monsterIdx, Point2dToIndex(env.width, env.playerPos));
      if path.success && |path.steps| > 1 {
        var firstStep := IndexToPoint2d(env.width, path.steps[1]);
        r := r.(moves := r.moves[e := firstStep]);
      } else {
        r := r.(waits := r.waits[e := Choice]);
      }
    } else {
      var delta := WanderDelta(env.dice(r.rolls, 4));
      var nextStep := Point(position.x + delta.x, position.y + delta.y);
      var roll := env.dice(r.rolls + 1, 7);
      r := r.(rolls := r.rolls + 2);
      if roll > 1 {
        r := r.(moves := r.moves[e := nextStep]);
      } else {
        r := r.(waits := r.waits[e := Choice]);
      }
    }
  }

  /** The loop of the system over the join order. */
  method DecideAll(env: AiEnv, s0: AiState, order: seq<Entity>) returns (r: AiState)
    requires forall e :: e in order ==> CanDecide(env, e)
    ensures r == Decided(env, s0, order)
  {
    r := s0;
    var i := 0;
    while i < |order|
      invariant 0 <= i <= |order|
      invariant r == Decided(env, s0, order[..i])
    {
      assert order[i] in order;
      assert order[..i + 1][..i] == order[..i];
      r := DecideOne(env, r, order[i]);
      i := i + 1;
    }
    assert order[..i] == order;
  }

  /** The keys of the join: Monster, Position, WantsToTakeTurn and
      Viewshed. */
  function ActorKeys(monsters: set<Entity>, positions: map<Entity, Point>, turns: set<Entity>, viewsheds: map<Entity, Viewshed>): set<Entity> {
    monsters * positions.Keys * turns * viewsheds.Keys
  }

  /** What the system reads of the world. */
  function EnvOf(w: World, path: (int, int) -> NavigationPath, dice: (nat, int) -> int): AiEnv
    reads w
  {
    AiEnv(w.positions, w.viewsheds, w.confusion.Keys, w.playerEntity, w.playerPosition, w.grid.width, path, dice)
  }

  /** MonsterAI::run. `rolls` is how many rolls the generator had made
      before; the new count is returned. Positions and the map are only
      read. */
  method Run(w: World, path: (int, int) -> NavigationPath, dice: (nat, int) -> int, rolls: nat) returns (newRolls: nat)
    requires w.Valid()
    requires forall e :: e in Join(w.alive, ActorKeys(w.monsters, w.positions, w.wantsToTakeTurn, w.viewsheds)) ==>
      CanDecide(EnvOf(w, path, dice), e)
    modifies w`wantsToMelee, w`wantsToMove, w`wantsToWait
    ensures w.Valid()
    ensures var r := old(Decided(EnvOf(w, path, dice), AiState(w.wantsToMelee, w.wantsToMove, w.wantsToWait, rolls),
                                 Join(w.alive, ActorKeys(w.monsters, w.positions, w.wantsToTakeTurn, w.viewsheds))));
      AiState(w.wantsToMelee, w.wantsToMove, w.wantsToWait, newRolls) == r
  {
    var env := EnvOf(w, path, dice);
    var order := Join(w.alive, ActorKeys(w.monsters, w.positions, w.wantsToTakeTurn, w.viewsheds));
    var r := DecideAll(env, AiState(w.wantsToMelee, w.wantsToMove, w.wantsToWait, rolls), order);
    w.wantsToMelee, w.wantsToMove, w.wantsToWait := r.melee, r.moves, r.waits;
    newRolls := r.rolls;
    assert w.grid.Valid() && w.log.Valid() && Distinct(w.alive);
  }
}
