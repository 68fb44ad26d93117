/** src/player.rs: the player's key press becomes an intent on the player
    entity (move, attack, pick up, wait), a scroll of the log, or a change of
    screen, and decides the next run state. */
module Player {
  import opened Components
  import opened Seqs
  import opened GameMap
  import opened GameLogs
  import opened RunStates
  import opened Ecs

  /** The keys player_input distinguishes; every other key is Other. */
  datatype Key = Left | Right | Up | Down | H | L | J | K | G | I | D | W | PageUp | PageDown | Other(code: int)

  /** What a key press asks for. */
  datatype Command =
    | NoKey
    | TryMove(dx: int, dy: int)
    | GetItem
    | OpenInventory
    | OpenDropMenu
    | WaitTurn
    | Scroll(delta: int)
    | Unmapped

  /** The match of player_input on the key. */
  function CommandOf(key: Option<Key>): (c: Command)
    ensures c.TryMove? ==> c.dx * c.dx + c.dy * c.dy == 1
  {
    match key
    case None => NoKey
    case Some(k) =>
      match k
      case Left => TryMove(-1, 0)
      case H => TryMove(-1, 0)
      case Right => TryMove(1, 0)
      case L => TryMove(1, 0)
      case Up => TryMove(0, -1)
      case J => TryMove(0, -1)
      case Down => TryMove(0, 1)
      case K => TryMove(0, 1)
      case G => GetItem
      case I => OpenInventory
      case D => OpenDropMenu
      case W => WaitTurn
      case PageUp => Scroll(1)
      case PageDown => Scroll(-1)
      case Other(_) => Unmapped
  }

  /** The run state player_input returns for a command. */
  function NextState(c: Command): RunState {
    match c
    case TryMove(_, _) => PlayerTurn
    case GetItem => PlayerTurn
    case WaitTurn => PlayerTurn
    case OpenInventory => RunState.ShowInventory
    case OpenDropMenu => RunState.ShowDropItem
    case _ => AwaitingInput
  }

  /** No key, an unmapped key and a scroll keep waiting for input; I and
      D open the inventory and drop screens; the move keys, G and W end
      the player's input with a player turn. Left and H move west, Right
      and L east, Up and J north (y - 1), Down and K south; PageUp scrolls
      the log by +1 and PageDown by -1. */
  lemma KeyMapping(key: Option<Key>)
    ensures var c := CommandOf(key);
      && (NextState(c) == AwaitingInput <==> c.NoKey? || c.Unmapped? || c.Scroll?)
      && (NextState(c) == PlayerTurn <==> c.TryMove? || c.GetItem? || c.WaitTurn?)
      && (NextState(c) == RunState.ShowInventory <==> key == Some(I))
      && (NextState(c) == RunState.ShowDropItem <==> key == Some(D))
      && (key == None ==> NextState(c) == AwaitingInput)
      && (key == Some(Left) || key == Some(H) <==> c == TryMove(-1, 0))
      && (key == Some(Right) || key == Some(L) <==> c == TryMove(1, 0))
      && (key == Some(Up) || key == Some(J) <==> c == TryMove(0, -1))
      && (key == Some(Down) || key == Some(K) <==> c == TryMove(0, 1))
      && (key == Some(PageUp) <==> c == Scroll(1))
      && (key == Some(PageDown) <==> c == Scroll(-1))
      && (key == Some(G) <==> c == GetItem)
      && (key == Some(W) <==> c == WaitTurn)
  {
  }

  /** The first entity of a cell's content that is alive and holds
      CombatStats. */
  function FirstFighter(content: seq<Entity>, fighters: set<Entity>): (r: Option<Entity>)
    ensures r.Some? <==> exists k :: 0 <= k < |content| && content[k] in fighters
    ensures r.Some? ==> exists k :: 0 <= k < |content| && content[k] == r.value && r.value in fighters
                          && forall j :: 0 <= j < k ==> content[j] !in fighters
  {
    if content == [] then None
    else if content[0] in fighters then Some(content[0])
    else
      var r := FirstFighter(content[1..], fighters);
      assert forall k :: 1 <= k < |content| ==> content[k] == content[1..][k - 1];
      if r.Some? then
        var k :| 0 <= k < |content[1..]| && content[1..][k] == r.value && r.value in fighters
                  && forall j :: 0 <= j < k ==> content[1..][j] !in fighters;
        assert content[k + 1] == r.value;
        assert forall j :: 0 <= j < k + 1 ==> content[j] !in fighters by {
          forall j | 0 <= j < k + 1 ensures content[j] !in fighters {
            if j > 0 { assert content[j] == content[1..][j - 1]; }
          }
        }
        r
      else r
  }

  /** What try_move_player does for one player entity. */
  datatype MoveOutcome = OffGrid | Attack(target: Entity) | Walk(destination: Point)

  /** The player's grid, fighters and storages as try_move_player reads
      them. */
  datatype MoveEnv = MoveEnv(positions: map<Entity, Point>, fighters: set<Entity>, tileContent: seq<seq<Entity>>,
                             width: int, height: int)

  predicate MoveEnvOk(env: MoveEnv) {
    0 <= env.width * env.height && |env.tileContent| == env.width * env.height
  }

  /** The outcome for a player at pos moving by (dx, dy): nothing through an
      invalid index, an attack on the first live fighter in the target cell,
      otherwise a move there. */
  function Outcome(env: MoveEnv, pos: Point, dx: int, dy: int): MoveOutcome
    requires MoveEnvOk(env)
  {
    var x, y := pos.x + dx, pos.y + dy;
    if !IsValidIdx(env.width, env.height, x, y) then OffGrid
    else
      match FirstFighter(env.tileContent[XyIdx(env.width, x, y)], env.fighters)
      case Some(t) => Attack(t)
      case None => Walk(Point(x, y))
  }

  /** The intent storages try_move_player writes. */
  datatype Intents = Intents(melee: map<Entity, Entity>, moves: map<Entity, Point>)

  /** The intents after the players of `order` tried to move, one after
      the other; an invalid index or an attack returns from the whole
      function, so no later player is handled. */
  function PlayerMoves(env: MoveEnv, s: Intents, order: seq<Entity>, dx: int, dy: int): Intents
    requires MoveEnvOk(env)
    requires forall e :: e in order ==> e in env.positions
    decreases |order|
  {
    if order == [] then s
    else
      var e := order[0];
      match Outcome(env, env.positions[e], dx, dy)
      case OffGrid => s
      case Attack(t) => s.(melee := s.melee[e := t])
      case Walk(d) => PlayerMoves(env, s.(moves := s.moves[e := d]), order[1..], dx, dy)
  }

  /** For the only player: an invalid target index posts no intent; a
      target cell holding a live fighter posts exactly one WantsToMelee,
      on the first such entity, and no move; otherwise exactly one
      WantsToMove, to the target point. */
  lemma OnePlayerMoves(env: MoveEnv, s: Intents, e: Entity, dx: int, dy: int)
    requires MoveEnvOk(env) && e in env.positions
    ensures var p := env.positions[e];
      var x, y := p.x + dx, p.y + dy;
      var r := PlayerMoves(env, s, [e], dx, dy);
      && (!IsValidIdx(env.width, env.height, x, y) ==> r == s)
      && (IsValidIdx(env.width, env.height, x, y) ==>
            var content := env.tileContent[XyIdx(env.width, x, y)];
            && ((exists k :: 0 <= k < |content| && content[k] in env.fighters) ==>
                  && r.moves == s.moves && r.melee.Keys == s.melee.Keys + {e}
                  && (forall o :: o in s.melee && o != e ==> r.melee[o] == s.melee[o])
                  && exists k :: 0 <= k < |content| && r.melee[e] == content[k] && content[k] in env.fighters
                       && forall j :: 0 <= j < k ==> content[j] !in env.fighters)
            && ((forall k :: 0 <= k < |content| ==> content[k] !in env.fighters) ==>
                  r.melee == s.melee && r.moves == s.moves[e := Point(x, y)]))
  {
    assert [e][1..] == [];
  }

  /** The body of try_move_player's loop for one player; `stop` is its
      early return. */
  method MoveOne(env: MoveEnv, s: Intents, e: Entity, dx: int, dy: int) returns (r: Intents, stop: bool)
    requires MoveEnvOk(env) && e in env.positions
    ensures var o := Outcome(env, env.positions[e], dx, dy);
      && stop == !o.Walk?
      && r == match o case OffGrid => s case Attack(t) => s.(melee := s.melee[e := t]) case Walk(d) => s.(moves := s.moves[e := d])
  {
    r, stop := s, true;
    var pos := env.positions[e];
    var newX, newY := pos.x + dx, pos.y + dy;
    var newIdx := XyIdx(env.width, newX, newY);
    if !(0 <= newIdx < env.width * env.height) {
      return;
    }
    var potentialTargets := env.tileContent[newIdx];
    var k := 0;
    while k < |potentialTargets|
      invariant 0 <= k <= |potentialTargets|
      invariant FirstFighter(potentialTargets, env.fighters) == FirstFighter(potentialTargets[k..], env.fighters)
    {
      var potentialTarget := potentialTargets[k];
      if potentialTarget in env.fighters {
        r := s.(melee := s.melee[e := potentialTarget]);
        return;
      }
      assert potentialTargets[k..][1..] == potentialTargets[k + 1..];
      k := k + 1;
    }
    r, stop := s.(moves := s.moves[e := Point(newX, newY)]), false;
  }

  /** The loop of try_move_player over the players. */
  method MoveAll(env: MoveEnv, s0: Intents, order: seq<Entity>, dx: int, dy: int) returns (r: Intents)
    requires MoveEnvOk(env)
    requires forall e :: e in order ==> e in env.positions
    ensures r == PlayerMoves(env, s0, order, dx, dy)
  {
    r := s0;
    var i := 0;
    while i < |order|
      invariant 0 <= i <= |order|
      invariant PlayerMoves(env, r, order[i..], dx, dy) == PlayerMoves(env, s0, order, dx, dy)
    {
      assert order[i] in order;
      assert order[i..][1..] == order[i + 1..];
      var stop;
      r, stop := MoveOne(env, r, order[i], dx, dy);
      if stop {
        return;
      }
      i := i + 1;
    }
  }

  /** try_move_player. The fighters are the live entities with CombatStats,
      as the storage lookup only answers for live entities. */
  method TryMovePlayer(w: World, dx: int, dy: int)
    requires w.Valid()
    modifies w`wantsToMelee, w`wantsToMove
    ensures w.Valid()
    ensures Intents(w.wantsToMelee, w.wantsToMove)
      == old(PlayerMoves(MoveEnv(w.positions, Elems(w.alive) * w.combatStats.Keys, w.grid.tileContent, w.grid.width, w.grid.height),
                         Intents(w.wantsToMelee, w.wantsToMove), Join(w.alive, w.players * w.positions.Keys), dx, dy))
  {
    var env := MoveEnv(w.positions, Elems(w.alive) * w.combatStats.Keys, w.grid.tileContent, w.grid.width, w.grid.height);
    var order := Join(w.alive, w.players * w.positions.Keys);
    var r := MoveAll(env, Intents(w.wantsToMelee, w.wantsToMove), order, dx, dy);
    w.wantsToMelee, w.wantsToMove := r.melee, r.moves;
    assert w.grid.Valid() && w.log.Valid() && Distinct(w.alive);
  }

  /** The first entity of `order` that is an item lying at point p. */
  function FirstItemAt(order: seq<Entity>, items: set<Entity>, positions: map<Entity, Point>, p: Point): (r: Option<Entity>)
    ensures r.Some? <==> exists k :: 0 <= k < |order| && order[k] in items && order[k] in positions && positions[order[k]] == p
    ensures r.Some? ==> r.value in order && r.value in items && r.value in positions && positions[r.value] == p
  {
    if order == [] then None
    else if order[0] in items && order[0] in positions && positions[order[0]] == p then Some(order[0])
    else
      assert forall k :: 1 <= k < |order| ==> order[k] == order[1..][k - 1];
      FirstItemAt(order[1..], items, positions, p)
  }

  /** The first item found at p comes before every other item there. */
  lemma {:induction false} FirstItemAtIsFirst(order: seq<Entity>, items: set<Entity>, positions: map<Entity, Point>, p: Point, k: int)
    requires 0 <= k < |order| && order[k] in items && order[k] in positions && positions[order[k]] == p
    requires Distinct(order)
    ensures var r := FirstItemAt(order, items, positions, p);
      r.Some? && forall j :: 0 <= j < |order| && order[j] == r.value ==> j <= k
  {
    if !(order[0] in items && order[0] in positions && positions[order[0]] == p) {
      assert k > 0;
      assert Distinct(order[1..]);
      FirstItemAtIsFirst(order[1..], items, positions, p, k - 1);
      var r := FirstItemAt(order, items, positions, p);
      forall j | 0 <= j < |order| && order[j] == r.value ensures j <= k {
        if j > 0 {
          assert order[1..][j - 1] == r.value;
        }
      }
    }
  }

  /** The line get_item logs when the player stands on no item. */
  const NothingToPickUp := "There is nothing to pick up."

  /** The search loop of get_item, with its break. */
  method FindItem(order: seq<Entity>, items: set<Entity>, positions: map<Entity, Point>, p: Point) returns (r: Option<Entity>)
    ensures r == FirstItemAt(order, items, positions, p)
  {
    r := None;
    var i := 0;
    while i < |order|
      invariant 0 <= i <= |order|
      invariant FirstItemAt(order, items, positions, p) == FirstItemAt(order[i..], items, positions, p)
    {
      var e := order[i];
      if e in items && e in positions && positions[e] == p {
        r := Some(e);
        return;
      }
      assert order[i..][1..] == order[i + 1..];
      i := i + 1;
    }
  }

  /** get_item: the first live item at the player's position gets a
      WantsToPickUp (on the item itself) collected by the player; with no
      such item the log says there is nothing to pick up. */
  method GetItemAtPlayer(w: World)
    requires w.Valid()
    modifies w`wantsToPickUp, w.log`entries
    ensures w.Valid()
    ensures var found := old(FirstItemAt(w.alive, w.items, w.positions, w.playerPosition));
      && (found.Some? ==> w.wantsToPickUp == old(w.wantsToPickUp)[found.value := WantsToPickUp(w.playerEntity, found.value)]
                          && w.log.entries == old(w.log.entries))
      && (found.None? ==> w.wantsToPickUp == old(w.wantsToPickUp) && w.log.entries == Added(old(w.log.entries), NothingToPickUp))
  {
    var found := FindItem(w.alive, w.items, w.positions, w.playerPosition);
    match found {
      case None =>
        w.log.Add(NothingToPickUp);
      case Some(item) =>
        w.wantsToPickUp := w.wantsToPickUp[item := WantsToPickUp(w.playerEntity, item)];
    }
    assert w.grid.Valid() && w.log.Valid() && Distinct(w.alive);
  }

  /** The waits of the wait function: each player gets a WantsToWait. */
  function PlayerWaits(waits: map<Entity, WaitCause>, order: seq<Entity>): (r: map<Entity, WaitCause>)
    ensures r.Keys == waits.Keys + Elems(order)
    ensures forall e :: e in order ==> r[e] == Choice
    ensures forall e :: e in waits && e !in order ==> r[e] == waits[e]
  {
    if order == [] then waits
    else PlayerWaits(waits, order[..|order| - 1])[order[|order| - 1] := Choice]
  }

  /** wait: every live player entity gets a bare WantsToWait, whose cause
      is Choice. */
  method WaitPlayers(w: World)
    requires w.Valid()
    modifies w`wantsToWait
    ensures w.Valid()
    ensures w.wantsToWait == PlayerWaits(old(w.wantsToWait), Join(w.alive, w.players))
  {
    var order := Join(w.alive, w.players);
    var waits := w.wantsToWait;
    var i := 0;
    while i < |order|
      invariant 0 <= i <= |order|
      invariant waits == PlayerWaits(w.wantsToWait, order[..i])
    {
      assert order[..i + 1][..i] == order[..i];
      waits := waits[order[i] := Choice];
      i := i + 1;
    }
    assert order[..i] == order;
    w.wantsToWait := waits;
    assert w.grid.Valid() && w.log.Valid() && Distinct(w.alive);
  }

  /** player_input: the command of the key is carried out and its run state
      returned. try_scroll_game_log is GameLog::move_index. */
  method PlayerInput(w: World, key: Option<Key>) returns (r: RunState)
    requires w.Valid()
    modifies w`wantsToMelee, w`wantsToMove, w`wantsToPickUp, w`wantsToWait, w.log`entries, w.log`displayIndex
    ensures w.Valid()
    ensures r == NextState(CommandOf(key))
    ensures !CommandOf(key).TryMove? ==> w.wantsToMelee == old(w.wantsToMelee) && w.wantsToMove == old(w.wantsToMove)
    ensures !CommandOf(key).GetItem? ==> w.wantsToPickUp == old(w.wantsToPickUp) && w.log.entries == old(w.log.entries)
    ensures !CommandOf(key).WaitTurn? ==> w.wantsToWait == old(w.wantsToWait)
    ensures !CommandOf(key).Scroll? ==> w.log.displayIndex == old(w.log.displayIndex)
    ensures CommandOf(key).Scroll? ==> w.log.displayIndex == ClampedIndex(|w.log.entries|, old(w.log.displayIndex), CommandOf(key).delta)
    ensures CommandOf(key).TryMove? ==>
      Intents(w.wantsToMelee, w.wantsToMove) == old(PlayerMoves(MoveEnv(w.positions, Elems(w.alive) * w.combatStats.Keys, w.grid.tileContent, w.grid.width, w.grid.height),
                         Intents(w.wantsToMelee, w.wantsToMove), Join(w.alive, w.players * w.positions.Keys),
                         CommandOf(key).dx, CommandOf(key).dy))
    ensures CommandOf(key).WaitTurn? ==> w.wantsToWait == PlayerWaits(old(w.wantsToWait), Join(w.alive, w.players))
    ensures CommandOf(key).GetItem? ==>
      var found := old(FirstItemAt(w.alive, w.items, w.positions, w.playerPosition));
      && (found.Some? ==> w.wantsToPickUp == old(w.wantsToPickUp)[found.value := WantsToPickUp(w.playerEntity, found.value)]
                          && w.log.entries == old(w.log.entries))
      && (found.None? ==> w.wantsToPickUp == old(w.wantsToPickUp) && w.log.entries == Added(old(w.log.entries), NothingToPickUp))
  {
    var c := CommandOf(key);
    match c {
      case TryMove(dx, dy) => TryMovePlayer(w, dx, dy);
      case GetItem => GetItemAtPlayer(w);
      case WaitTurn => WaitPlayers(w);
      case Scroll(delta) => w.log.MoveIndex(delta);
      case _ =>
    }
    r := NextState(c);
  }
}
