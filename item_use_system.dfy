/** src/systems/inventory/item_use_system.rs: each live entity that wants to
    use an item gathers its targets, heals or damages those that hold
    CombatStats, logs what the player did, and spends a consumable item that
    had an effect. */
module ItemUseSystem {
  import opened Components
  import opened Seqs
  import opened Strings
  import opened GameMap
  import opened GameLogs
  import opened Ecs

  /** What the system reads and does not change, as the live entities see
      it: `fighters` are the live entities holding CombatStats, the maps are
      the live entries of heal amounts, damage amounts and blast radii, and
      `confusing`/`consumables` the live items holding those marker facets. */
  datatype UseEnv = UseEnv(
    player: Entity,
    fighters: set<Entity>,
    names: map<Entity, string>,
    healing: map<Entity, int>,
    damage: map<Entity, int>,
    aoe: map<Entity, int>,
    confusing: set<Entity>,
    consumables: set<Entity>,
    tileContent: seq<seq<Entity>>,
    width: int,
    height: int)

  /** The map's content vector has one slot per cell. */
  predicate EnvOk(env: UseEnv) {
    0 <= env.width * env.height && |env.tileContent| == env.width * env.height
  }

  /** The entities on the in-bounds tiles of a blast, tile by tile. */
  function BlastContent(env: UseEnv, tiles: seq<Point>): seq<Entity>
    requires EnvOk(env)
  {
    if tiles == [] then []
    else
      var p := tiles[|tiles| - 1];
      BlastContent(env, tiles[..|tiles| - 1])
        + if InBounds(env.width, env.height, p)
          then InBoundsIsValid(env.width, env.height, p.x, p.y); env.tileContent[Point2dToIndex(env.width, p)]
          else []
  }

  /** A single-tile use must aim at a valid index (the source indexes
      tile_content with it). */
  predicate TargetOk(env: UseEnv, u: WantsToUseItem) {
    u.target.Some? && u.item !in env.aoe ==> 0 <= Point2dToIndex(env.width, u.target.value) < |env.tileContent|
  }

  /** The target list of one use; field of view is passed in as `fov`. */
  function Targets(env: UseEnv, u: WantsToUseItem, fov: (Point, int) -> seq<Point>): seq<Entity>
    requires EnvOk(env) && TargetOk(env, u)
  {
    match u.target
    case None => [env.player]
    case Some(p) =>
      if u.item in env.aoe then BlastContent(env, fov(p, env.aoe[u.item]))
      else env.tileContent[Point2dToIndex(env.width, p)]
  }

  /** The targets that hold CombatStats, in order. */
  function StatTargets(targets: seq<Entity>, fighters: set<Entity>): (r: seq<Entity>)
    ensures forall t :: t in r <==> t in targets && t in fighters
  {
    if targets == [] then []
    else StatTargets(targets[..|targets| - 1], fighters)
           + if targets[|targets| - 1] in fighters then [targets[|targets| - 1]] else []
  }

  /** The names the source unwraps when the player is the user: the item's
      for any effect that reaches a target, the targets' for damage and
      confusion. */
  predicate NamesKnown(env: UseEnv, user: Entity, u: WantsToUseItem, st: seq<Entity>) {
    user == env.player && st != [] ==>
      && (u.item in env.healing || u.item in env.damage || u.item in env.confusing ==> u.item in env.names)
      && (u.item in env.damage || u.item in env.confusing ==> forall t :: t in st ==> t in env.names)
  }

  /** The stats after healing each target in turn, capped at max_hp. */
  function Healed(stats: map<Entity, CombatStats>, targets: seq<Entity>, amount: int): (r: map<Entity, CombatStats>)
    requires forall t :: t in targets ==> t in stats
    ensures r.Keys == stats.Keys
  {
    if targets == [] then stats
    else
      var s := Healed(stats, targets[..|targets| - 1], amount);
      var t := targets[|targets| - 1];
      s[t := s[t].(hp := Min(s[t].maxHp, s[t].hp + amount))]
  }

  /** The SuffersDamage storage after each target in turn is given the
      amount. */
  function Inflicted(suffers: map<Entity, int>, targets: seq<Entity>, amount: int): map<Entity, int> {
    if targets == [] then suffers
    else Inflicted(suffers, targets[..|targets| - 1], amount)[targets[|targets| - 1] := amount]
  }

  function HealLine(item: string, amount: int): string {
    "You use " + item + ", healing " + IntToString(amount) + " hp."
  }

  function DamageLine(item: string, mob: string, amount: int): string {
    "You use " + item + " on " + mob + ", inflicting " + IntToString(amount) + " hp."
  }

  function ConfuseLine(item: string, mob: string): string {
    "You use " + item + " on " + mob + ", confusing them."
  }

  /** n copies of a line. */
  function Repeat(line: string, n: nat): (r: seq<string>)
    ensures |r| == n && forall k :: 0 <= k < n ==> r[k] == line
  {
    if n == 0 then [] else Repeat(line, n - 1) + [line]
  }

  function DamageLines(item: string, names: map<Entity, string>, targets: seq<Entity>, amount: int): (r: seq<string>)
    requires forall t :: t in targets ==> t in names
    ensures |r| == |targets|
  {
    seq(|targets|, k requires 0 <= k < |targets| => DamageLine(item, names[targets[k]], amount))
  }

  function ConfuseLines(item: string, names: map<Entity, string>, targets: seq<Entity>): (r: seq<string>)
    requires forall t :: t in targets ==> t in names
    ensures |r| == |targets|
  {
    seq(|targets|, k requires 0 <= k < |targets| => ConfuseLine(item, names[targets[k]]))
  }

  /** The lines one use adds to the log: none unless the player is the user;
      then one per target for each effect, heal lines first. */
  function UseLines(env: UseEnv, user: Entity, u: WantsToUseItem, st: seq<Entity>): seq<string>
    requires NamesKnown(env, user, u, st)
  {
    HealPart(env, user, u, st) + DamagePart(env, user, u, st) + ConfusePart(env, user, u, st)
  }

  function HealPart(env: UseEnv, user: Entity, u: WantsToUseItem, st: seq<Entity>): seq<string>
    requires NamesKnown(env, user, u, st)
  {
    if user == env.player && st != [] && u.item in env.healing
    then Repeat(HealLine(env.names[u.item], env.healing[u.item]), |st|)
    else []
  }

  function DamagePart(env: UseEnv, user: Entity, u: WantsToUseItem, st: seq<Entity>): seq<string>
    requires NamesKnown(env, user, u, st)
  {
    if user == env.player && st != [] && u.item in env.damage
    then DamageLines(env.names[u.item], env.names, st, env.damage[u.item])
    else []
  }

  function ConfusePart(env: UseEnv, user: Entity, u: WantsToUseItem, st: seq<Entity>): seq<string>
    requires NamesKnown(env, user, u, st)
  {
    if user == env.player && st != [] && u.item in env.confusing
    then ConfuseLines(env.names[u.item], env.names, st)
    else []
  }

  /** used_item: a heal or a damage effect reached a target. */
  predicate Used(env: UseEnv, u: WantsToUseItem, st: seq<Entity>) {
    (u.item in env.healing || u.item in env.damage) && st != []
  }

  /** What the system updates: combat stats, the SuffersDamage storage, the
      log, and the items it spends (deleted when the run ends). */
  datatype UseState = UseState(stats: map<Entity, CombatStats>, suffers: map<Entity, int>, entries: seq<LogEntry>,
                               consumed: set<Entity>)

  /** All that one use needs of the source's unwraps and of the state. */
  predicate UseOk(env: UseEnv, s: UseState, user: Entity, u: WantsToUseItem, fov: (Point, int) -> seq<Point>) {
    && EnvOk(env) && TargetOk(env, u) && env.fighters <= s.stats.Keys
    && NamesKnown(env, user, u, StatTargets(Targets(env, u, fov), env.fighters))
  }

  /** One iteration of the system's loop. */
  function UseStep(env: UseEnv, s: UseState, user: Entity, u: WantsToUseItem, fov: (Point, int) -> seq<Point>): UseState
    requires UseOk(env, s, user, u, fov)
  {
    Effects(env, s, user, u, StatTargets(Targets(env, u, fov), env.fighters))
  }

  /** The effects of one use on its targets holding CombatStats. */
  function Effects(env: UseEnv, s: UseState, user: Entity, u: WantsToUseItem, st: seq<Entity>): UseState
    requires forall t :: t in st ==> t in s.stats
    requires NamesKnown(env, user, u, st)
  {
    UseState(
      if u.item in env.healing then Healed(s.stats, st, env.healing[u.item]) else s.stats,
      if u.item in env.damage then Inflicted(s.suffers, st, env.damage[u.item]) else s.suffers,
      AddedAll(s.entries, UseLines(env, user, u, st)),
      s.consumed + if Used(env, u, st) && u.item in env.consumables then {u.item} else {})
  }

  /** Every use of `order` can be carried out: its intent is present, and
      it meets the index and name demands of UseOk. */
  predicate WantsOk(env: UseEnv, order: seq<Entity>, wants: map<Entity, WantsToUseItem>, fov: (Point, int) -> seq<Point>)
    requires EnvOk(env)
  {
    forall e :: e in order ==>
      e in wants && TargetOk(env, wants[e]) && NamesKnown(env, e, wants[e], StatTargets(Targets(env, wants[e], fov), env.fighters))
  }

  /** The state after every use of `order`, one after the other. */
  function UsedAll(env: UseEnv, s: UseState, order: seq<Entity>, wants: map<Entity, WantsToUseItem>,
                   fov: (Point, int) -> seq<Point>): (r: UseState)
    requires EnvOk(env) && env.fighters <= s.stats.Keys
    requires WantsOk(env, order, wants, fov)
    ensures r.stats.Keys == s.stats.Keys
  {
    if order == [] then s
    else
      var e := order[|order| - 1];
      var prev := UsedAll(env, s, order[..|order| - 1], wants, fov);
      UseStep(env, prev, e, wants[e], fov)
  }

  /** Every log entry keeps a positive count through the whole run. */
  lemma {:induction false} UsedAllCountsPositive(env: UseEnv, s: UseState, order: seq<Entity>, wants: map<Entity, WantsToUseItem>,
                                                 fov: (Point, int) -> seq<Point>)
    requires EnvOk(env) && env.fighters <= s.stats.Keys && CountsPositive(s.entries)
    requires WantsOk(env, order, wants, fov)
    ensures CountsPositive(UsedAll(env, s, order, wants, fov).entries)
  {
    if order != [] {
      var init, e := order[..|order| - 1], order[|order| - 1];
      assert forall x :: x in init ==> x in order;
      assert e in order;
      UsedAllCountsPositive(env, s, init, wants, fov);
      var prev := UsedAll(env, s, init, wants, fov);
      AddedAllInvariant(prev.entries, UseLines(env, e, wants[e], StatTargets(Targets(env, wants[e], fov), env.fighters)));
    }
  }

  // ---- Properties of the targets ----

  /** With no target point the only target is the player, whoever the user. */
  lemma NoPointTargetsThePlayer(env: UseEnv, u: WantsToUseItem, fov: (Point, int) -> seq<Point>)
    requires EnvOk(env) && u.target == None
    ensures Targets(env, u, fov) == [env.player]
  {
  }

  /** A point without a blast radius targets what stands on that tile. */
  lemma PointTargetsItsTile(env: UseEnv, u: WantsToUseItem, fov: (Point, int) -> seq<Point>, p: Point)
    requires EnvOk(env) && TargetOk(env, u) && u.target == Some(p) && u.item !in env.aoe
    ensures Targets(env, u, fov) == env.tileContent[Point2dToIndex(env.width, p)]
  {
  }

  /** A blast targets exactly what stands on its in-bounds tiles. */
  lemma {:induction false} BlastContentExactly(env: UseEnv, tiles: seq<Point>, e: Entity)
    requires EnvOk(env)
    ensures e in BlastContent(env, tiles) <==>
      exists k :: 0 <= k < |tiles| && InBounds(env.width, env.height, tiles[k])
        && 0 <= Point2dToIndex(env.width, tiles[k]) < |env.tileContent|
        && e in env.tileContent[Point2dToIndex(env.width, tiles[k])]
  {
    if tiles != [] {
      var init, p := tiles[..|tiles| - 1], tiles[|tiles| - 1];
      BlastContentExactly(env, init, e);
      if InBounds(env.width, env.height, p) {
        InBoundsIsValid(env.width, env.height, p.x, p.y);
      }
      if e in BlastContent(env, tiles) {
        if e !in BlastContent(env, init) {
          assert InBounds(env.width, env.height, p) && e in env.tileContent[Point2dToIndex(env.width, p)];
          assert tiles[|tiles| - 1] == p;
        } else {
          var k :| 0 <= k < |init| && InBounds(env.width, env.height, init[k])
            && 0 <= Point2dToIndex(env.width, init[k]) < |env.tileContent|
            && e in env.tileContent[Point2dToIndex(env.width, init[k])];
          assert tiles[k] == init[k];
        }
      } else {
        forall k | 0 <= k < |tiles| && InBounds(env.width, env.height, tiles[k])
          && 0 <= Point2dToIndex(env.width, tiles[k]) < |env.tileContent|
          ensures e !in env.tileContent[Point2dToIndex(env.width, tiles[k])]
        {
          if k < |init| {
            assert tiles[k] == init[k];
          }
        }
      }
    }
  }

  // ---- Properties of the effects ----

  /** Healing only ever moves hit points: every target ends at or below its
      max_hp, no other stat changes, and non-targets are untouched. */
  lemma {:induction false} HealedCapped(stats: map<Entity, CombatStats>, targets: seq<Entity>, amount: int)
    requires forall t :: t in targets ==> t in stats
    ensures var r := Healed(stats, targets, amount);
      && r.Keys == stats.Keys
      && (forall t :: t in targets ==> r[t].hp <= r[t].maxHp)
      && (forall e :: e in stats ==> r[e].maxHp == stats[e].maxHp && r[e].defense == stats[e].defense
                                        && r[e].power == stats[e].power)
      && (forall e :: e in stats && e !in targets ==> r[e] == stats[e])
  {
    if targets != [] {
      var init := targets[..|targets| - 1];
      HealedCapped(stats, init, amount);
      assert forall t :: t in targets <==> t in init || t == targets[|targets| - 1];
    }
  }

  /** A target listed once gets hp = min(max_hp, hp + amount). */
  lemma {:induction false} HealedOnce(stats: map<Entity, CombatStats>, targets: seq<Entity>, amount: int, t: Entity)
    requires forall x :: x in targets ==> x in stats
    requires Distinct(targets) && t in targets
    ensures Healed(stats, targets, amount)[t].hp == Min(stats[t].maxHp, stats[t].hp + amount)
  {
    var init, last := targets[..|targets| - 1], targets[|targets| - 1];
    HealedCapped(stats, init, amount);
    if t != last {
      assert Distinct(init);
      HealedOnce(stats, init, amount, t);
    } else {
      assert t !in init;
    }
  }

  /** A damage item sets every target's SuffersDamage to its amount,
      replacing any earlier amount; other entries stay. */
  lemma {:induction false} InflictedOverwrites(suffers: map<Entity, int>, targets: seq<Entity>, amount: int)
    ensures var r := Inflicted(suffers, targets, amount);
      && r.Keys == suffers.Keys + Elems(targets)
      && (forall t :: t in targets ==> r[t] == amount)
      && (forall e :: e in suffers && e !in targets ==> r[e] == suffers[e])
  {
    if targets != [] {
      var init := targets[..|targets| - 1];
      InflictedOverwrites(suffers, init, amount);
      assert forall t :: t in targets <==> t in init || t == targets[|targets| - 1];
    }
  }

  /** An item is spent exactly when it is consumable and a heal or damage
      effect reached a target holding CombatStats. */
  lemma SpentExactly(env: UseEnv, s: UseState, user: Entity, u: WantsToUseItem, fov: (Point, int) -> seq<Point>)
    requires UseOk(env, s, user, u, fov) && u.item !in s.consumed
    ensures u.item in UseStep(env, s, user, u, fov).consumed <==>
      && u.item in env.consumables
      && (u.item in env.healing || u.item in env.damage)
      && exists t :: t in Targets(env, u, fov) && t in env.fighters
  {
    var st := StatTargets(Targets(env, u, fov), env.fighters);
    if st != [] {
      assert st[0] in st;
    }
  }

  /** Confusion only logs: an item that neither heals nor damages changes
      no stats, no SuffersDamage, and is never spent. */
  lemma ConfusionOnlyLogs(env: UseEnv, s: UseState, user: Entity, u: WantsToUseItem, fov: (Point, int) -> seq<Point>)
    requires UseOk(env, s, user, u, fov) && u.item !in env.healing && u.item !in env.damage
    ensures var r := UseStep(env, s, user, u, fov);
      r.stats == s.stats && r.suffers == s.suffers && r.consumed == s.consumed
  {
  }

  /** Only the player's uses are logged. */
  lemma OthersUseSilently(env: UseEnv, s: UseState, user: Entity, u: WantsToUseItem, fov: (Point, int) -> seq<Point>)
    requires UseOk(env, s, user, u, fov) && user != env.player
    ensures UseStep(env, s, user, u, fov).entries == s.entries
  {
  }

  /** The player drinks a consumable potion of 8 at 25 of 30 hit points:
      healed to 30, one line logged, the potion spent. */
  lemma PlayerDrinksPotion(fov: (Point, int) -> seq<Point>)
    ensures var env := UseEnv(1, {1}, map[1 := "Player", 7 := "Health Potion"], map[7 := 8], map[], map[], {}, {7},
                              [], 0, 0);
      var r := UseStep(env, UseState(map[1 := CombatStats(30, 25, 2, 5)], map[], [], {}), 1, WantsToUseItem(7, None), fov);
      && r.stats == map[1 := CombatStats(30, 30, 2, 5)]
      && r.entries == [LogEntry("You use Health Potion, healing 8 hp.", 1)]
      && r.consumed == {7}
  {
    var env := UseEnv(1, {1}, map[1 := "Player", 7 := "Health Potion"], map[7 := 8], map[], map[], {}, {7}, [], 0, 0);
    var u := WantsToUseItem(7, None);
    assert Targets(env, u, fov) == [1];
    assert [1][..0] == [];
    assert StatTargets([1], {1}) == [1];
    assert Repeat(HealLine("Health Potion", 8), 1) == [HealLine("Health Potion", 8)];
    assert UseLines(env, 1, u, [1]) == [HealLine("Health Potion", 8)];
    PotionLine();
  }

  lemma PotionLine()
    ensures HealLine("Health Potion", 8) == "You use Health Potion, healing 8 hp."
  {
    EightText();
    assert HealLine("Health Potion", 8) == "You use " + "Health Potion" + ", healing " + "8" + " hp.";
  }

  lemma EightText()
    ensures IntToString(8) == "8"
  {
    assert NatToString(8) == [DigitChar(8)] == "8";
  }

  // ---- The loops ----

  /** The heal loop of one use. */
  method HealTargets(stats0: map<Entity, CombatStats>, entries0: seq<LogEntry>, st: seq<Entity>, amount: int,
                     log: bool, item: string) returns (stats: map<Entity, CombatStats>, entries: seq<LogEntry>)
    requires forall t :: t in st ==> t in stats0
    ensures stats == Healed(stats0, st, amount)
    ensures log ==> entries == AddedAll(entries0, Repeat(HealLine(item, amount), |st|))
    ensures !log ==> entries == entries0
  {
    stats, entries := stats0, entries0;
    var line := HealLine(item, amount);
    var i := 0;
    while i < |st|
      invariant 0 <= i <= |st|
      invariant stats == Healed(stats0, st[..i], amount)
      invariant log ==> entries == AddedAll(entries0, Repeat(line, i))
      invariant !log ==> entries == entries0
    {
      var t := st[i];
      assert st[..i + 1][..i] == st[..i];
      assert t in stats0;
      stats := stats[t := stats[t].(hp := Min(stats[t].maxHp, stats[t].hp + amount))];
      if log {
        AddedAllRepeatStep(entries0, line, i);
        entries := Added(entries, line);
      }
      i := i + 1;
    }
    assert st[..i] == st;
  }

  /** One more copy of a line is one more Added. */
  lemma AddedAllRepeatStep(entries0: seq<LogEntry>, line: string, i: nat)
    ensures AddedAll(entries0, Repeat(line, i + 1)) == Added(AddedAll(entries0, Repeat(line, i)), line)
  {
    assert Repeat(line, i + 1)[..i] == Repeat(line, i);
  }

  /** The damage loop of one use. */
  method DamageTargets(suffers0: map<Entity, int>, entries0: seq<LogEntry>, st: seq<Entity>, amount: int,
                       log: bool, item: string, names: map<Entity, string>) returns (suffers: map<Entity, int>, entries: seq<LogEntry>)
    requires log ==> forall t :: t in st ==> t in names
    ensures suffers == Inflicted(suffers0, st, amount)
    ensures log ==> entries == AddedAll(entries0, DamageLines(item, names, st, amount))
    ensures !log ==> entries == entries0
  {
    suffers, entries := suffers0, entries0;
    var i := 0;
    while i < |st|
      invariant 0 <= i <= |st|
      invariant suffers == Inflicted(suffers0, st[..i], amount)
      invariant log ==> entries == AddedAll(entries0, DamageLines(item, names, st[..i], amount))
      invariant !log ==> entries == entries0
    {
      var t := st[i];
      assert st[..i + 1][..i] == st[..i];
      suffers := suffers[t := amount];
      if log {
        assert t in st;
        assert DamageLines(item, names, st[..i + 1], amount)[..i] == DamageLines(item, names, st[..i], amount);
        entries := Added(entries, DamageLine(item, names[t], amount));
      }
      i := i + 1;
    }
    assert st[..i] == st;
  }

  /** The confusion loop of one use: it collects the mobs and logs, and
      nothing else. */
  method ConfuseTargets(entries0: seq<LogEntry>, st: seq<Entity>, log: bool, item: string, names: map<Entity, string>)
    returns (entries: seq<LogEntry>)
    requires log ==> forall t :: t in st ==> t in names
    ensures log ==> entries == AddedAll(entries0, ConfuseLines(item, names, st))
    ensures !log ==> entries == entries0
  {
    entries := entries0;
    var mobsToConfuse: seq<Entity> := [];
    var i := 0;
    while i < |st|
      invariant 0 <= i <= |st|
      invariant log ==> entries == AddedAll(entries0, ConfuseLines(item, names, st[..i]))
      invariant !log ==> entries == entries0
    {
      var t := st[i];
      mobsToConfuse := mobsToConfuse + [t];
      if log {
        assert t in st;
        assert st[..i + 1][..i] == st[..i];
        assert ConfuseLines(item, names, st[..i + 1])[..i] == ConfuseLines(item, names, st[..i]);
        entries := Added(entries, ConfuseLine(item, names[t]));
      }
      i := i + 1;
    }
    assert st[..i] == st;
  }

  /** Builds the target list the way the source does. */
  method GatherTargets(env: UseEnv, u: WantsToUseItem, fov: (Point, int) -> seq<Point>) returns (targets: seq<Entity>)
    requires EnvOk(env) && TargetOk(env, u)
    ensures targets == Targets(env, u, fov)
  {
    match u.target {
      case None =>
        targets := [env.player];
      case Some(target) =>
        if u.item !in env.aoe {
          targets := env.tileContent[Point2dToIndex(env.width, target)];
        } else {
          var blastTiles := fov(target, env.aoe[u.item]);
          targets := [];
          var i := 0;
          while i < |blastTiles|
            invariant 0 <= i <= |blastTiles|
            invariant targets == BlastContent(env, blastTiles[..i])
          {
            var p := blastTiles[i];
            assert blastTiles[..i + 1][..i] == blastTiles[..i];
            if InBounds(env.width, env.height, p) {
              InBoundsIsValid(env.width, env.height, p.x, p.y);
              targets := targets + env.tileContent[Point2dToIndex(env.width, p)];
            } else {
              assert targets + [] == targets;
            }
            i := i + 1;
          }
          assert blastTiles[..i] == blastTiles;
        }
    }
  }

  /** Filters the targets down to those holding CombatStats. */
  method FilterStatTargets(targets: seq<Entity>, fighters: set<Entity>) returns (st: seq<Entity>)
    ensures st == StatTargets(targets, fighters)
  {
    st := [];
    var i := 0;
    while i < |targets|
      invariant 0 <= i <= |targets|
      invariant st == StatTargets(targets[..i], fighters)
    {
      assert targets[..i + 1][..i] == targets[..i];
      if targets[i] in fighters {
        st := st + [targets[i]];
      } else {
        assert st + [] == st;
      }
      i := i + 1;
    }
    assert targets[..i] == targets;
  }

  /** The healing part of one use. */
  method HealPhase(env: UseEnv, user: Entity, u: WantsToUseItem, st: seq<Entity>,
                   stats0: map<Entity, CombatStats>, entries0: seq<LogEntry>)
    returns (stats: map<Entity, CombatStats>, entries: seq<LogEntry>, used: bool)
    requires forall t :: t in st ==> t in stats0
    requires NamesKnown(env, user, u, st)
    ensures stats == if u.item in env.healing then Healed(stats0, st, env.healing[u.item]) else stats0
    ensures entries == AddedAll(entries0, HealPart(env, user, u, st))
    ensures used == (u.item in env.healing && st != [])
  {
    stats, entries, used := stats0, entries0, false;
    var log := user == env.player && st != [];
    if u.item in env.healing {
      stats, entries := HealTargets(stats, entries, st, env.healing[u.item], log, if log then env.names[u.item] else "");
      used := st != [];
    }
  }

  /** The damage part of one use. */
  method DamagePhase(env: UseEnv, user: Entity, u: WantsToUseItem, st: seq<Entity>,
                     suffers0: map<Entity, int>, entries0: seq<LogEntry>)
    returns (suffers: map<Entity, int>, entries: seq<LogEntry>, used: bool)
    requires NamesKnown(env, user, u, st)
    ensures suffers == if u.item in env.damage then Inflicted(suffers0, st, env.damage[u.item]) else suffers0
    ensures entries == AddedAll(entries0, DamagePart(env, user, u, st))
    ensures used == (u.item in env.damage && st != [])
  {
    suffers, entries, used := suffers0, entries0, false;
    var log := user == env.player && st != [];
    if u.item in env.damage {
      suffers, entries := DamageTargets(suffers, entries, st, env.damage[u.item], log,
                                        if log then env.names[u.item] else "", env.names);
      used := st != [];
    }
  }

  /** The confusion part of one use. */
  method ConfusePhase(env: UseEnv, user: Entity, u: WantsToUseItem, st: seq<Entity>, entries0: seq<LogEntry>)
    returns (entries: seq<LogEntry>)
    requires NamesKnown(env, user, u, st)
    ensures entries == AddedAll(entries0, ConfusePart(env, user, u, st))
  {
    entries := entries0;
    var log := user == env.player && st != [];
    if u.item in env.confusing {
      entries := ConfuseTargets(entries, st, log, if log then env.names[u.item] else "", env.names);
    }
  }

  /** The body of the system's loop: one use. */
  method UseOne(env: UseEnv, s: UseState, user: Entity, u: WantsToUseItem, fov: (Point, int) -> seq<Point>)
    returns (r: UseState)
    requires UseOk(env, s, user, u, fov)
    ensures r == UseStep(env, s, user, u, fov)
  {
    var targets := GatherTargets(env, u, fov);
    var st := FilterStatTargets(targets, env.fighters);
    var stats, entries1, healed := HealPhase(env, user, u, st, s.stats, s.entries);
    var suffers, entries2, damaged := DamagePhase(env, user, u, st, s.suffers, entries1);
    var entries := ConfusePhase(env, user, u, st, entries2);
    var usedItem := healed || damaged;
    AddedAllAppend(s.entries, HealPart(env, user, u, st), DamagePart(env, user, u, st));
    AddedAllAppend(s.entries, HealPart(env, user, u, st) + DamagePart(env, user, u, st), ConfusePart(env, user, u, st));
    var consumed := s.consumed + if usedItem && u.item in env.consumables then {u.item} else {};
    r := UseState(stats, suffers, entries, consumed);
    assert r == Effects(env, s, user, u, st);
  }

  /** The system's loop over every use of `order`. */
  method UseAll(env: UseEnv, s0: UseState, order: seq<Entity>, wants: map<Entity, WantsToUseItem>,
                fov: (Point, int) -> seq<Point>) returns (r: UseState)
    requires EnvOk(env) && env.fighters <= s0.stats.Keys
    requires WantsOk(env, order, wants, fov)
    ensures r == UsedAll(env, s0, order, wants, fov)
  {
    r := s0;
    var i := 0;
    WantsOkPrefix(env, order, wants, fov, 0);
    while i < |order|
      invariant 0 <= i <= |order|
      invariant WantsOk(env, order[..i], wants, fov)
      invariant r == UsedAll(env, s0, order[..i], wants, fov)
    {
      var e := order[i];
      WantsOkPrefix(env, order, wants, fov, i + 1);
      assert order[..i + 1][..i] == order[..i];
      assert order[..i + 1][i] == e;
      r := UseOne(env, r, e, wants[e], fov);
      i := i + 1;
    }
    assert order[..i] == order;
  }

  /** Every prefix of a well-formed list of uses is well formed. */
  lemma WantsOkPrefix(env: UseEnv, order: seq<Entity>, wants: map<Entity, WantsToUseItem>,
                      fov: (Point, int) -> seq<Point>, i: nat)
    requires EnvOk(env) && WantsOk(env, order, wants, fov) && i <= |order|
    ensures WantsOk(env, order[..i], wants, fov)
  {
    forall e | e in order[..i] ensures e in order {
    }
  }

  /** The store as the system sees it. */
  function EnvOf(alive: set<Entity>, player: Entity, names: map<Entity, string>, stats: map<Entity, CombatStats>,
                 healing: map<Entity, int>, damage: map<Entity, int>, aoe: map<Entity, int>, confusion: map<Entity, int>,
                 consumables: set<Entity>, tileContent: seq<seq<Entity>>, width: int, height: int): UseEnv
  {
    UseEnv(player, alive * stats.Keys, Restrict(names, alive), Restrict(healing, alive), Restrict(damage, alive),
           Restrict(aoe, alive), alive * confusion.Keys, alive * consumables, tileContent, width, height)
  }

  /** ItemUseSystem::run. Field of view is passed in as `fov`. The spent
      items are marked with Entities::delete, which only records them as
      killed: they stay alive, with their facets, until the next
      World::maintain. */
  method Run(w: World, fov: (Point, int) -> seq<Point>)
    requires w.Valid()
    requires var env := EnvOf(Elems(w.alive), w.playerEntity, w.names, w.combatStats, w.providesHealing, w.inflictsDamage,
                              w.areaOfEffect, w.confusion, w.consumables, w.grid.tileContent, w.grid.width, w.grid.height);
      WantsOk(env, Join(w.alive, w.wantsToUseItem.Keys), w.wantsToUseItem, fov)
    modifies w`killed, w`combatStats, w`suffersDamage, w`wantsToUseItem, w.log`entries
    ensures w.Valid()
    ensures var env := old(EnvOf(Elems(w.alive), w.playerEntity, w.names, w.combatStats, w.providesHealing,
                                 w.inflictsDamage, w.areaOfEffect, w.confusion, w.consumables, w.grid.tileContent,
                                 w.grid.width, w.grid.height));
      var r := UsedAll(env, UseState(old(w.combatStats), old(w.suffersDamage), old(w.log.entries), {}),
                       Join(old(w.alive), old(w.wantsToUseItem).Keys), old(w.wantsToUseItem), fov);
      && w.combatStats == r.stats && w.suffersDamage == r.suffers && w.log.entries == r.entries
      && w.killed == old(w.killed) + r.consumed
    ensures w.alive == old(w.alive)
    ensures w.wantsToUseItem == map[]
  {
    var alive, stats0, wants := w.alive, w.combatStats, w.wantsToUseItem;
    var env := EnvOf(Elems(alive), w.playerEntity, w.names, stats0, w.providesHealing, w.inflictsDamage,
                     w.areaOfEffect, w.confusion, w.consumables, w.grid.tileContent, w.grid.width, w.grid.height);
    var order := Join(alive, wants.Keys);
    var s0 := UseState(stats0, w.suffersDamage, w.log.entries, {});
    var r := UseAll(env, s0, order, wants, fov);
    UsedAllCountsPositive(env, s0, order, wants, fov);
    w.combatStats := r.stats;
    w.suffersDamage := r.suffers;
    w.log.entries := r.entries;
    w.wantsToUseItem := map[];
    assert w.log.Valid();
    w.killed := w.killed + r.consumed;
    assert alive == old(w.alive) && stats0 == old(w.combatStats) && wants == old(w.wantsToUseItem);
    assert s0 == UseState(old(w.combatStats), old(w.suffersDamage), old(w.log.entries), {});
    assert order == Join(old(w.alive), old(w.wantsToUseItem).Keys);
    assert r == UsedAll(env, s0, order, wants, fov);
    assert w.grid.Valid() && w.log.Valid() && Distinct(w.alive);
  }
}
