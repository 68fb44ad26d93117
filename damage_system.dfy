/** src/systems/damage_system.rs: the damage an entity suffers comes off its
    hit points, and delete_the_dead then removes every dead entity except the
    player, logging each death. */
module DamageSystem {
  import opened Components
  import opened Seqs
  import opened GameLogs
  import opened Ecs
  import opened MeleeCombatSystem

  /** The combat stats after each listed entity lost the amount it suffers;
      an amount of zero is skipped. */
  function Damaged(stats: map<Entity, CombatStats>, order: seq<Entity>, suffers: map<Entity, int>): map<Entity, CombatStats>
    requires forall e :: e in order ==> e in suffers
  {
    map e | e in stats :: if e in order && suffers[e] != 0 then stats[e].(hp := stats[e].hp - suffers[e]) else stats[e]
  }

  /** A damaged entity loses exactly its amount of hit points and nothing
      else changes about it; other entities are untouched. */
  lemma DamagedProperties(stats: map<Entity, CombatStats>, order: seq<Entity>, suffers: map<Entity, int>)
    requires forall e :: e in order ==> e in suffers
    ensures var r := Damaged(stats, order, suffers);
      && r.Keys == stats.Keys
      && (forall e :: e in stats && e in order ==>
            r[e].hp == stats[e].hp - suffers[e]
            && r[e].maxHp == stats[e].maxHp && r[e].defense == stats[e].defense && r[e].power == stats[e].power)
      && (forall e :: e in stats && e !in order ==> r[e] == stats[e])
  {
  }

  /** The orc's blow of the melee system, applied here: the player drops
      from 10 to 7 hit points and so is neither removed nor mourned. */
  lemma OrcBlowLeavesPlayerStanding()
    ensures var f := Fighters(map[1 := 2], map[1 := "Orc", 2 := "Player"],
                              map[1 := CombatStats(16, 16, 1, 5), 2 := CombatStats(30, 10, 2, 5)], map[1 := 100]);
      var stats := Damaged(f.stats, [2], Suffered(map[], f, [1]));
      && stats[2] == CombatStats(30, 7, 2, 5)
      && Dead([1, 2], stats, {2}) == []
      && Obituaries([1, 2], stats, {2}, f.names, true) == []
  {
    var f := Fighters(map[1 := 2], map[1 := "Orc", 2 := "Player"],
                      map[1 := CombatStats(16, 16, 1, 5), 2 := CombatStats(30, 10, 2, 5)], map[1 := 100]);
    OrcHitsPlayer();
    var stats := Damaged(f.stats, [2], map[2 := 3]);
    assert stats[1] == f.stats[1] && stats[2] == CombatStats(30, 7, 2, 5);
    assert [1, 2][..1] == [1] && [1][..0] == [];
    assert Dead([1], stats, {2}) == Dead([], stats, {2}) + [] == [];
    assert Dead([1, 2], stats, {2}) == Dead([1], stats, {2}) + [];
    assert Obituary(1, stats, {2}, f.names, true) == [] && Obituary(2, stats, {2}, f.names, true) == [];
    assert Obituaries([1], stats, {2}, f.names, true) == Obituaries([], stats, {2}, f.names, true) + [] == [];
    assert Obituaries([1, 2], stats, {2}, f.names, true) == Obituaries([1], stats, {2}, f.names, true) + [];
  }

  /** The loop of the damage system. */
  method ApplyDamage(stats0: map<Entity, CombatStats>, order: seq<Entity>, suffers: map<Entity, int>)
    returns (stats: map<Entity, CombatStats>)
    requires Distinct(order)
    requires forall e :: e in order ==> e in suffers && e in stats0
    ensures stats == Damaged(stats0, order, suffers)
  {
    stats := stats0;
    var i := 0;
    while i < |order|
      invariant 0 <= i <= |order|
      invariant stats.Keys == stats0.Keys
      invariant forall e :: e in order[..i] ==> e in order
      invariant forall e :: e in stats ==>
        stats[e] == if e in order[..i] && suffers[e] != 0 then stats0[e].(hp := stats0[e].hp - suffers[e]) else stats0[e]
    {
      var e := order[i];
      assert order[..i + 1] == order[..i] + [e];
      assert e !in order[..i];
      if suffers[e] != 0 {
        stats := stats[e := stats[e].(hp := stats[e].hp - suffers[e])];
      }
      i := i + 1;
    }
    assert order[..i] == order;
  }

  /** DamageSystem::run: every live entity holding CombatStats and
      SuffersDamage takes its damage; then every SuffersDamage is removed. */
  method Run(w: World)
    requires Distinct(w.alive)
    modifies w`combatStats, w`suffersDamage
    ensures w.combatStats == Damaged(old(w.combatStats), Join(w.alive, old(w.combatStats).Keys * old(w.suffersDamage).Keys),
      old(w.suffersDamage))
    ensures w.suffersDamage == map[]
  {
    var alive, stats0, suffers := w.alive, w.combatStats, w.suffersDamage;
    var order := Join(alive, stats0.Keys * suffers.Keys);
    JoinDistinct(alive, stats0.Keys * suffers.Keys);
    w.combatStats := ApplyDamage(stats0, order, suffers);
    w.suffersDamage := map[];
  }

  /** The entities of `order` that delete_the_dead removes: those at zero
      hit points or below that are not the player. */
  function Dead(order: seq<Entity>, stats: map<Entity, CombatStats>, players: set<Entity>): seq<Entity>
    requires forall e :: e in order ==> e in stats
  {
    if order == [] then []
    else
      var e := order[|order| - 1];
      Dead(order[..|order| - 1], stats, players) + if stats[e].hp <= 0 && e !in players then [e] else []
  }

  /** The line logged for entity e, if any: a named non-player's death, or
      the player's own during a turn. */
  function Obituary(e: Entity, stats: map<Entity, CombatStats>, players: set<Entity>, names: map<Entity, string>, isTurn: bool): seq<string>
    requires e in stats
  {
    if stats[e].hp > 0 then []
    else if e !in players then (if e in names then [names[e] + " is dead"] else [])
    else if isTurn then ["You are dead"]
    else []
  }

  /** The lines delete_the_dead logs for the entities of `order`. */
  function Obituaries(order: seq<Entity>, stats: map<Entity, CombatStats>, players: set<Entity>,
                      names: map<Entity, string>, isTurn: bool): seq<string>
    requires forall e :: e in order ==> e in stats
  {
    if order == [] then []
    else
      var e := order[|order| - 1];
      Obituaries(order[..|order| - 1], stats, players, names, isTurn) + Obituary(e, stats, players, names, isTurn)
  }

  /** An entity is removed exactly when it is listed, out of hit points and
      not the player; so the player is never removed, however dead. */
  lemma {:induction false} DeadExactly(order: seq<Entity>, stats: map<Entity, CombatStats>, players: set<Entity>)
    requires forall e :: e in order ==> e in stats
    ensures forall e :: e in Dead(order, stats, players) <==> e in order && stats[e].hp <= 0 && e !in players
  {
    if order != [] {
      var init := order[..|order| - 1];
      assert forall x :: x in order <==> x in init || x == order[|order| - 1];
      DeadExactly(init, stats, players);
    }
  }

  /** Every line logged is the death of a removed, named entity or, during a
      turn, the player's: "<name> is dead" or "You are dead"; a player still
      standing or dead outside a turn logs nothing. */
  lemma {:induction false} ObituariesAreDeaths(order: seq<Entity>, stats: map<Entity, CombatStats>, players: set<Entity>,
                                               names: map<Entity, string>, isTurn: bool)
    requires forall e :: e in order ==> e in stats
    ensures forall m :: m in Obituaries(order, stats, players, names, isTurn) ==>
      (isTurn && m == "You are dead" && exists p :: p in order && p in players && stats[p].hp <= 0)
      || (exists e :: e in Dead(order, stats, players) && e in names && m == names[e] + " is dead")
  {
    if order != [] {
      var init := order[..|order| - 1];
      var e := order[|order| - 1];
      assert forall x :: x in init ==> x in order;
      assert e in order;
      ObituariesAreDeaths(init, stats, players, names, isTurn);
      DeadExactly(order, stats, players);
      DeadExactly(init, stats, players);
    }
  }

  /** Conversely every death is logged: each removed entity with a Name
      gets "<name> is dead", and a player at zero hit points or below gets
      "You are dead" during a turn. */
  lemma {:induction false} DeathsAreObituaries(order: seq<Entity>, stats: map<Entity, CombatStats>, players: set<Entity>,
                                               names: map<Entity, string>, isTurn: bool)
    requires forall e :: e in order ==> e in stats
    ensures forall e :: e in Dead(order, stats, players) && e in names ==>
      names[e] + " is dead" in Obituaries(order, stats, players, names, isTurn)
    ensures forall p :: isTurn && p in order && p in players && stats[p].hp <= 0 ==>
      "You are dead" in Obituaries(order, stats, players, names, isTurn)
  {
    if order != [] {
      var init := order[..|order| - 1];
      var e := order[|order| - 1];
      assert forall x :: x in order <==> x in init || x == e;
      DeathsAreObituaries(init, stats, players, names, isTurn);
      var before := Obituaries(init, stats, players, names, isTurn);
      var lines := Obituaries(order, stats, players, names, isTurn);
      assert lines == before + Obituary(e, stats, players, names, isTurn);
      assert Dead(order, stats, players) == Dead(init, stats, players) + if stats[e].hp <= 0 && e !in players then [e] else [];
      forall x | x in Dead(order, stats, players) && x in names
        ensures names[x] + " is dead" in lines
      {
        if x in Dead(init, stats, players) {
          assert names[x] + " is dead" in before;
        } else {
          assert x == e;
          assert Obituary(e, stats, players, names, isTurn) == [names[e] + " is dead"];
        }
      }
      forall p | isTurn && p in order && p in players && stats[p].hp <= 0
        ensures "You are dead" in lines
      {
        if p in init {
          assert "You are dead" in before;
        } else {
          assert Obituary(e, stats, players, names, isTurn) == ["You are dead"];
        }
      }
    }
  }

  /** The first loop of delete_the_dead: the victims and the log lines. */
  method CollectDead(entries0: seq<LogEntry>, order: seq<Entity>, stats: map<Entity, CombatStats>, players: set<Entity>,
                     names: map<Entity, string>, isTurn: bool) returns (dead: seq<Entity>, entries: seq<LogEntry>)
    requires forall e :: e in order ==> e in stats
    ensures dead == Dead(order, stats, players)
    ensures entries == AddedAll(entries0, Obituaries(order, stats, players, names, isTurn))
  {
    dead, entries := [], entries0;
    var i := 0;
    while i < |order|
      invariant 0 <= i <= |order|
      invariant dead == Dead(order[..i], stats, players)
      invariant entries == AddedAll(entries0, Obituaries(order[..i], stats, players, names, isTurn))
    {
      var e := order[i];
      assert e in order;
      assert order[..i + 1][..i] == order[..i];
      ghost var msgs := Obituaries(order[..i], stats, players, names, isTurn);
      if stats[e].hp <= 0 {
        if e !in players {
          if e in names {
            var msg := names[e] + " is dead";
            assert (msgs + [msg])[..|msgs + [msg]| - 1] == msgs;
            entries := Added(entries, msg);
          } else {
            assert msgs + [] == msgs;
          }
          dead := dead + [e];
        } else if isTurn {
          assert (msgs + ["You are dead"])[..|msgs + ["You are dead"]| - 1] == msgs;
          entries := Added(entries, "You are dead");
        } else {
          assert msgs + [] == msgs;
        }
      } else {
        assert msgs + [] == msgs;
      }
      i := i + 1;
    }
    assert order[..i] == order;
  }

  /** The second loop of delete_the_dead: each victim deleted in turn. */
  method DeleteAll(w: World, dead: seq<Entity>)
    requires w.Valid()
    modifies w`alive
    ensures w.Valid()
    ensures w.alive == Without(old(w.alive), Elems(dead))
  {
    ghost var alive0 := w.alive;
    WithoutNothing(alive0);
    assert Elems(dead[..0]) == {};
    var i := 0;
    while i < |dead|
      invariant 0 <= i <= |dead|
      invariant w.Valid()
      invariant w.alive == Without(alive0, Elems(dead[..i]))
    {
      assert Elems(dead[..i + 1]) == Elems(dead[..i]) + {dead[i]};
      WithoutGrows(alive0, Elems(dead[..i]), {dead[i]});
      w.DeleteEntities({dead[i]});
      i := i + 1;
    }
    assert dead[..i] == dead;
  }

  /** delete_the_dead. Whether the run state is a turn (RunState::is_turn)
      is passed in. Afterwards exactly the dead non-player entities are gone,
      and the log holds their obituaries in iteration order. */
  method DeleteTheDead(w: World, isTurn: bool)
    requires w.Valid()
    modifies w`alive, w.log`entries
    ensures w.Valid()
    ensures var order := Join(old(w.alive), w.combatStats.Keys);
      && w.alive == Without(old(w.alive), Elems(Dead(order, w.combatStats, w.players)))
      && w.log.entries == AddedAll(old(w.log.entries), Obituaries(order, w.combatStats, w.players, w.names, isTurn))
  {
    var alive, stats, entries0 := w.alive, w.combatStats, w.log.entries;
    var order := Join(alive, stats.Keys);
    var dead, entries := CollectDead(entries0, order, stats, w.players, w.names, isTurn);
    AddedAllInvariant(entries0, Obituaries(order, stats, w.players, w.names, isTurn));
    w.log.entries := entries;
    assert w.log.Valid();
    DeleteAll(w, dead);
    assert alive == old(w.alive) && stats == w.combatStats && dead == Dead(order, stats, w.players);
    assert w.log.entries == entries;
    assert w.grid.Valid() && w.log.Valid() && Distinct(w.alive);
  }
}
