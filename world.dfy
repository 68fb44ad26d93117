/** The entity/facet store (the specs World) with the resources the core
    reads: one storage per facet, keyed by entity. Facets that carry data are
    maps; marker facets are sets. `alive` is the order in which the store
    iterates its live entities, which is also the order of every join. */
module Ecs {
  import opened Components
  import opened Seqs
  import opened GameMap
  import opened GameLogs

  class World {
    var alive: seq<Entity>
    /** Entities marked by Entities::delete: they stay alive, with all their
        facets, until the next World::maintain removes them. */
    var killed: set<Entity>

    var positions: map<Entity, Point>
    var names: map<Entity, string>
    var combatStats: map<Entity, CombatStats>
    /** TakesTurn.time_score (u32). */
    var takesTurn: map<Entity, nat>
    var viewsheds: map<Entity, Viewshed>
    /** Confusion.turns. */
    var confusion: map<Entity, int>
    /** CanMove.time_cost and CanMelee.time_cost. */
    var canMove: map<Entity, nat>
    var canMelee: map<Entity, nat>
    /** InBackpack.owner. */
    var inBackpack: map<Entity, Entity>
    /** ProvidesHealing.heal_amount, InflictsDamage.damage, AreaOfEffect.radius. */
    var providesHealing: map<Entity, int>
    var inflictsDamage: map<Entity, int>
    var areaOfEffect: map<Entity, int>
    var players: set<Entity>
    var monsters: set<Entity>
    var globalTurns: set<Entity>
    var isVisible: set<Entity>
    var items: set<Entity>
    var consumables: set<Entity>

    /** Intent facets. */
    var wantsToMove: map<Entity, Point>
    var wantsToMelee: map<Entity, Entity>
    var wantsToPickUp: map<Entity, WantsToPickUp>
    var wantsToUseItem: map<Entity, WantsToUseItem>
    var wantsToDrop: map<Entity, Entity>
    var wantsToWait: map<Entity, WaitCause>
    var wantsToTakeTurn: set<Entity>
    /** SuffersDamage.amount. */
    var suffersDamage: map<Entity, int>

    /** Resources: GlobalTurnTimeScore, the player's Point and the player's Entity. */
    var globalTurnTimeScore: nat
    var playerPosition: Point
    var playerEntity: Entity
    const grid: Map
    const log: GameLog

    ghost function AliveSet(): set<Entity>
      reads this
    {
      set e | e in alive
    }

    /** Entity::is_alive: a storage lookup or a join finds an entity's
        facets only while it is alive. */
    predicate Live(e: Entity)
      reads this
    {
      e in alive
    }

    /** Each live entity is iterated once, and the map and log resources are
        well formed. */
    ghost predicate Valid()
      reads this`alive, grid, log
    {
      && Distinct(alive)
      && grid.Valid()
      && log.Valid()
    }

    constructor (grid: Map, log: GameLog, playerEntity: Entity, playerPosition: Point)
      requires grid.Valid() && log.Valid()

      ensures this.grid == grid && this.log == log
      ensures this.playerEntity == playerEntity && this.playerPosition == playerPosition
      ensures alive == [] && killed == {} && globalTurnTimeScore == 0
    {
      this.grid := grid;
      this.log := log;
      this.playerEntity := playerEntity;
      this.playerPosition := playerPosition;
      alive := [];
      killed := {};
      positions, names, combatStats, takesTurn, viewsheds := map[], map[], map[], map[], map[];
      confusion, canMove, canMelee, inBackpack := map[], map[], map[], map[];
      providesHealing, inflictsDamage, areaOfEffect := map[], map[], map[];
      players, monsters, globalTurns, isVisible, items, consumables := {}, {}, {}, {}, {}, {};
      wantsToMove, wantsToMelee, wantsToPickUp, wantsToUseItem := map[], map[], map[], map[];
      wantsToDrop, wantsToWait, wantsToTakeTurn, suffersDamage := map[], map[], {}, map[];
      globalTurnTimeScore := 0;
    }

    /** World::delete_entity: the entities die at once and their facets go
        with them. The model leaves the storages as they are, since every
        lookup and join goes through the live sequence and so no longer sees
        the facets of a dead entity. */
    method DeleteEntities(gone: set<Entity>)
      requires Valid()
      modifies this`alive
      ensures Valid()
      ensures alive == Without(old(alive), gone)
      ensures forall e :: Live(e) <==> old(Live(e)) && e !in gone
    {
      WithoutDistinct(alive, gone);
      alive := Without(alive, gone);
    }
  }
}
