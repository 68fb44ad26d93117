/** Facet (component) shapes of the entity store, as declared in
    src/components/mod.rs and src/components/intents.rs.
    Marker facets (Player, Monster, Item, ...) carry no data and are kept
    as sets of entities in the store; here are the facets that carry data. */
module Components {

  /** An entity is an opaque identity; the store decides which facets it has. */
  type Entity = nat

  datatype Option<T> = None | Some(value: T)

  /** rltk::Point, also the shape of the Position facet (two i32 coordinates). */
  datatype Point = Point(x: int, y: int)

  datatype CombatStats = CombatStats(maxHp: int, hp: int, defense: int, power: int)

  /** visible_tiles is the last field-of-view result; dirty asks for a recompute. */
  datatype Viewshed = Viewshed(visibleTiles: seq<Point>, range: int, dirty: bool)

  datatype WaitCause = Choice | Confusion | Stun

  datatype WantsToPickUp = WantsToPickUp(collectedBy: Entity, item: Entity)

  datatype WantsToUseItem = WantsToUseItem(item: Entity, target: Option<Point>)
}
