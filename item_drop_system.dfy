/** src/systems/inventory/item_drop_system.rs: every drop intent takes its
    item out of the backpack and puts it down where the dropper stands. */
module ItemDropSystem {
  import opened Components
  import opened Seqs
  import opened GameLogs
  import opened Ecs
  import opened InventorySystem

  function DropLine(item: string): string {
    "You dropped the " + item
  }

  /** What one drop unwraps: the dropper's position, the item's backpack
      entry and the item's name (looked up for every dropper, not only the
      player). */
  predicate DropOk(s: Inventory, dropper: Entity, item: Entity, names: map<Entity, string>) {
    dropper in s.positions && item in s.backpack && item in names
  }

  /** One drop. */
  function DropStep(s: Inventory, dropper: Entity, item: Entity, player: Entity, names: map<Entity, string>): Inventory
    requires DropOk(s, dropper, item, names)
  {
    Inventory(s.positions[item := s.positions[dropper]], s.backpack - {item},
              if dropper == player then Added(s.entries, DropLine(names[item])) else s.entries)
  }

  /** Every drop of `order` can be carried out in its turn: an item already
      dropped earlier in the run is no longer in a backpack. */
  predicate DropsOk(s: Inventory, order: seq<Entity>, wants: map<Entity, Entity>, player: Entity, names: map<Entity, string>)
    decreases |order|, 0
  {
    && (forall e :: e in order ==> e in wants)
    && (order != [] ==>
      var e := order[|order| - 1];
      && DropsOk(s, order[..|order| - 1], wants, player, names)
      && DropOk(Dropped(s, order[..|order| - 1], wants, player, names), e, wants[e], names))
  }

  /** The inventory after every drop of `order`, one after the other. */
  function Dropped(s: Inventory, order: seq<Entity>, wants: map<Entity, Entity>, player: Entity,
                   names: map<Entity, string>): Inventory
    requires DropsOk(s, order, wants, player, names)
    decreases |order|, 1
  {
    if order == [] then s
    else
      var e := order[|order| - 1];
      DropStep(Dropped(s, order[..|order| - 1], wants, player, names), e, wants[e], player, names)
  }

  /** A drop puts the item where the dropper stands and empties its backpack
      entry; every other position and backpack entry stays. Only the
      player's drops are logged. */
  lemma DropStepProperties(s: Inventory, dropper: Entity, item: Entity, player: Entity, names: map<Entity, string>)
    requires DropOk(s, dropper, item, names)
    ensures var r := DropStep(s, dropper, item, player, names);
      && r.positions[item] == s.positions[dropper] && item !in r.backpack
      && (forall e :: e != item ==> (e in r.positions <==> e in s.positions) && (e in r.backpack <==> e in s.backpack))
      && (forall e :: e != item && e in s.positions ==> r.positions[e] == s.positions[e])
      && (forall e :: e != item && e in s.backpack ==> r.backpack[e] == s.backpack[e])
      && (dropper != player ==> r.entries == s.entries)
  {
  }

  /** Drops of distinct items that all sit in backpacks, by droppers that
      stand on the map and are not themselves dropped, can all be carried
      out. */
  lemma {:induction false} DistinctDropsOk(s: Inventory, order: seq<Entity>, wants: map<Entity, Entity>, player: Entity,
                                           names: map<Entity, string>)
    requires forall e :: e in order ==> e in wants && wants[e] in s.backpack && wants[e] in names && e in s.positions
    requires forall i, j :: 0 <= i < j < |order| ==> wants[order[i]] != wants[order[j]]
    ensures DropsOk(s, order, wants, player, names)
    ensures forall x :: x in s.backpack && (forall e :: e in order ==> wants[e] != x) ==>
      x in Dropped(s, order, wants, player, names).backpack
    ensures forall e :: e in s.positions ==> e in Dropped(s, order, wants, player, names).positions
  {
    if order != [] {
      var init, e := order[..|order| - 1], order[|order| - 1];
      assert forall x :: x in init ==> x in order;
      assert forall i, j :: 0 <= i < j < |init| ==> init[i] == order[i] && init[j] == order[j];
      DistinctDropsOk(s, init, wants, player, names);
      assert e in order;
      forall x | x in init ensures wants[x] != wants[e] {
        var i :| 0 <= i < |init| && init[i] == x;
        assert order[i] == x && order[|order| - 1] == e;
      }
      var prev := Dropped(s, init, wants, player, names);
      assert wants[e] in prev.backpack;
      assert e in prev.positions;
      assert DropsOk(s, order, wants, player, names);
    }
  }

  /** Picking an item up and then dropping it, by the same actor: the item
      lies where the actor stands and is in no backpack, and nothing else
      about positions or backpacks has changed. */
  lemma PickUpThenDrop(s: Inventory, actor: Entity, item: Entity, player: Entity, names: map<Entity, string>)
    requires actor in s.positions && actor != item && item in names
    ensures var up := PickUpStep(s, WantsToPickUp(actor, item), player, names);
      && DropOk(up, actor, item, names)
      && var down := DropStep(up, actor, item, player, names);
      && down.positions == s.positions[item := s.positions[actor]]
      && down.backpack == s.backpack - {item}
  {
    var up := PickUpStep(s, WantsToPickUp(actor, item), player, names);
    var down := DropStep(up, actor, item, player, names);
    assert down.positions == s.positions[item := s.positions[actor]];
    assert down.backpack == s.backpack - {item};
  }

  /** The drop loop. */
  method DropAll(s0: Inventory, order: seq<Entity>, wants: map<Entity, Entity>, player: Entity,
                 names: map<Entity, string>) returns (s: Inventory)
    requires DropsOk(s0, order, wants, player, names)
    ensures s == Dropped(s0, order, wants, player, names)
  {
    s := s0;
    var i := 0;
    while i < |order|
      invariant 0 <= i <= |order|
      invariant DropsOk(s0, order[..i], wants, player, names)
      invariant s == Dropped(s0, order[..i], wants, player, names)
    {
      var entity := order[i];
      var toDrop := wants[entity];
      assert DropsOk(s0, order[..i + 1], wants, player, names) by {
        DropsOkPrefix(s0, order, wants, player, names, i + 1);
      }
      assert order[..i + 1][..i] == order[..i];
      var dropPosition := s.positions[entity];
      var positions := s.positions[toDrop := dropPosition];
      var backpack := s.backpack - {toDrop};
      var name := names[toDrop];
      var entries := s.entries;
      if entity == player {
        entries := Added(entries, DropLine(name));
      }
      s := Inventory(positions, backpack, entries);
      i := i + 1;
    }
    assert order[..i] == order;
  }

  lemma {:induction false} DropsOkPrefix(s: Inventory, order: seq<Entity>, wants: map<Entity, Entity>, player: Entity,
                                         names: map<Entity, string>, n: nat)
    requires DropsOk(s, order, wants, player, names) && n <= |order|
    ensures DropsOk(s, order[..n], wants, player, names)
    decreases |order|
  {
    if n < |order| {
      assert order[..|order| - 1][..n] == order[..n];
      DropsOkPrefix(s, order[..|order| - 1], wants, player, names, n);
    } else {
      assert order[..n] == order;
    }
  }

  /** ItemDropSystem::run: every live drop intent is carried out in turn;
      the items must be alive, as re-inserting their position demands. Then
      every WantsToDrop is removed. */
  method Run(w: World)
    requires w.Valid()
    requires forall e :: e in Join(w.alive, w.wantsToDrop.Keys) ==> w.Live(w.wantsToDrop[e])
    requires DropsOk(Inventory(w.positions, w.inBackpack, w.log.entries), Join(w.alive, w.wantsToDrop.Keys), w.wantsToDrop,
                     w.playerEntity, Restrict(w.names, Elems(w.alive)))
    modifies w`positions, w`inBackpack, w`wantsToDrop, w.log`entries
    ensures w.Valid()
    ensures Inventory(w.positions, w.inBackpack, w.log.entries)
      == old(Dropped(Inventory(w.positions, w.inBackpack, w.log.entries), Join(w.alive, w.wantsToDrop.Keys),
                     w.wantsToDrop, w.playerEntity, Restrict(w.names, Elems(w.alive))))
    ensures w.wantsToDrop == map[]
  {
    var s0 := Inventory(w.positions, w.inBackpack, w.log.entries);
    var order := Join(w.alive, w.wantsToDrop.Keys);
    var names := Restrict(w.names, Elems(w.alive));
    var s := DropAll(s0, order, w.wantsToDrop, w.playerEntity, names);
    DroppedCounts(s0, order, w.wantsToDrop, w.playerEntity, names);
    w.positions, w.inBackpack := s.positions, s.backpack;
    w.log.entries := s.entries;
    w.wantsToDrop := map[];
    assert w.grid.Valid() && w.log.Valid() && Distinct(w.alive);
  }

  /** Every log entry keeps a positive count. */
  lemma {:induction false} DroppedCounts(s: Inventory, order: seq<Entity>, wants: map<Entity, Entity>, player: Entity,
                                         names: map<Entity, string>)
    requires DropsOk(s, order, wants, player, names) && CountsPositive(s.entries)
    ensures CountsPositive(Dropped(s, order, wants, player, names).entries)
  {
    if order != [] {
      var init := order[..|order| - 1];
      DroppedCounts(s, init, wants, player, names);
      var prev := Dropped(s, init, wants, player, names);
      AddedAllInvariant(prev.entries, [DropLine(names[wants[order[|order| - 1]]])]);
      assert AddedAll(prev.entries, [DropLine(names[wants[order[|order| - 1]]])])
        == Added(prev.entries, DropLine(names[wants[order[|order| - 1]]])) by {
        assert [DropLine(names[wants[order[|order| - 1]]])][..0] == [];
      }
    }
  }
}
