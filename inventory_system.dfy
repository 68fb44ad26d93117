/** src/systems/inventory_system.rs: every pick-up intent moves its item from
    the ground into the collector's backpack. */
module InventorySystem {
  import opened Components
  import opened Seqs
  import opened GameLogs
  import opened Ecs

  /** The storages that picking up and dropping change. */
  datatype Inventory = Inventory(positions: map<Entity, Point>, backpack: map<Entity, Entity>, entries: seq<LogEntry>)

  function PickUpLine(item: string): string {
    "You picked up " + item + "!"
  }

  /** One pick-up: the item leaves the map and enters the backpack of its
      collector; when that is the player a new count-1 entry goes in front
      of the log, without the collapsing that GameLog::add does. */
  function PickUpStep(s: Inventory, p: WantsToPickUp, player: Entity, names: map<Entity, string>): Inventory
    requires p.collectedBy == player ==> p.item in names
  {
    Inventory(s.positions - {p.item}, s.backpack[p.item := p.collectedBy],
              if p.collectedBy == player then [LogEntry(PickUpLine(names[p.item]), 1)] + s.entries else s.entries)
  }

  /** The player's pick-ups can name their items. */
  predicate PickUpsOk(order: seq<Entity>, wants: map<Entity, WantsToPickUp>, player: Entity, names: map<Entity, string>) {
    forall e :: e in order ==> e in wants && (wants[e].collectedBy == player ==> wants[e].item in names)
  }

  /** The inventory after every pick-up of `order`, one after the other. */
  function PickedUp(s: Inventory, order: seq<Entity>, wants: map<Entity, WantsToPickUp>, player: Entity,
                    names: map<Entity, string>): Inventory
    requires PickUpsOk(order, wants, player, names)
  {
    if order == [] then s
    else
      var e := order[|order| - 1];
      assert e in order;
      PickUpStep(PickedUp(s, order[..|order| - 1], wants, player, names), wants[e], player, names)
  }

  /** The items that `order` picks up. */
  function ItemsOf(order: seq<Entity>, wants: map<Entity, WantsToPickUp>): set<Entity>
    requires forall e :: e in order ==> e in wants
  {
    set e | e in order :: wants[e].item
  }

  /** The entries the player's pick-ups put in front of the log, newest
      first. */
  function PickUpEntries(order: seq<Entity>, wants: map<Entity, WantsToPickUp>, player: Entity,
                         names: map<Entity, string>): seq<LogEntry>
    requires PickUpsOk(order, wants, player, names)
  {
    if order == [] then []
    else
      var e := order[|order| - 1];
      assert e in order;
      (if wants[e].collectedBy == player then [LogEntry(PickUpLine(names[wants[e].item]), 1)] else [])
        + PickUpEntries(order[..|order| - 1], wants, player, names)
  }

  /** Exactly the picked-up items leave the map; every other position stays. */
  lemma {:induction false} PickedUpPositions(s: Inventory, order: seq<Entity>, wants: map<Entity, WantsToPickUp>,
                                             player: Entity, names: map<Entity, string>)
    requires PickUpsOk(order, wants, player, names)
    ensures PickedUp(s, order, wants, player, names).positions == s.positions - ItemsOf(order, wants)
  {
    if order != [] {
      var init, e := order[..|order| - 1], order[|order| - 1];
      assert e in order;
      PickedUpPositions(s, init, wants, player, names);
      ItemsOfSnoc(order, wants);
    }
  }

  /** No later pick-up of `order` than the k-th takes the same item. */
  predicate LastToPickUp(order: seq<Entity>, wants: map<Entity, WantsToPickUp>, k: nat)
    requires k < |order| && forall e :: e in order ==> e in wants
  {
    forall j :: k < j < |order| ==> wants[order[j]].item != wants[order[k]].item
  }

  /** The picked-up items join the backpack; no other backpack entry
      changes. */
  lemma {:induction false} PickedUpBackpack(s: Inventory, order: seq<Entity>, wants: map<Entity, WantsToPickUp>,
                                            player: Entity, names: map<Entity, string>)
    requires PickUpsOk(order, wants, player, names)
    ensures var r := PickedUp(s, order, wants, player, names).backpack;
      && r.Keys == s.backpack.Keys + ItemsOf(order, wants)
      && (forall i :: i in s.backpack && i !in ItemsOf(order, wants) ==> r[i] == s.backpack[i])
  {
    if order != [] {
      var init, e := order[..|order| - 1], order[|order| - 1];
      PickUpsOkInit(order, wants, player, names);
      PickedUpBackpack(s, init, wants, player, names);
      ItemsOfSnoc(order, wants);
    }
  }

  /** Each picked-up item is in the backpack of the last collector that
      picked it up. */
  lemma {:induction false} PickedUpBackpackLast(s: Inventory, order: seq<Entity>, wants: map<Entity, WantsToPickUp>,
                                                player: Entity, names: map<Entity, string>)
    requires PickUpsOk(order, wants, player, names)
    ensures var r := PickedUp(s, order, wants, player, names).backpack;
      forall k :: 0 <= k < |order| && LastToPickUp(order, wants, k) ==>
        wants[order[k]].item in r && r[wants[order[k]].item] == wants[order[k]].collectedBy
  {
    if order != [] {
      var init, e := order[..|order| - 1], order[|order| - 1];
      PickUpsOkInit(order, wants, player, names);
      PickedUpBackpackLast(s, init, wants, player, names);
      var m := PickedUp(s, init, wants, player, names).backpack;
      var r := PickedUp(s, order, wants, player, names).backpack;
      assert r == m[wants[e].item := wants[e].collectedBy];
      forall k | 0 <= k < |order| - 1 && LastToPickUp(order, wants, k)
        ensures wants[order[k]].item in r && r[wants[order[k]].item] == wants[order[k]].collectedBy
      {
        assert init[k] == order[k];
        assert LastToPickUp(init, wants, k) by {
          forall j | k < j < |init| ensures wants[init[j]].item != wants[init[k]].item {
            assert init[j] == order[j];
          }
        }
        assert wants[e].item != wants[order[k]].item by { assert order[|order| - 1] == e; }
      }
    }
  }

  lemma PickUpsOkInit(order: seq<Entity>, wants: map<Entity, WantsToPickUp>, player: Entity, names: map<Entity, string>)
    requires order != [] && PickUpsOk(order, wants, player, names)
    ensures PickUpsOk(order[..|order| - 1], wants, player, names)
    ensures order[|order| - 1] in wants
  {
    assert order[|order| - 1] in order;
    forall x | x in order[..|order| - 1] ensures x in order {
    }
  }

  /** The items of a non-empty order: those of all but the last, and the
      last one's. */
  lemma ItemsOfSnoc(order: seq<Entity>, wants: map<Entity, WantsToPickUp>)
    requires order != [] && forall e :: e in order ==> e in wants
    ensures ItemsOf(order, wants) == ItemsOf(order[..|order| - 1], wants) + {wants[order[|order| - 1]].item}
  {
    var init, e := order[..|order| - 1], order[|order| - 1];
    assert forall x :: x in order <==> x in init || x == e;
  }

  /** The player's pick-ups come in front of the old entries, newest first,
      each with count 1, and the old entries are left as they were. */
  lemma {:induction false} PickedUpLog(s: Inventory, order: seq<Entity>, wants: map<Entity, WantsToPickUp>,
                                       player: Entity, names: map<Entity, string>)
    requires PickUpsOk(order, wants, player, names)
    ensures PickedUp(s, order, wants, player, names).entries == PickUpEntries(order, wants, player, names) + s.entries
    ensures forall k :: 0 <= k < |PickUpEntries(order, wants, player, names)| ==>
      PickUpEntries(order, wants, player, names)[k].count == 1
  {
    if order != [] {
      var init, e := order[..|order| - 1], order[|order| - 1];
      assert e in order;
      PickedUpLog(s, init, wants, player, names);
    }
  }

  /** Picking up two items of the same name logs two lines: no collapse. */
  lemma TwoPotionsTwoLines()
    ensures var names := map[5 := "Health Potion", 6 := "Health Potion"];
      var wants := map[1 := WantsToPickUp(1, 5), 2 := WantsToPickUp(1, 6)];
      PickedUp(Inventory(map[], map[], []), [1, 2], wants, 1, names).entries
        == [LogEntry(PickUpLine("Health Potion"), 1), LogEntry(PickUpLine("Health Potion"), 1)]
  {
    var names := map[5 := "Health Potion", 6 := "Health Potion"];
    var wants := map[1 := WantsToPickUp(1, 5), 2 := WantsToPickUp(1, 6)];
    assert [1, 2][..1] == [1] && [1][..0] == [];
    PickedUpLog(Inventory(map[], map[], []), [1, 2], wants, 1, names);
    assert PickUpEntries([1], wants, 1, names) == [LogEntry(PickUpLine("Health Potion"), 1)] + [];
  }

  /** The inventory loop. */
  method PickUpAll(s0: Inventory, order: seq<Entity>, wants: map<Entity, WantsToPickUp>, player: Entity,
                   names: map<Entity, string>) returns (s: Inventory)
    requires PickUpsOk(order, wants, player, names)
    ensures s == PickedUp(s0, order, wants, player, names)
  {
    s := s0;
    var i := 0;
    while i < |order|
      invariant 0 <= i <= |order|
      invariant s == PickedUp(s0, order[..i], wants, player, names)
    {
      var pickUp := wants[order[i]];
      assert order[i] in order;
      assert order[..i + 1][..i] == order[..i];
      var positions := s.positions - {pickUp.item};
      var backpack := s.backpack[pickUp.item := pickUp.collectedBy];
      var entries := s.entries;
      if pickUp.collectedBy == player {
        var itemName := names[pickUp.item];
        entries := [LogEntry(PickUpLine(itemName), 1)] + entries;
      }
      s := Inventory(positions, backpack, entries);
      i := i + 1;
    }
    assert order[..i] == order;
  }

  /** Entries of count 1 added in front keep every count positive. */
  lemma PrependKeepsCounts(newer: seq<LogEntry>, entries: seq<LogEntry>)
    requires forall k :: 0 <= k < |newer| ==> newer[k].count == 1
    requires CountsPositive(entries)
    ensures CountsPositive(newer + entries)
  {
    assert forall k :: |newer| <= k < |newer + entries| ==> (newer + entries)[k] == entries[k - |newer|];
  }

  /** ItemCollectionSystem::run: every live pick-up intent is carried
      out; the items must be alive, as the backpack insertion demands, and
      the player's items named. Then every WantsToPickUp is removed. */
  method Run(w: World)
    requires w.Valid()
    requires forall e :: e in Join(w.alive, w.wantsToPickUp.Keys) ==> w.Live(w.wantsToPickUp[e].item)
    requires PickUpsOk(Join(w.alive, w.wantsToPickUp.Keys), w.wantsToPickUp, w.playerEntity, Restrict(w.names, Elems(w.alive)))
    modifies w`positions, w`inBackpack, w`wantsToPickUp, w.log`entries
    ensures w.Valid()
    ensures Inventory(w.positions, w.inBackpack, w.log.entries)
      == old(PickedUp(Inventory(w.positions, w.inBackpack, w.log.entries), Join(w.alive, w.wantsToPickUp.Keys),
                      w.wantsToPickUp, w.playerEntity, Restrict(w.names, Elems(w.alive))))
    ensures w.wantsToPickUp == map[]
  {
    var s0 := Inventory(w.positions, w.inBackpack, w.log.entries);
    var order := Join(w.alive, w.wantsToPickUp.Keys);
    var names := Restrict(w.names, Elems(w.alive));
    var s := PickUpAll(s0, order, w.wantsToPickUp, w.playerEntity, names);
    PickedUpLog(s0, order, w.wantsToPickUp, w.playerEntity, names);
    PrependKeepsCounts(PickUpEntries(order, w.wantsToPickUp, w.playerEntity, names), s0.entries);
    w.positions, w.inBackpack := s.positions, s.backpack;
    w.log.entries := s.entries;
    w.wantsToPickUp := map[];
    assert w.grid.Valid() && w.log.Valid() && Distinct(w.alive);
  }
}
