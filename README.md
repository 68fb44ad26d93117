# rust-roguelike core, modelled in Dafny

This project models the turn-scheduling and action-resolution core of a
small turn-based roguelike written in Rust on top of the `specs` entity
component system and the `rltk` console library.

- **Scheduling.** Each actor carries a time score. The turn decider sorts
  the actors by score and marks the batch that acts next with
  `WantsToTakeTurn`. That batch is:
  - the first actor alone, when it is the world clock (`GlobalTurn`), the
    player or visible to the player;
  - otherwise, the run of hidden monsters before the first such actor.
- **Global turn system.** It rebases all scores once the lowest passes
  1000. When the clock actor takes its turn, it advances the clock by 100
  and confusion wears off.
- **Intents.** The batch's actors post intents: the player's come from the
  keyboard, the monsters' from the monster AI. The systems then consume
  them in a fixed order:
  - wait;
  - movement;
  - melee, which produces `SuffersDamage`;
  - item use (healing, area damage, confusion);
  - pickup and drop;
  - damage, then the purge of the dead.
- **Visibility.** The visibility system recomputes dirty viewsheds. For the
  player it also refreshes the visible and revealed flags of the map and
  the set of entities the player can see.
- **Also modelled:**
  - the map's coordinate arithmetic and its carving helpers;
  - the collapsing message log;
  - the camera's screen bounds and wall glyphs;
  - the main menu's selection logic;
  - the console layer indices.

The ECS world is `Ecs.World`, with one field per component storage. A
storage becomes a `map` from entity to component, and a marker storage a
`set`. The live entities are a sequence in creation order, since specs
joins iterate in entity order.

A system becomes a `method Run(w: World, ...)`. Its `modifies` clause names
exactly the storages the system writes. Its `ensures` ties the new state to
a pure function over the old one. That function folds a per-entity step
over the join order, and the properties the game relies on are lemmas
about these functions: scores paid once, the order kept, the log lines
written, round trips, invariants preserved.

Oracles the core calls but does not define are parameters:
- field of view: `fov`;
- the A* path: `path`;
- the dice stream: `dice`, with a cursor;
- whether a save file exists: `saveExists`.

## Model

| member | source | states |
|---|---|---|
| TurnDecider.SortByScoreIsStableSort | src/turn_decider.rs:38-43 | the candidates after `sort_by` on time_score are sorted, a permutation of the join, and keep the join order among equal scores (stable sort) |
| TurnDecider.InsertByScorePermutes | src/turn_decider.rs:39-43 | one insertion step of the sort adds exactly the inserted entity to the multiset |
| TurnDecider.InsertByScoreSorted | src/turn_decider.rs:39-43 | inserting into a sorted list keeps it sorted by score |
| TurnDecider.InsertByScoreBound | src/turn_decider.rs:39-43 | insertion keeps every score at or above a common lower bound |
| TurnDecider.InsertByScoreStable | src/turn_decider.rs:39-43 | an inserted entity lands after every entry of its own score |
| TurnDecider.InsertFrontStable | src/turn_decider.rs:39-43 | an entity scoring below the head goes in front, and when it has score v no other entry does |
| TurnDecider.InsertBehindStable | src/turn_decider.rs:39-43 | an entity going behind the head keeps the head's entries of score v first |
| TurnDecider.WithScoreAppend | src/turn_decider.rs:39-43 | the entities of a given score in a concatenation are those of each part, in order |
| TurnDecider.WithScoreAllAbove | src/turn_decider.rs:39-43 | a list whose scores all exceed v holds no entity of score v |
| TurnDecider.OrdinaryPrefix | src/turn_decider.rs:50-71 | the result is the longest prefix of the list free of global, player and visible entities: a prefix, none special, and the next entry special |
| TurnDecider.BatchShape | src/turn_decider.rs:45-71 | the batch is empty only without candidates, is a prefix of the sorted candidates, is one entity alone when it holds a special one, and no member scores above a candidate left out |
| TurnDecider.AwaitingInputIffPlayerBatch | src/turn_decider.rs:56-81 | decide_turn returns AwaitingInput exactly when the batch is a single player entity, WorldTurn otherwise |
| TurnDecider.TakeBatch | src/turn_decider.rs:45-71 | the loop with its flags and breaks collects exactly SelectBatch (so its second break never fires) and flags the player's turn exactly for a player batch |
| TurnDecider.MarkAll | src/turn_decider.rs:73-75 | the loop marks every batch member |
| TurnDecider.DecideTurn | src/turn_decider.rs:17-82 | WantsToTakeTurn is cleared and then held by exactly the batch; the result is AwaitingInput iff the first sorted candidate is the player |
| GlobalTurnSystem.MinScore | src/systems/global_turn_system.rs:32 | the minimum is the score of some actor and no actor scores below it |
| GlobalTurnSystem.NormalisedProperties | src/systems/global_turn_system.rs:30-40 | above the limit 1000 every actor and the clock drop by the minimum, the new minimum is 0 and the order of any two actors is kept; at or below it nothing changes |
| GlobalTurnSystem.NormalisedKeepsActors | src/systems/global_turn_system.rs:34-40 | normalisation keeps the set of actors holding TakesTurn |
| GlobalTurnSystem.NormalisingSmallMinimumChangesNothing | src/systems/global_turn_system.rs:34 | scores 1200, 1300 and 50 are left alone, since the minimum 50 is within the limit |
| GlobalTurnSystem.TickedProperties | src/systems/global_turn_system.rs:57-67 | a confused actor that takes turns loses exactly one turn and is removed when that leaves 0 or less; other counters stay |
| GlobalTurnSystem.AdvancedProperties | src/systems/global_turn_system.rs:44-46 | each global actor that wants a turn gains exactly 100; no other score moves |
| GlobalTurnSystem.RebaseScores | src/systems/global_turn_system.rs:35-37 | the loop lowers each listed score by the minimum |
| GlobalTurnSystem.AdvanceScores | src/systems/global_turn_system.rs:42-52 | the loop advances each global mover by 100, sets the clock to the last mover's score and reports whether a turn was taken |
| GlobalTurnSystem.TickCounters | src/systems/global_turn_system.rs:55-67 | the loop decrements every ticker and then removes the collected expired counters |
| GlobalTurnSystem.GlobalTurnProperties | src/systems/global_turn_system.rs:20-69 | over a run each score is its normalised score plus 100 exactly for movers, the clock ends on the last mover's new score, and confusion ticks only when some global actor moved |
| GlobalTurnSystem.RunOn | src/systems/global_turn_system.rs:20-69 | the body over the three join orders computes GlobalTurn |
| GlobalTurnSystem.Run | src/systems/global_turn_system.rs:20-69 | the system writes TakesTurn, the clock and Confusion as GlobalTurn of the old state, over the joins in entity order |
| WaitSystem.WaitedProperties | src/systems/wait_system.rs:30-33 | each waiter's score becomes exactly clock + 1, whatever it was; every other score stays |
| WaitSystem.WaitingSetsScoreToClockPlusOne | src/systems/wait_system.rs:30-33 | at clock 50 actors at 40 and 60 both end at 51: the score is assigned, not increased |
| WaitSystem.SetScores | src/systems/wait_system.rs:32-33 | the loop sets every waiter's score to the target |
| WaitSystem.Run | src/systems/wait_system.rs:20-59 | TakesTurn becomes Waited over the live waiters with the clock + 1 read before the loop, and WantsToWait is emptied |
| GameMap.XyIdxIsPoint2dToIndex | src/map.rs:25-83 | xy_idx and point2d_to_index compute the same row-major index y * width + x |
| GameMap.RowMajorUnique | src/map.rs:81-83 | two points of a row of width w with the same row-major index are the same point |
| GameMap.IndexRoundTrip | src/map.rs:81-94 | index_to_point2d undoes point2d_to_index on every in-bounds point (with Rust's truncating `/` and `%`) |
| GameMap.PointRoundTrip | src/map.rs:81-94 | every valid index maps to an in-bounds point whose index is that index again |
| GameMap.QuotientBelow | src/map.rs:85-90 | the row of a valid index lies in 0..height |
| GameMap.TruncMatchesEuclid | src/map.rs:85-90 | Rust's truncating `/` and `%` agree with the Euclidean ones on non-negative operands |
| GameMap.InBoundsIsValid | src/map.rs:57-94 | an in-bounds point has a valid index |
| GameMap.ValidIsNotInBounds | src/map.rs:57-94 | a valid index need not be in bounds: (3, 0) on a 3 by 2 map is index 3, the start of row 1 |
| GameMap.Map.constructor | src/map.rs:68-77 | a new map has width * height cells, all of the given tile, none revealed or visible, and no rooms |
| GameMap.Map.Set | src/map.rs:29-32 | only the tile at xy_idx changes, to the given tile |
| GameMap.Map.SafeSet | src/map.rs:34-38 | the tile changes on a valid index and nothing changes otherwise |
| GameMap.Map.SafeGet | src/map.rs:47-55 | Some exactly on valid indices, holding the tile there |
| GameMap.IsOpaqueIffWall | src/map.rs:98-100 | a cell is opaque exactly when it is a wall, that is not a floor |
| GameMap.ApplyHorizontalTunnel | src/map.rs:166-170 | Floor on row y from min(x1,x2) to max(x1,x2) (in row-major order); every other tile stays |
| GameMap.ApplyVerticalTunnel | src/map.rs:172-176 | Floor in column x from min(y1,y2) to max(y1,y2) where the index is valid; every other tile stays |
| GameMap.ApplyRoomToMap | src/map.rs:158-164 | Floor on x in (x1, x2] and y in (y1, y2]; every other tile stays |
| GameMap.HorizontalTunnelCells | src/map.rs:166-170 | on the grid, a tunnel with in-row ends carves exactly the points of row y between the ends |
| GameMap.VerticalTunnelCells | src/map.rs:172-176 | on the grid, a tunnel in an in-bounds column carves exactly the points of column x between the ends |
| GameMap.RoomCells | src/map.rs:158-164 | on the grid, a room inside the row carves exactly the points with x in (x1, x2] and y in (y1, y2] |
| GameLogs.AddRepeatCollapses | src/game_log.rs:25-38 | adding the newest message again bumps its count by one and leaves length and older entries alone |
| GameLogs.AddNewPrepends | src/game_log.rs:25-45 | any other message becomes a new front entry of count 1 and the older entries shift back unchanged |
| GameLogs.AddedAllInvariant | src/game_log.rs:25-45 | over any messages, counts stay at least 1, the log grows by at most one entry per message, and the newest entry holds the last message |
| GameLogs.AddedAllAppend | src/game_log.rs:25-38 | adding two runs of messages one after the other is adding their concatenation |
| GameLogs.ClampedIndex | src/game_log.rs:47-53 | the moved display index stays in [0, len - 1] on a non-empty log, is exact inside, and saturates at 0 and at len - 1 |
| GameLogs.FormattedMessageShowsCount | src/game_log.rs:57-63 | a count-1 entry shows its bare message; any other shows the message, " (x", the decimal count (which reads back) and ")" |
| GameLogs.GameLog.NewWithFirstLog | src/game_log.rs:15-23 | one entry of count 1 holding the first message, display index 0 |
| GameLogs.GameLog.Add | src/game_log.rs:25-38 | the entries become Added of the old entries, keeping every count positive |
| GameLogs.GameLog.AddNewEntry | src/game_log.rs:40-45 | a count-1 entry is put in front of the old entries |
| GameLogs.GameLog.MoveIndex | src/game_log.rs:47-53 | the display index becomes the clamped index |
| Strings.NatToStringRoundTrip | src/game_log.rs:61 | the decimal digits of a count (as `format!` writes them) read back to the count |
| Strings.NatToStringInjective | src/game_log.rs:61 | different counts format differently |
| MovementSystem.Step | src/systems/movement_system.rs:41-63 | one step keeps the blocked vector's length and the key sets of scores, positions and viewsheds |
| MovementSystem.Moved | src/systems/movement_system.rs:40-64 | a run of steps keeps the blocked vector's length and the key sets |
| MovementSystem.StepProperties | src/systems/movement_system.rs:41-63 | the mover pays its speed; a blocked destination changes nothing else; a free one moves the mover, dirties its view, frees the old cell, blocks the new one for a monster and moves the player point for the player |
| MovementSystem.MovedScores | src/systems/movement_system.rs:40-41 | every mover pays its speed exactly once, blocked or not; other scores stay |
| MovementSystem.MovedStayOrArrive | src/systems/movement_system.rs:40-64 | non-movers keep position and view, and each mover ends where it stood or on its destination |
| MovementSystem.StepStayOrArrive | src/systems/movement_system.rs:41-63 | one step moves only its mover, which ends where it stood or on its destination, and touches only the mover's view |
| MovementSystem.SecondMonsterIsBlocked | src/systems/movement_system.rs:47-59 | two monsters aiming at one free cell: the first in entity order gets it and blocks it, the second stays, both pay |
| MovementSystem.MoveOne | src/systems/movement_system.rs:41-63 | the loop body computes Step and moves no other entity |
| MovementSystem.MoveAll | src/systems/movement_system.rs:40-64 | the loop computes Moved over the join order |
| MovementSystem.RunOn | src/systems/movement_system.rs:40-64 | the join over WantsToMove, TakesTurn, Position, Viewshed and CanMove, then the loop |
| MovementSystem.Run | src/systems/movement_system.rs:27-67 | scores, positions, viewsheds, blocked and the player point become Moved of the old state, and WantsToMove is emptied |
| MeleeCombatSystem.Damage | src/systems/melee_combat_system.rs:51 | a blow's damage is never negative, is 0 exactly when power does not exceed defence, and is power minus defence otherwise |
| MeleeCombatSystem.ChargedProperties | src/systems/melee_combat_system.rs:36-37 | each attacker pays its CanMelee cost exactly once, alive or not; other scores stay |
| MeleeCombatSystem.SufferedKeys | src/systems/melee_combat_system.rs:74-76 | an entity suffers damage after the run exactly when it already did or some blow got through to it |
| MeleeCombatSystem.SufferedIsLastBlow | src/systems/melee_combat_system.rs:74-76 | the amount an entity suffers is that of the last blow to get through: insert replaces, it does not add |
| MeleeCombatSystem.SufferedUntouched | src/systems/melee_combat_system.rs:53-76 | an entity no blow got through to keeps its amount |
| MeleeCombatSystem.BlowMessageShape | src/systems/melee_combat_system.rs:53-63 | the logged line is "<a> is unable to hurt <t>." when power does not exceed defence, else "<a> hits <t> for <n> hp." with n = power - defence in decimal |
| MeleeCombatSystem.MessagesCount | src/systems/melee_combat_system.rs:39-63 | one line per attacker that is alive and faces a live target; the others log nothing |
| MeleeCombatSystem.OrcHitsPlayer | src/systems/melee_combat_system.rs:51-76 | power 5 against defence 2: the target is to suffer 3 and the log reads "Orc hits Player for 3 hp." |
| MeleeCombatSystem.OrcBlowText | src/systems/melee_combat_system.rs:58-72 | a blow of 3 from the orc on the player reads "Orc hits Player for 3 hp." |
| MeleeCombatSystem.AttackStep | src/systems/melee_combat_system.rs:37-77 | one iteration keeps the set of actors with a score |
| MeleeCombatSystem.Attacked | src/systems/melee_combat_system.rs:36-78 | the loop keeps the set of actors with a score |
| MeleeCombatSystem.AttackedScores | src/systems/melee_combat_system.rs:36-37 | the loop's scores are Charged: one cost per attacker |
| MeleeCombatSystem.AttackedSuffers | src/systems/melee_combat_system.rs:36-78 | the loop's damage amounts are Suffered |
| MeleeCombatSystem.AttackedLog | src/systems/melee_combat_system.rs:36-78 | the log receives exactly the lines of Messages, in iteration order, through GameLog::add |
| MeleeCombatSystem.Attack | src/systems/melee_combat_system.rs:37-77 | the loop body computes AttackStep |
| MeleeCombatSystem.AttackAll | src/systems/melee_combat_system.rs:36-78 | the loop computes Attacked over the join order |
| MeleeCombatSystem.RunOn | src/systems/melee_combat_system.rs:36-78 | over the join, scores are Charged, amounts are Suffered and the log gets Messages |
| MeleeCombatSystem.Run | src/systems/melee_combat_system.rs:23-81 | TakesTurn, SuffersDamage and the log become Charged, Suffered and AddedAll(Messages) of the old state; WantsToMelee is emptied; the unwrapped lookups of the target are required |
| DamageSystem.DamagedProperties | src/systems/damage_system.rs:28-33 | an entity with stats and an amount loses exactly that many hit points and nothing else about it changes; others are untouched |
| DamageSystem.OrcBlowLeavesPlayerStanding | src/systems/damage_system.rs:28-80 | the orc's blow of 3 takes the player from 10 to 7 hit points, so nobody is removed or mourned |
| DamageSystem.ApplyDamage | src/systems/damage_system.rs:28-43 | the loop computes Damaged |
| DamageSystem.Run | src/systems/damage_system.rs:19-46 | CombatStats becomes Damaged over the live join of CombatStats and SuffersDamage, and SuffersDamage is emptied |
| DamageSystem.DeadExactly | src/systems/damage_system.rs:61-72 | an entity is a victim exactly when it is listed, at 0 hit points or below, and not the player; the player is never removed |
| DamageSystem.ObituariesAreDeaths | src/systems/damage_system.rs:61-80 | every logged line is "<name> is dead" for a named victim or, during a turn, "You are dead" for a dead player |
| DamageSystem.DeathsAreObituaries | src/systems/damage_system.rs:61-77 | conversely every removed victim with a name is logged as "<name> is dead", and during a turn a player at zero hit points or below is logged as "You are dead" |
| DamageSystem.CollectDead | src/systems/damage_system.rs:51-81 | the first loop collects exactly Dead and logs exactly Obituaries, in order |
| DamageSystem.DeleteAll | src/systems/damage_system.rs:83-85 | deleting the victims one by one removes exactly them from the live entities |
| DamageSystem.DeleteTheDead | src/systems/damage_system.rs:50-86 | afterwards exactly the dead non-player entities are gone and the log holds their obituaries in iteration order |
| ItemUseSystem.StatTargets | src/systems/inventory/item_use_system.rs:86 | an entity is a stat target exactly when it is a target holding CombatStats |
| ItemUseSystem.Healed | src/systems/inventory/item_use_system.rs:89-102 | healing keeps the set of entities with stats |
| ItemUseSystem.Repeat | src/systems/inventory/item_use_system.rs:90-101 | the heal loop logs the same line once per stat target |
| ItemUseSystem.DamageLines | src/systems/inventory/item_use_system.rs:106-122 | one damage line per stat target |
| ItemUseSystem.ConfuseLines | src/systems/inventory/item_use_system.rs:129-136 | one confusion line per stat target |
| ItemUseSystem.UsedAll | src/systems/inventory/item_use_system.rs:46-144 | the uses keep the set of entities with stats |
| ItemUseSystem.UsedAllCountsPositive | src/systems/inventory/item_use_system.rs:98-134 | through the whole run every log entry keeps a positive count |
| ItemUseSystem.NoPointTargetsThePlayer | src/systems/inventory/item_use_system.rs:51-52 | with no target point the only target is the player, whoever the user |
| ItemUseSystem.PointTargetsItsTile | src/systems/inventory/item_use_system.rs:56-61 | a point without AreaOfEffect targets what stands on that tile |
| ItemUseSystem.BlastContentExactly | src/systems/inventory/item_use_system.rs:62-81 | a blast targets exactly the entities standing on its in-bounds field-of-view tiles |
| ItemUseSystem.HealedCapped | src/systems/inventory/item_use_system.rs:89-92 | every healed target ends at or below max_hp, no other stat changes, and non-targets are untouched |
| ItemUseSystem.HealedOnce | src/systems/inventory/item_use_system.rs:92 | a target listed once ends at min(max_hp, hp + amount) |
| ItemUseSystem.InflictedOverwrites | src/systems/inventory/item_use_system.rs:104-113 | every stat target's SuffersDamage is set to the item's damage, replacing an earlier amount; other entries stay |
| ItemUseSystem.SpentExactly | src/systems/inventory/item_use_system.rs:94-143 | an item is spent exactly when it is consumable and a heal or damage effect reached a target holding CombatStats |
| ItemUseSystem.ConfusionOnlyLogs | src/systems/inventory/item_use_system.rs:125-137 | a confusion item changes no stats and no damage and is never spent: the mobs it collects are not confused |
| ItemUseSystem.OthersUseSilently | src/systems/inventory/item_use_system.rs:96-131 | only the player's uses are logged |
| ItemUseSystem.PlayerDrinksPotion | src/systems/inventory/item_use_system.rs:88-143 | the player drinking a consumable potion of 8 at 25 of 30 hp is healed to 30, logs "You use Health Potion, healing 8 hp." and spends it |
| ItemUseSystem.PotionLine | src/systems/inventory/item_use_system.rs:98 | the heal line for "Health Potion" and 8 reads "You use Health Potion, healing 8 hp." |
| ItemUseSystem.EightText | src/systems/inventory/item_use_system.rs:98 | 8 is formatted as "8" |
| ItemUseSystem.HealTargets | src/systems/inventory/item_use_system.rs:90-101 | the heal loop computes Healed and logs one heal line per target when the player is the user |
| ItemUseSystem.DamageTargets | src/systems/inventory/item_use_system.rs:106-122 | the damage loop computes Inflicted and logs DamageLines when the player is the user |
| ItemUseSystem.ConfuseTargets | src/systems/inventory/item_use_system.rs:125-137 | the confusion loop logs ConfuseLines when the player is the user |
| ItemUseSystem.GatherTargets | src/systems/inventory/item_use_system.rs:50-84 | the target list is built as Targets |
| ItemUseSystem.FilterStatTargets | src/systems/inventory/item_use_system.rs:86 | the filter computes StatTargets |
| ItemUseSystem.HealPhase | src/systems/inventory/item_use_system.rs:88-102 | the heal block computes Healed when the item heals, logs HealPart, and reports used exactly when it heals some target |
| ItemUseSystem.DamagePhase | src/systems/inventory/item_use_system.rs:104-123 | the damage block computes Inflicted when the item damages, logs DamagePart, and reports used exactly when it damages some target |
| ItemUseSystem.ConfusePhase | src/systems/inventory/item_use_system.rs:125-137 | the confusion block logs ConfusePart |
| ItemUseSystem.UseOne | src/systems/inventory/item_use_system.rs:47-143 | the loop body computes UseStep |
| ItemUseSystem.UseAll | src/systems/inventory/item_use_system.rs:46-144 | the loop computes UsedAll over the join order |
| ItemUseSystem.Run | src/systems/inventory/item_use_system.rs:29-147 | stats, SuffersDamage and the log become UsedAll of the old state, the spent items are added to the killed set while every entity stays alive, and WantsToUseItem is emptied |
| InventorySystem.PickedUpPositions | src/systems/inventory_system.rs:29-30 | exactly the picked-up items leave the map; every other position stays |
| InventorySystem.PickedUpBackpack | src/systems/inventory_system.rs:29-33 | the backpack gains exactly the picked-up items; no other backpack entry changes |
| InventorySystem.PickedUpBackpackLast | src/systems/inventory_system.rs:29-33 | each picked-up item is in the backpack of the last collector that picked it up |
| InventorySystem.PickedUpLog | src/systems/inventory_system.rs:35-38 | the player's pick-ups come in front of the old entries, newest first, each a fresh count-1 entry "You picked up <item>!", and the old entries stay |
| InventorySystem.TwoPotionsTwoLines | src/systems/inventory_system.rs:37 | two potions of the same name picked up log two lines: the direct insert does not collapse repeats |
| InventorySystem.PickUpAll | src/systems/inventory_system.rs:29-39 | the loop computes PickedUp |
| InventorySystem.PrependKeepsCounts | src/systems/inventory_system.rs:37 | count-1 entries put in front keep every count positive |
| InventorySystem.Run | src/systems/inventory_system.rs:19-42 | positions, backpacks and the log become PickedUp of the old state, and WantsToPickUp is emptied |
| ItemDropSystem.DropStepProperties | src/systems/inventory/item_drop_system.rs:31-44 | a drop puts the item where the dropper stands and empties its backpack entry; every other position and backpack entry stays; only the player's drops are logged |
| ItemDropSystem.DistinctDropsOk | src/systems/inventory/item_drop_system.rs:30-45 | drops of distinct carried items by droppers on the map can all be carried out, and nothing else leaves a backpack or the map |
| ItemDropSystem.PickUpThenDrop | src/systems/inventory/item_drop_system.rs:31-39 | picking an item up and dropping it again by the same actor leaves it where the actor stands and in no backpack; nothing else changed |
| ItemDropSystem.DropAll | src/systems/inventory/item_drop_system.rs:30-45 | the loop computes Dropped |
| ItemDropSystem.DropsOkPrefix | src/systems/inventory/item_drop_system.rs:30-45 | whenever a run of drops can be carried out, so can each of its prefixes |
| ItemDropSystem.DroppedCounts | src/systems/inventory/item_drop_system.rs:42-44 | through the drops every log entry keeps a positive count |
| ItemDropSystem.Run | src/systems/inventory/item_drop_system.rs:19-48 | positions, backpacks and the log become Dropped of the old state, and WantsToDrop is emptied; the unwrapped lookups are required |
| VisibilitySystem.InBoundsOnly | src/systems/visibility_system.rs:32 | retain keeps exactly the in-bounds points of the field of view, and no more of them |
| VisibilitySystem.PlayerSight | src/systems/visibility_system.rs:34-50 | the player's rebuilt sight keeps the lengths of visible[] and revealed[] |
| VisibilitySystem.Step | src/systems/visibility_system.rs:28-51 | one iteration keeps the set of viewsheds and the lengths of the map flags |
| VisibilitySystem.Sighted | src/systems/visibility_system.rs:27-52 | the loop keeps the set of viewsheds and the lengths of the map flags |
| VisibilitySystem.StepProperties | src/systems/visibility_system.rs:28-51 | a clean viewshed is left alone; a dirty one becomes clean, keeps its range and holds exactly the in-bounds field of view; for the player, a cell is visible iff it is in the new view, revealed iff it was or is in the view, and an entity is visible iff it stands in such a cell; other entities leave the map flags alone |
| VisibilitySystem.SightedViewsheds | src/systems/visibility_system.rs:27-33 | after a run every visited viewshed is clean, every dirty one visited is recomputed from its position, and every other viewshed is unchanged |
| VisibilitySystem.SightedRevealedGrows | src/systems/visibility_system.rs:42-45 | revealed[] only ever gains cells |
| VisibilitySystem.SightedVisibleIsRevealed | src/systems/visibility_system.rs:36-49 | the system keeps every visible cell revealed |
| VisibilitySystem.SightedWithoutPlayer | src/systems/visibility_system.rs:34-35 | without a dirty player view, the map flags and IsVisible are left alone |
| VisibilitySystem.ClearFlags | src/systems/visibility_system.rs:36-38 | the loop clears every visible flag and keeps the length |
| VisibilitySystem.InsertAll | src/systems/visibility_system.rs:46-48 | IsVisible gains exactly the entities listed in the cell |
| VisibilitySystem.OccupantsAdd | src/systems/visibility_system.rs:46-48 | lighting one more cell adds exactly what stands in it to the visible entities |
| VisibilitySystem.ShowTiles | src/systems/visibility_system.rs:42-49 | the loop over the new view computes PlayerSight from cleared flags |
| VisibilitySystem.UpdatePlayerSight | src/systems/visibility_system.rs:36-49 | the player branch (clear, clear, show) computes PlayerSight |
| VisibilitySystem.SightOne | src/systems/visibility_system.rs:28-51 | the loop body computes Step |
| VisibilitySystem.SightAll | src/systems/visibility_system.rs:27-52 | the loop computes Sighted over the join order |
| VisibilitySystem.Run | src/systems/visibility_system.rs:18-53 | viewsheds, visible[], revealed[] and IsVisible become Sighted of the old state over the live join of Viewshed and Position |
| MonsterAiSystem.DecideProperties | src/systems/monster_ai_system.rs:50-92 | a monster waits for Confusion exactly when it is confused; one next to the player attacks the player; one that sees the player takes the path's second cell or waits; a wanderer waits exactly on a 7-sided roll of 1 or less, and otherwise moves at most one cell along an axis |
| MonsterAiSystem.DiagonalIsNotAdjacent | src/systems/monster_ai_system.rs:55-59 | Pythagorean distance below 1.01: a diagonal neighbour (1.41) is not adjacent, a side neighbour and the same cell are |
| MonsterAiSystem.PathStepIsOnMap | src/systems/monster_ai_system.rs:62-70 | a path step whose cell index lies on the map leads to the in-bounds point with that index |
| MonsterAiSystem.StepProperties | src/systems/monster_ai_system.rs:49-93 | one monster posts its decision in exactly one intent storage, touching nothing else, and only a wanderer rolls, twice |
| MonsterAiSystem.DecidedProperties | src/systems/monster_ai_system.rs:49-93 | after a run every monster of the join holds an intent, everyone else's intents are unchanged, each storage gains only join members, and the generator advances by at most 2 rolls per monster |
| MonsterAiSystem.ThreeMonsters | src/systems/monster_ai_system.rs:50-91 | a confused monster waits, one beside the player attacks it, and one far off and blind to the player wanders on a roll of 3 |
| MonsterAiSystem.DecideOne | src/systems/monster_ai_system.rs:50-92 | the loop body computes Step |
| MonsterAiSystem.DecideAll | src/systems/monster_ai_system.rs:49-93 | the loop computes Decided over the join order |
| MonsterAiSystem.Run | src/systems/monster_ai_system.rs:29-94 | WantsToMelee, WantsToMove and WantsToWait and the roll count become Decided of the old state over the live join of Monster, Position, WantsToTakeTurn and Viewshed |
| Player.CommandOf | src/player.rs:11-46 | every move key asks for a move of exactly one cell along an axis |
| Player.KeyMapping | src/player.rs:8-50 | no key, an unmapped key and PageUp/PageDown keep AwaitingInput; I and D open the inventory and drop screens; the move keys, G and W give PlayerTurn; Left/H move by (-1, 0), Right/L by (1, 0), Up/J by (0, -1), Down/K by (0, 1); PageUp scrolls by +1 and PageDown by -1 |
| Player.FirstFighter | src/player.rs:83-95 | a fighter is found exactly when the cell holds one, and the one found precedes every other fighter in the cell |
| Player.OnePlayerMoves | src/player.rs:73-100 | for one player: an invalid target index posts nothing; a cell with a live fighter posts one WantsToMelee on the first such entity and no move; otherwise one WantsToMove to the target point |
| Player.MoveOne | src/player.rs:74-99 | the loop body posts the intent of the outcome and reports the early return exactly when it does not walk |
| Player.MoveAll | src/player.rs:73-100 | the loop over the players, with the early return, computes PlayerMoves |
| Player.TryMovePlayer | src/player.rs:62-101 | WantsToMelee and WantsToMove become PlayerMoves of the old state over the live players with a position |
| Player.FirstItemAt | src/player.rs:119-125 | an item is found exactly when some live item lies at the point, and the one found is such an item |
| Player.FirstItemAtIsFirst | src/player.rs:120-124 | the item found is the first one at the point in entity order |
| Player.FindItem | src/player.rs:119-125 | the search loop with its break computes FirstItemAt |
| Player.GetItemAtPlayer | src/player.rs:110-135 | the first item at the player's position gets a WantsToPickUp on itself collected by the player, and the log is untouched; with no item nothing is posted and the log gets "There is nothing to pick up." |
| Player.PlayerWaits | src/player.rs:57-59 | every player gets a wait (cause Choice), and every other wait stays |
| Player.WaitPlayers | src/player.rs:52-60 | WantsToWait becomes PlayerWaits over the live players |
| Player.PlayerInput | src/player.rs:8-50 | the result is the command's run state; a move, a pick-up, a wait or a scroll does exactly what TryMovePlayer, GetItemAtPlayer, WaitPlayers or GameLog.MoveIndex do, and every other storage stays |
| CameraRenderer.GetScreenBounds | src/gui/camera_renderer.rs:95-108 | the window is exactly the console's width and height, starts half a console (rounded down) before the player and holds the player whenever the console is not empty |
| CameraRenderer.MaskDecodes | src/gui/camera_renderer.rs:116-129 | the mask lies in 0..15 and its bits 0, 1, 2 and 3 are set exactly when the north, south, west and east neighbours are valid, revealed walls |
| CameraRenderer.MaskBits | src/gui/camera_renderer.rs:116-129 | a sum of the distinct flags 1, 2, 4, 8 reads back each flag in its own bit |
| CameraRenderer.WallGlyphShapes | src/gui/camera_renderer.rs:111-150 | the glyph is '#' exactly off the map; on the map walls only north and south draw vertical, only west and east horizontal, none a pillar and all four a cross |
| CameraRenderer.GetWallGlyph | src/gui/camera_renderer.rs:111-164 | the loop over the four neighbours computes the glyph of the summed mask |
| ConsoleIndexes.IndicesShape | src/context/console_index.rs:7-33 | all indices are LAYER_COUNT + 2, the world indices with the base are all of them but the trailing ui and without the base they are the layers alone |
| ConsoleIndexes.GameIndices | src/context/console_index.rs:1-2 | the game's consoles are 0, 1, 2, all distinct, its world consoles 0, 1 and without the base 1 |
| ConsoleIndexes.PushLayers | src/context/console_index.rs:12-14 | the loop appends every layer in order |
| ConsoleIndexes.GetAllIndices | src/context/console_index.rs:7-19 | the vector built is base, layers, ui |
| ConsoleIndexes.GetWorldIndices | src/context/console_index.rs:21-33 | the vector built is the base if asked for, then the layers |
| MainMenuDrawer.MainMenuOutcome | src/gui/main_menu_drawer.rs:11-76 | off the menu the result is NoSelection(NewGame); a selection is made exactly on the menu when Return is pressed, and it is the highlighted entry |
| MainMenuDrawer.UpDownInverse | src/gui/main_menu_drawer.rs:43-67 | Up and Down undo each other on every offered entry |
| MainMenuDrawer.NoSaveSkipsLoadGame | src/gui/main_menu_drawer.rs:48-62 | without a save Up and Down never reach Load Game and swap New Game with Quit |
| MainMenuDrawer.ThreeStepsCycle | src/gui/main_menu_drawer.rs:43-67 | with a save, three presses of Up or of Down come back to the start |
| MainMenuDrawer.MenuKeys | src/gui/main_menu_drawer.rs:38-72 | Escape highlights Quit, Up and Down move the highlight, Return selects it, no key or another key keeps it |
| Ecs.World.constructor | src/main.rs:47-81 | a new world has no live or killed entity, a turn clock of zero and the given map, log, player entity and player position |
| Ecs.World.DeleteEntities | src/systems/damage_system.rs:84-84 | the deleted entities are no longer live, every other live entity stays in order, and no storage changes |

## Left out

- Drawing, text output and mouse input: the drawing half of the camera renderer, `draw_map`, the menu and inventory screens, the tooltips, the console back end and `console_log`. Only the selection and index logic of those files is modelled.
- The particle system and the particle requests the wait, melee and item-use systems post, which are cosmetic and timed in floating point.
- Saving and loading (file I/O and serde), the spawner and the random room-and-corridor generator `new_map_rooms_and_corridors` with its `Rect` helpers; the carving helpers it calls are modelled.
- `rltk::field_of_view`, `rltk::a_star_search`, `DistanceAlg::Pythagoras` and the random number generator are not modelled; field of view, path and die rolls are parameters of the systems that use them, and the distance test is its integer equivalent dx² + dy² ≤ 1.
- `does_save_exist`, `get_char_size` and `RunState::is_turn` are parameters (`saveExists`, the console size, a flag of delete_the_dead).
- The game loop in src/main.rs and src/state.rs (the order in which systems run) is not modelled; each system is modelled on its own. src/state.rs is an older copy whose `RunState` lacks the variants the systems return, and the model follows src/turn_decider.rs and src/player.rs.
- Deletion comes in two kinds in specs, and the model keeps them apart. `World::delete_entity` (src/systems/damage_system.rs:84) kills the entity and drops its components at once; the model removes it from the live sequence, and since every lookup and join goes through that sequence its stale storage entries are never seen. `Entities::delete` (src/systems/inventory/item_use_system.rs:141) only marks the entity; it stays alive, with its components, until the next `World::maintain`. The model records such entities in the world's `killed` set and leaves them alive.
- ItemUseSystem.Run: the spent items are added to `killed` and stay alive with their components; their removal by the next `World::maintain` lies outside the system and is not modelled.
- `World::maintain`, which removes the `killed` entities between frames, belongs to the game loop and is not modelled; nor are the freeing of storage slots and the reuse of entity ids.
- Entity generations and the allocation of new entities are not modelled: entities are integers in creation order.
- Integer widths: `time_score`, the clock, `hp` and the damage amounts are unbounded integers. Rust's `u32` subtraction of global_turn_system.rs panics on underflow, which the model states as the requirement that the clock not lie below the minimum score it is rebased by; no other wrap-around or `as usize` cast is modelled.
- Map::is_valid, used by camera_renderer.rs, is not defined in src/map.rs and is modelled as the index test of Map::is_valid_idx; the one-argument `is_valid_idx(new_idx)` of player.rs is the test that the index lies in 0..width*height.
- The `blocked` and `tile_content` vectors and `is_blocked` that the systems use are not declared in src/map.rs; they are fields of the map model, and `is_blocked` answers true on an invalid index.
- movement_system.rs charges `can_move.speed`, a field that `CanMove` (src/components/mod.rs:132-134) calls `time_cost`; the model charges that one value.
- `WantsToWait` is inserted without its cause at several call sites; the model gives the monster AI's confused wait the cause Confusion and every other wait the cause Choice. The wait system ignores the cause either way.
- The pickup system inserts a bare string at the front of the log's entries; the model inserts a count-1 entry holding it, without collapsing a repeat.
- Map::get, which panics off the map, requires a valid index; every modelled caller checks for one first.
- `get_pathing_distance`, `get_available_exits` and `is_visible` of map.rs serve rltk's path finding and field of view, which are not modelled.
- The orphan src/monster_ai_system.rs is not part of the build and is not modelled; the model follows src/systems/monster_ai_system.rs.
