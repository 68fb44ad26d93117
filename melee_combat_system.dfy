/** src/systems/melee_combat_system.rs: each actor that wants to attack pays
    its attack cost; a living attacker facing a living target logs the blow
    and, when it gets through the target's defence, records the damage the
    target suffers. Combat stats are only read here, so every attack is
    judged on the stats the turn started with. */
module MeleeCombatSystem {
  import opened Components
  import opened Seqs
  import opened Strings
  import opened GameMap
  import opened GameLogs
  import opened Ecs

  /** The facets the system only reads. */
  datatype Fighters = Fighters(
    wants: map<Entity, Entity>,
    names: map<Entity, string>,
    stats: map<Entity, CombatStats>,
    costs: map<Entity, nat>)

  /** The damage of one blow: power minus defence, never below zero. */
  function Damage(attacker: CombatStats, target: CombatStats): (r: int)
    ensures r >= 0
    ensures r == 0 <==> attacker.power <= target.defense
    ensures r > 0 ==> r == attacker.power - target.defense
  {
    Max(0, attacker.power - target.defense)
  }

  /** Every lookup the loop makes for attacker e succeeds: the attacker has
      all facets of the join, and when it is alive its target has combat
      stats, and a name too when the target is alive. */
  predicate Ready(f: Fighters, e: Entity) {
    && e in f.wants && e in f.names && e in f.stats && e in f.costs
    && (f.stats[e].hp > 0 ==>
         f.wants[e] in f.stats && (f.stats[f.wants[e]].hp > 0 ==> f.wants[e] in f.names))
  }

  /** Attacker e lands a blow: both it and its target are alive. */
  predicate Engages(f: Fighters, e: Entity)
    requires Ready(f, e)
  {
    f.stats[e].hp > 0 && f.stats[f.wants[e]].hp > 0
  }

  function BlowDamage(f: Fighters, e: Entity): int
    requires Ready(f, e) && Engages(f, e)
  {
    Damage(f.stats[e], f.stats[f.wants[e]])
  }

  /** The line logged for a blow. */
  function BlowMessage(f: Fighters, e: Entity): string
    requires Ready(f, e) && Engages(f, e)
  {
    var attacker, target := f.names[e], f.names[f.wants[e]];
    var damage := BlowDamage(f, e);
    if damage == 0 then attacker + " is unable to hurt " + target + "."
    else attacker + " hits " + target + " for " + IntToString(damage) + " hp."
  }

  /** The scores after each attacker of `order` paid its cost. */
  function Charged(scores: map<Entity, nat>, order: seq<Entity>, costs: map<Entity, nat>): map<Entity, nat>
    requires forall e :: e in order ==> e in costs
  {
    map e | e in scores :: if e in order then scores[e] + costs[e] else scores[e]
  }

  /** The lines logged by the attackers of `order`, in that order. */
  function Messages(f: Fighters, order: seq<Entity>): seq<string>
    requires forall e :: e in order ==> Ready(f, e)
  {
    if order == [] then []
    else
      var e := order[|order| - 1];
      Messages(f, order[..|order| - 1]) + if Engages(f, e) then [BlowMessage(f, e)] else []
  }

  /** The SuffersDamage amounts after the attackers of `order`: each blow
      that gets through sets its target's amount, replacing any earlier one. */
  function Suffered(suffers: map<Entity, int>, f: Fighters, order: seq<Entity>): map<Entity, int>
    requires forall e :: e in order ==> Ready(f, e)
  {
    if order == [] then suffers
    else
      var e := order[|order| - 1];
      var before := Suffered(suffers, f, order[..|order| - 1]);
      if Engages(f, e) && BlowDamage(f, e) > 0 then before[f.wants[e] := BlowDamage(f, e)] else before
  }

  /** Attacker e hits t with a blow that gets through. */
  predicate Hits(f: Fighters, e: Entity, t: Entity)
    requires Ready(f, e)
  {
    f.wants[e] == t && Engages(f, e) && BlowDamage(f, e) > 0
  }

  /** Each attacker pays its cost exactly once, alive or not; other scores
      stay. */
  lemma ChargedProperties(scores: map<Entity, nat>, order: seq<Entity>, costs: map<Entity, nat>)
    requires forall e :: e in order ==> e in costs
    ensures var s := Charged(scores, order, costs);
      && s.Keys == scores.Keys
      && (forall e :: e in scores && e in order ==> s[e] == scores[e] + costs[e])
      && (forall e :: e in scores && e !in order ==> s[e] == scores[e])
  {
  }

  /** An entity suffers damage after the run exactly when it already did or
      some blow got through to it. */
  lemma {:induction false} SufferedKeys(suffers: map<Entity, int>, f: Fighters, order: seq<Entity>, t: Entity)
    requires forall e :: e in order ==> Ready(f, e)
    ensures t in Suffered(suffers, f, order) <==> t in suffers || exists e :: e in order && Hits(f, e, t)
  {
    if order != [] {
      var n := |order| - 1;
      var init := order[..n];
      assert forall e :: e in order <==> e in init || e == order[n];
      SufferedKeys(suffers, f, init, t);
      var last := order[n];
      assert last in order;
      var before := Suffered(suffers, f, init);
      assert Suffered(suffers, f, order)
        == if Engages(f, last) && BlowDamage(f, last) > 0 then before[f.wants[last] := BlowDamage(f, last)] else before;
      if Hits(f, last, t) {
        assert t in Suffered(suffers, f, order);
      } else {
        assert t in Suffered(suffers, f, order) <==> t in before;
        assert (exists e :: e in order && Hits(f, e, t)) <==> (exists e :: e in init && Hits(f, e, t));
      }
    }
  }

  /** Its amount is that of the last blow that got through to it: an earlier
      amount is replaced, not added to. */
  lemma {:induction false} SufferedIsLastBlow(suffers: map<Entity, int>, f: Fighters, order: seq<Entity>, k: nat, t: Entity)
    requires forall e :: e in order ==> Ready(f, e)
    requires k < |order| && Hits(f, order[k], t)
    requires forall j :: k < j < |order| ==> !Hits(f, order[j], t)
    ensures t in Suffered(suffers, f, order) && Suffered(suffers, f, order)[t] == BlowDamage(f, order[k])
  {
    var n := |order| - 1;
    if k < n {
      var init := order[..n];
      assert init[k] == order[k];
      assert forall j :: k < j < |init| ==> init[j] == order[j];
      SufferedIsLastBlow(suffers, f, init, k, t);
      assert !Hits(f, order[n], t);
    }
  }

  /** An entity no blow got through to keeps its amount. */
  lemma {:induction false} SufferedUntouched(suffers: map<Entity, int>, f: Fighters, order: seq<Entity>, t: Entity)
    requires forall e :: e in order ==> Ready(f, e)
    requires forall e :: e in order ==> !Hits(f, e, t)
    requires t in suffers
    ensures t in Suffered(suffers, f, order) && Suffered(suffers, f, order)[t] == suffers[t]
  {
    if order != [] {
      var init := order[..|order| - 1];
      assert forall e :: e in init ==> e in order;
      SufferedUntouched(suffers, f, init, t);
      var last := order[|order| - 1];
      assert last in order;
      var before := Suffered(suffers, f, init);
      assert Suffered(suffers, f, order)
        == if Engages(f, last) && BlowDamage(f, last) > 0 then before[f.wants[last] := BlowDamage(f, last)] else before;
      assert !Hits(f, last, t);
    }
  }

  /** A blow that gets through logs "<attacker> hits <target> for <n> hp.";
      one that does not logs "<attacker> is unable to hurt <target>.". */
  lemma BlowMessageShape(f: Fighters, e: Entity)
    requires Ready(f, e) && Engages(f, e)
    ensures var a, t := f.names[e], f.names[f.wants[e]];
      var m := BlowMessage(f, e);
      if f.stats[e].power <= f.stats[f.wants[e]].defense
      then m == a + " is unable to hurt " + t + "."
      else m == a + " hits " + t + " for " + NatToString(f.stats[e].power - f.stats[f.wants[e]].defense) + " hp."
  {
  }

  /** One message per blow: attackers that are dead, or whose target is
      dead, log nothing. */
  lemma {:induction false} MessagesCount(f: Fighters, order: seq<Entity>)
    requires forall e :: e in order ==> Ready(f, e)
    ensures |Messages(f, order)| == |set k | 0 <= k < |order| && Engages(f, order[k])|
  {
    if order != [] {
      var n := |order| - 1;
      var init := order[..n];
      MessagesCount(f, init);
      var before := set k | 0 <= k < n && Engages(f, init[k]);
      var after := set k | 0 <= k < |order| && Engages(f, order[k]);
      assert forall k :: 0 <= k < n ==> order[k] == init[k];
      if Engages(f, order[n]) {
        assert after == before + {n};
      } else {
        assert after == before;
      }
    }
  }

  /** An attacker of power 5 against a target of defence 2 and 10 hp: the
      target is to suffer 3, and the log reads "Orc hits Player for 3 hp.". */
  lemma OrcHitsPlayer()
    ensures var f := Fighters(map[1 := 2], map[1 := "Orc", 2 := "Player"],
                              map[1 := CombatStats(16, 16, 1, 5), 2 := CombatStats(30, 10, 2, 5)], map[1 := 100]);
      && Suffered(map[], f, [1]) == map[2 := 3]
      && Messages(f, [1]) == ["Orc hits Player for 3 hp."]
  {
    var f := Fighters(map[1 := 2], map[1 := "Orc", 2 := "Player"],
                      map[1 := CombatStats(16, 16, 1, 5), 2 := CombatStats(30, 10, 2, 5)], map[1 := 100]);
    assert [1][..0] == [];
    assert 1 in [1];
    assert Ready(f, 1) && Engages(f, 1);
    assert BlowDamage(f, 1) == 3;
    OrcBlowText(f);
    assert Messages(f, [1]) == Messages(f, []) + [BlowMessage(f, 1)];
    assert Suffered(map[], f, [1]) == map[2 := 3];
  }

  /** The orc's line, with the damage 3 written out. */
  lemma OrcBlowText(f: Fighters)
    requires Ready(f, 1) && Engages(f, 1) && BlowDamage(f, 1) == 3
    requires f.names[1] == "Orc" && f.names[f.wants[1]] == "Player"
    ensures BlowMessage(f, 1) == "Orc hits Player for 3 hp."
  {
    assert NatToString(3) == [DigitChar(3)] == "3";
  }

  /** The part of the world the system writes. */
  datatype MeleeState = MeleeState(scores: map<Entity, nat>, suffers: map<Entity, int>, entries: seq<LogEntry>)

  /** One iteration of the loop for attacker e. */
  function AttackStep(s: MeleeState, f: Fighters, e: Entity): (r: MeleeState)
    requires Ready(f, e) && e in s.scores
    ensures r.scores.Keys == s.scores.Keys
  {
    var scores := s.scores[e := s.scores[e] + f.costs[e]];
    if !Engages(f, e) then s.(scores := scores)
    else
      var damage := BlowDamage(f, e);
      MeleeState(scores,
                 if damage > 0 then s.suffers[f.wants[e] := damage] else s.suffers,
                 Added(s.entries, BlowMessage(f, e)))
  }

  /** The state after the attackers of `order` acted in that order. */
  function Attacked(s: MeleeState, f: Fighters, order: seq<Entity>): (r: MeleeState)
    requires forall e :: e in order ==> Ready(f, e) && e in s.scores
    ensures r.scores.Keys == s.scores.Keys
  {
    if order == [] then s
    else
      var e := order[|order| - 1];
      AttackStep(Attacked(s, f, order[..|order| - 1]), f, e)
  }

  /** Over the loop each attacker pays its cost exactly once. */
  lemma {:induction false} AttackedScores(s: MeleeState, f: Fighters, order: seq<Entity>)
    requires Distinct(order)
    requires forall e :: e in order ==> Ready(f, e) && e in s.scores
    ensures forall e :: e in order ==> e in f.costs
    ensures Attacked(s, f, order).scores == Charged(s.scores, order, f.costs)
  {
    if order != [] {
      var n := |order| - 1;
      var init := order[..n];
      var e := order[n];
      assert e in order && e !in init;
      assert forall x :: x in order <==> x in init || x == e;
      assert Distinct(init);
      AttackedScores(s, f, init);
    }
  }

  /** The loop's damage amounts are those of Suffered. */
  lemma {:induction false} AttackedSuffers(s: MeleeState, f: Fighters, order: seq<Entity>)
    requires forall e :: e in order ==> Ready(f, e) && e in s.scores
    ensures Attacked(s, f, order).suffers == Suffered(s.suffers, f, order)
  {
    if order != [] {
      var init := order[..|order| - 1];
      assert order[|order| - 1] in order;
      assert forall x :: x in init ==> x in order;
      AttackedSuffers(s, f, init);
    }
  }

  /** The log receives exactly the lines of Messages, in order. */
  lemma {:induction false} AttackedLog(s: MeleeState, f: Fighters, order: seq<Entity>)
    requires forall e :: e in order ==> Ready(f, e) && e in s.scores
    ensures Attacked(s, f, order).entries == AddedAll(s.entries, Messages(f, order))
  {
    if order != [] {
      var init := order[..|order| - 1];
      var e := order[|order| - 1];
      assert e in order;
      assert forall x :: x in init ==> x in order;
      AttackedLog(s, f, init);
      var msgs := Messages(f, init);
      if Engages(f, e) {
        var msg := BlowMessage(f, e);
        assert (msgs + [msg])[..|msgs + [msg]| - 1] == msgs;
      } else {
        assert msgs + [] == msgs;
      }
    }
  }

  /** The body of the loop for attacker e. */
  method Attack(s: MeleeState, f: Fighters, e: Entity) returns (r: MeleeState)
    requires Ready(f, e) && e in s.scores
    ensures r == AttackStep(s, f, e)
  {
    var scores, suffers, entries := s.scores[e := s.scores[e] + f.costs[e]], s.suffers, s.entries;
    var stats := f.stats[e];
    if stats.hp > 0 {
      var target := f.wants[e];
      var targetStats := f.stats[target];
      if targetStats.hp > 0 {
        var damage := Max(0, stats.power - targetStats.defense);
        if damage == 0 {
          entries := Added(entries, f.names[e] + " is unable to hurt " + f.names[target] + ".");
        } else {
          entries := Added(entries, f.names[e] + " hits " + f.names[target] + " for " + IntToString(damage) + " hp.");
          suffers := suffers[target := damage];
        }
      }
    }
    r := MeleeState(scores, suffers, entries);
  }

  /** The loop of the system: the attackers of `order` in turn. */
  method AttackAll(s0: MeleeState, f: Fighters, order: seq<Entity>) returns (r: MeleeState)
    requires forall e :: e in order ==> Ready(f, e) && e in s0.scores
    ensures r == Attacked(s0, f, order)
  {
    r := s0;
    var i := 0;
    while i < |order|
      invariant 0 <= i <= |order|
      invariant r == Attacked(s0, f, order[..i])
    {
      var e := order[i];
      assert e in order;
      assert order[..i + 1][..i] == order[..i];
      r := Attack(r, f, e);
      i := i + 1;
    }
    assert order[..i] == order;
  }

  /** The keys of the melee join: WantsToMelee, Name, CombatStats,
      TakesTurn and CanMelee. */
  function AttackerKeys(f: Fighters, scores: map<Entity, nat>): set<Entity> {
    f.wants.Keys * f.names.Keys * f.stats.Keys * scores.Keys * f.costs.Keys
  }

  /** The system over a snapshot of the world. */
  method RunOn(alive: seq<Entity>, scores0: map<Entity, nat>, suffers0: map<Entity, int>, entries0: seq<LogEntry>, f: Fighters)
    returns (scores: map<Entity, nat>, suffers: map<Entity, int>, entries: seq<LogEntry>)
    requires Distinct(alive)
    requires forall e :: e in Join(alive, AttackerKeys(f, scores0)) ==> Ready(f, e)
    ensures scores == Charged(scores0, Join(alive, AttackerKeys(f, scores0)), f.costs)
    ensures suffers == Suffered(suffers0, f, Join(alive, AttackerKeys(f, scores0)))
    ensures entries == AddedAll(entries0, Messages(f, Join(alive, AttackerKeys(f, scores0))))
  {
    var order := Join(alive, AttackerKeys(f, scores0));
    JoinDistinct(alive, AttackerKeys(f, scores0));
    var s0 := MeleeState(scores0, suffers0, entries0);
    var r := AttackAll(s0, f, order);
    AttackedScores(s0, f, order);
    AttackedSuffers(s0, f, order);
    AttackedLog(s0, f, order);
    scores, suffers, entries := r.scores, r.suffers, r.entries;
  }

  /** MeleeCombatSystem::run. The target's stats and name are unwrapped, and
      a store lookup only finds a live entity, so the target of a live
      attacker must be alive with combat stats, and named when it is alive
      itself. Afterwards no WantsToMelee is left. */
  method Run(w: World)
    requires w.Valid()
    requires var f := Fighters(w.wantsToMelee, w.names, w.combatStats, w.canMelee);
      forall e :: e in Join(w.alive, AttackerKeys(f, w.takesTurn)) ==>
        Ready(f, e) && (w.combatStats[e].hp > 0 ==> w.Live(w.wantsToMelee[e]))
    modifies w`takesTurn, w`suffersDamage, w`wantsToMelee, w.log`entries
    ensures w.Valid()
    ensures var f := Fighters(old(w.wantsToMelee), w.names, w.combatStats, w.canMelee);
      var order := Join(w.alive, AttackerKeys(f, old(w.takesTurn)));
      && w.takesTurn == Charged(old(w.takesTurn), order, w.canMelee)
      && w.suffersDamage == Suffered(old(w.suffersDamage), f, order)
      && w.log.entries == AddedAll(old(w.log.entries), Messages(f, order))
    ensures w.wantsToMelee == map[]
  {
    var alive, scores0, suffers0, entries0 := w.alive, w.takesTurn, w.suffersDamage, w.log.entries;
    var f := Fighters(w.wantsToMelee, w.names, w.combatStats, w.canMelee);
    var scores, suffers, entries := RunOn(alive, scores0, suffers0, entries0, f);
    AddedAllInvariant(entries0, Messages(f, Join(alive, AttackerKeys(f, scores0))));
    w.takesTurn, w.suffersDamage := scores, suffers;
    w.log.entries := entries;
    w.wantsToMelee := map[];
    assert alive == w.alive && f == Fighters(old(w.wantsToMelee), w.names, w.combatStats, w.canMelee);
    assert w.grid.Valid() && w.log.Valid() && Distinct(w.alive);
  }
}
