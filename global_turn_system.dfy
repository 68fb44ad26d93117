/** src/systems/global_turn_system.rs: keeps time scores small by rebasing
    them once the lowest passes a limit, advances the world clock actor by 100
    when it takes its turn, and lets Confusion wear off after a world turn. */
module GlobalTurnSystem {
  import opened Components
  import opened Seqs
  import opened Ecs

  const TimeScoreLimit: nat := 1000
  const GlobalTurnCost: nat := 100

  /** The lowest score among the given entities (Iterator::min_by). */
  function MinScore(scores: map<Entity, nat>, order: seq<Entity>): (r: nat)
    requires |order| > 0
    requires forall e :: e in order ==> e in scores
    ensures exists k :: 0 <= k < |order| && r == scores[order[k]]
    ensures forall k :: 0 <= k < |order| ==> r <= scores[order[k]]
  {
    if |order| == 1 then scores[order[0]]
    else
      var rest := MinScore(scores, order[1..]);
      if scores[order[0]] <= rest then scores[order[0]] else rest
  }

  /** Every listed score lowered by m. */
  function Rebased(scores: map<Entity, nat>, order: seq<Entity>, m: nat): map<Entity, nat>
    requires forall e :: e in order ==> e in scores && scores[e] >= m
  {
    map e | e in scores :: if e in order then scores[e] - m else scores[e]
  }

  /** The scores and the clock after the normalisation block. */
  function Normalised(scores: map<Entity, nat>, order: seq<Entity>, clock: nat): (map<Entity, nat>, nat)
    requires |order| > 0
    requires forall e :: e in order ==> e in scores
    requires MinScore(scores, order) > TimeScoreLimit ==> clock >= MinScore(scores, order)
  {
    var m := MinScore(scores, order);
    if m > TimeScoreLimit then (Rebased(scores, order, m), clock - m) else (scores, clock)
  }

  /** When the minimum passes the limit, every actor's score and the clock
      drop by that same minimum: the new minimum is 0 and the order of any
      two actors is kept. Otherwise nothing changes. */
  lemma NormalisedProperties(scores: map<Entity, nat>, order: seq<Entity>, clock: nat)
    requires |order| > 0
    requires forall e :: e in order ==> e in scores
    requires MinScore(scores, order) > TimeScoreLimit ==> clock >= MinScore(scores, order)
    ensures var (s, c) := Normalised(scores, order, clock);
      var m := MinScore(scores, order);
      && s.Keys == scores.Keys
      && (m > TimeScoreLimit ==>
           && c == clock - m
           && MinScore(s, order) == 0
           && (forall e :: e in order ==> s[e] == scores[e] - m)
           && (forall a, b :: a in order && b in order ==> (s[a] <= s[b] <==> scores[a] <= scores[b])))
      && (m <= TimeScoreLimit ==> s == scores && c == clock)
      && (forall e :: e in scores && e !in order ==> s[e] == scores[e])
  {
    var m := MinScore(scores, order);
    if m > TimeScoreLimit {
      var s := Rebased(scores, order, m);
      var k :| 0 <= k < |order| && m == scores[order[k]];
      assert s[order[k]] == 0;
      assert MinScore(s, order) <= s[order[k]];
    }
  }

  lemma NormalisedKeepsActors(scores: map<Entity, nat>, order: seq<Entity>, clock: nat)
    requires |order| > 0
    requires forall e :: e in order ==> e in scores
    requires MinScore(scores, order) > TimeScoreLimit ==> clock >= MinScore(scores, order)
    ensures Normalised(scores, order, clock).0.Keys == scores.Keys
  {
  }

  /** The scores 1200, 1300 and 50 have minimum 50, which is within the
      limit, so normalisation leaves them and the clock alone. */
  lemma NormalisingSmallMinimumChangesNothing(clock: nat)
    ensures var scores := map[1 := 1200, 2 := 1300, 3 := 50];
      Normalised(scores, [1, 2, 3], clock) == (scores, clock)
  {
    var scores := map[1 := 1200, 2 := 1300, 3 := 50];
    assert MinScore(scores, [3]) == 50;
    assert [1, 2, 3][1..] == [2, 3] && [2, 3][1..] == [3];
    assert MinScore(scores, [1, 2, 3]) == 50;
  }

  /** The scores after every listed global actor took its turn. */
  function Advanced(scores: map<Entity, nat>, movers: seq<Entity>): map<Entity, nat> {
    map e | e in scores :: if e in movers then scores[e] + GlobalTurnCost else scores[e]
  }

  /** The confusion counters after a world turn: each actor that takes turns
      loses one turn, and a counter that reaches 0 or below is removed. */
  function Ticked(confusion: map<Entity, int>, tickers: seq<Entity>): map<Entity, int> {
    map e | e in confusion && !(e in tickers && confusion[e] - 1 <= 0)
      :: if e in tickers then confusion[e] - 1 else confusion[e]
  }

  /** Counters of entities that take turns lose exactly one turn or vanish;
      every other counter is untouched. */
  lemma TickedProperties(confusion: map<Entity, int>, tickers: seq<Entity>)
    ensures var c := Ticked(confusion, tickers);
      && c.Keys <= confusion.Keys
      && (forall e :: e in tickers && e in confusion ==>
            (confusion[e] > 1 <==> e in c) && (e in c ==> c[e] == confusion[e] - 1))
      && (forall e :: e in confusion && e !in tickers ==> e in c && c[e] == confusion[e])
  {
  }

  /** Each global actor that takes its turn gains exactly GlobalTurnCost; no
      other score moves. */
  lemma AdvancedProperties(scores: map<Entity, nat>, movers: seq<Entity>)
    ensures var s := Advanced(scores, movers);
      && s.Keys == scores.Keys
      && (forall e :: e in scores && e in movers ==> s[e] == scores[e] + GlobalTurnCost)
      && (forall e :: e in scores && e !in movers ==> s[e] == scores[e])
  {
  }

  /** The loop of the normalisation block: every listed score lowered by m. */
  method RebaseScores(scores: map<Entity, nat>, order: seq<Entity>, m: nat) returns (s: map<Entity, nat>)
    requires Distinct(order)
    requires forall e :: e in order ==> e in scores && scores[e] >= m
    ensures s == Rebased(scores, order, m)
  {
    s := scores;
    var i := 0;
    while i < |order|
      invariant 0 <= i <= |order|
      invariant s.Keys == scores.Keys
      invariant forall e :: e in s ==> s[e] == if e in order[..i] then scores[e] - m else scores[e]
    {
      var e := order[i];
      assert order[..i + 1] == order[..i] + [e];
      assert e !in order[..i];
      s := s[e := s[e] - m];
      i := i + 1;
    }
    assert order[..i] == order;
  }

  /** The loop of the clock-advance block: each mover gains GlobalTurnCost and
      the clock takes the new score of each in turn. */
  method AdvanceScores(scores: map<Entity, nat>, movers: seq<Entity>, clock: nat)
    returns (s: map<Entity, nat>, c: nat, turnTaken: bool)
    requires Distinct(movers)
    requires forall e :: e in movers ==> e in scores
    ensures s == Advanced(scores, movers)
    ensures turnTaken == (|movers| > 0)
    ensures c == if |movers| > 0 then s[movers[|movers| - 1]] else clock
  {
    s, c, turnTaken := scores, clock, false;
    var i := 0;
    while i < |movers|
      invariant 0 <= i <= |movers|
      invariant turnTaken == (i > 0)
      invariant s.Keys == scores.Keys
      invariant forall e :: e in s ==> s[e] == if e in movers[..i] then scores[e] + GlobalTurnCost else scores[e]
      invariant c == if i > 0 then s[movers[i - 1]] else clock
    {
      var e := movers[i];
      assert movers[..i + 1] == movers[..i] + [e];
      assert e !in movers[..i];
      turnTaken := true;
      s := s[e := s[e] + GlobalTurnCost];
      c := s[e];
      i := i + 1;
    }
    assert movers[..i] == movers;
  }

  /** The confusion block: each ticker loses a turn, and those left at 0 or
      below are collected and then removed. */
  method TickCounters(confusion: map<Entity, int>, tickers: seq<Entity>) returns (c: map<Entity, int>)
    requires Distinct(tickers)
    requires forall e :: e in tickers ==> e in confusion
    ensures c == Ticked(confusion, tickers)
  {
    c := confusion;
    var toRemove: seq<Entity> := [];
    var i := 0;
    while i < |tickers|
      invariant 0 <= i <= |tickers|
      invariant c.Keys == confusion.Keys
      invariant forall e :: e in c ==> c[e] == if e in tickers[..i] then confusion[e] - 1 else confusion[e]
      invariant forall e :: e in toRemove <==> e in tickers[..i] && confusion[e] - 1 <= 0
    {
      var e := tickers[i];
      assert tickers[..i + 1] == tickers[..i] + [e];
      assert e !in tickers[..i];
      c := c[e := c[e] - 1];
      if c[e] <= 0 {
        toRemove := toRemove + [e];
      }
      i := i + 1;
    }
    assert tickers[..i] == tickers;
    ghost var decremented := c;
    var j := 0;
    while j < |toRemove|
      invariant 0 <= j <= |toRemove|
      invariant c == decremented - (set k | 0 <= k < j :: toRemove[k])
    {
      assert (set k | 0 <= k < j + 1 :: toRemove[k]) == (set k | 0 <= k < j :: toRemove[k]) + {toRemove[j]};
      c := c - {toRemove[j]};
      j := j + 1;
    }
    assert (set k | 0 <= k < j :: toRemove[k]) == set e | e in toRemove;
  }

  /** The scores, the clock and the confusion counters after a whole run of
      the system, given the three join orders it iterates: all actors, the
      global actors that want a turn, and the confused actors. */
  function GlobalTurn(scores: map<Entity, nat>, clock: nat, confusion: map<Entity, int>,
                      order: seq<Entity>, movers: seq<Entity>, tickers: seq<Entity>): (map<Entity, nat>, nat, map<Entity, int>)
    requires |order| > 0
    requires forall e :: e in order ==> e in scores
    requires forall e :: e in movers ==> e in scores
    requires MinScore(scores, order) > TimeScoreLimit ==> clock >= MinScore(scores, order)
  {
    NormalisedKeepsActors(scores, order, clock);
    var n := Normalised(scores, order, clock);
    var s2 := Advanced(n.0, movers);
    if |movers| > 0
    then (s2, s2[movers[|movers| - 1]], Ticked(confusion, tickers))
    else (s2, n.1, confusion)
  }

  /** Over a whole run, every actor's score is its normalised score plus
      GlobalTurnCost exactly when it is a mover; the clock ends on the last
      mover's score and the counters tick only when some global actor moved. */
  lemma GlobalTurnProperties(scores: map<Entity, nat>, clock: nat, confusion: map<Entity, int>,
                             order: seq<Entity>, movers: seq<Entity>, tickers: seq<Entity>)
    requires |order| > 0
    requires forall e :: e in order ==> e in scores
    requires forall e :: e in movers ==> e in scores
    requires MinScore(scores, order) > TimeScoreLimit ==> clock >= MinScore(scores, order)
    ensures var (s, c, conf) := GlobalTurn(scores, clock, confusion, order, movers, tickers);
      var n := Normalised(scores, order, clock);
      && s.Keys == scores.Keys
      && (forall e :: e in scores ==> s[e] == n.0[e] + if e in movers then GlobalTurnCost else 0)
      && (|movers| == 0 ==> c == n.1 && conf == confusion)
      && (|movers| > 0 ==> c == n.0[movers[|movers| - 1]] + GlobalTurnCost && conf == Ticked(confusion, tickers))
  {
    NormalisedKeepsActors(scores, order, clock);
    AdvancedProperties(Normalised(scores, order, clock).0, movers);
  }

  /** The body of the system over the three join orders. */
  method RunOn(scores: map<Entity, nat>, clock: nat, confusion: map<Entity, int>,
               order: seq<Entity>, movers: seq<Entity>, tickers: seq<Entity>)
    returns (s: map<Entity, nat>, c: nat, conf: map<Entity, int>)
    requires Distinct(order) && Distinct(movers) && Distinct(tickers)
    requires |order| > 0
    requires forall e :: e in order ==> e in scores
    requires forall e :: e in movers ==> e in scores
    requires forall e :: e in tickers ==> e in confusion
    requires MinScore(scores, order) > TimeScoreLimit ==> clock >= MinScore(scores, order)
    ensures (s, c, conf) == GlobalTurn(scores, clock, confusion, order, movers, tickers)
  {
    s, c := scores, clock;
    var turnTimeScore := MinScore(scores, order);
    if turnTimeScore > TimeScoreLimit {
      s := RebaseScores(s, order, turnTimeScore);
      c := c - turnTimeScore;
    }
    NormalisedKeepsActors(scores, order, clock);
    assert (s, c) == Normalised(scores, order, clock);
    var turnTaken;
    s, c, turnTaken := AdvanceScores(s, movers, c);
    conf := confusion;
    if turnTaken {
      conf := TickCounters(confusion, tickers);
    }
  }

  /** GlobalTurnSystem::run. The world needs at least one live actor with
      TakesTurn (the minimum is unwrapped), and a rebase must not take the
      clock below zero (u32 subtraction). Confusion changes only when a
      global turn was taken. */
  method Run(w: World)
    requires Distinct(w.alive)
    requires |Join(w.alive, w.takesTurn.Keys)| > 0
    requires var order := Join(w.alive, w.takesTurn.Keys);
      MinScore(w.takesTurn, order) > TimeScoreLimit ==> w.globalTurnTimeScore >= MinScore(w.takesTurn, order)
    modifies w`takesTurn, w`globalTurnTimeScore, w`confusion
    ensures (w.takesTurn, w.globalTurnTimeScore, w.confusion)
      == old(GlobalTurn(w.takesTurn, w.globalTurnTimeScore, w.confusion,
           Join(w.alive, w.takesTurn.Keys),
           Join(w.alive, w.takesTurn.Keys * w.wantsToTakeTurn * w.globalTurns),
           Join(w.alive, w.takesTurn.Keys * w.confusion.Keys)))
  {
    var alive, scores, confusion := w.alive, w.takesTurn, w.confusion;
    var order := Join(alive, scores.Keys);
    var movers := Join(alive, scores.Keys * w.wantsToTakeTurn * w.globalTurns);
    var tickers := Join(alive, scores.Keys * confusion.Keys);
    JoinDistinct(alive, scores.Keys);
    JoinDistinct(alive, scores.Keys * w.wantsToTakeTurn * w.globalTurns);
    JoinDistinct(alive, scores.Keys * confusion.Keys);
    w.takesTurn, w.globalTurnTimeScore, w.confusion :=
      RunOn(scores, w.globalTurnTimeScore, confusion, order, movers, tickers);
  }
}
