/** src/systems/wait_system.rs: an actor that waits is put one tick past the
    world clock, however far ahead or behind it was. */
module WaitSystem {
  import opened Components
  import opened Seqs
  import opened Ecs

  /** The scores after every listed waiter was set to target. */
  function Waited(scores: map<Entity, nat>, waiters: seq<Entity>, target: nat): map<Entity, nat> {
    map e | e in scores :: if e in waiters then target else scores[e]
  }

  /** Each waiter ends exactly at target, whatever its score was, and no
      other score moves. */
  lemma WaitedProperties(scores: map<Entity, nat>, waiters: seq<Entity>, target: nat)
    ensures var s := Waited(scores, waiters, target);
      && s.Keys == scores.Keys
      && (forall e :: e in scores && e in waiters ==> s[e] == target)
      && (forall e :: e in scores && e !in waiters ==> s[e] == scores[e])
  {
  }

  /** With the clock at 50, an actor at 40 and one at 60 that both wait end
      at 51: the score is assigned, not increased. */
  lemma WaitingSetsScoreToClockPlusOne()
    ensures Waited(map[1 := 40, 2 := 60, 3 := 7], [1, 2], 50 + 1) == map[1 := 51, 2 := 51, 3 := 7]
  {
  }

  /** The loop of the system: each waiter's score set to target. */
  method SetScores(scores: map<Entity, nat>, waiters: seq<Entity>, target: nat) returns (s: map<Entity, nat>)
    requires Distinct(waiters)
    requires forall e :: e in waiters ==> e in scores
    ensures s == Waited(scores, waiters, target)
  {
    s := scores;
    var i := 0;
    while i < |waiters|
      invariant 0 <= i <= |waiters|
      invariant s.Keys == scores.Keys
      invariant forall e :: e in s ==> s[e] == if e in waiters[..i] then target else scores[e]
    {
      var e := waiters[i];
      assert waiters[..i + 1] == waiters[..i] + [e];
      s := s[e := target];
      i := i + 1;
    }
    assert waiters[..i] == waiters;
  }

  /** WaitSystem::run: the target is read once, before the loop, as the
      clock plus one; every live entity holding WantsToWait and TakesTurn is
      set to it, whatever the cause of its wait; then every WantsToWait is
      removed. */
  method Run(w: World)
    requires Distinct(w.alive)
    modifies w`takesTurn, w`wantsToWait
    ensures w.takesTurn == Waited(old(w.takesTurn), Join(w.alive, old(w.wantsToWait).Keys * old(w.takesTurn).Keys),
      w.globalTurnTimeScore + 1)
    ensures w.wantsToWait == map[]
  {
    var alive, scores := w.alive, w.takesTurn;
    var targetTimeScore := w.globalTurnTimeScore + 1;
    var waiters := Join(alive, w.wantsToWait.Keys * scores.Keys);
    JoinDistinct(alive, w.wantsToWait.Keys * scores.Keys);
    w.takesTurn := SetScores(scores, waiters, targetTimeScore);
    w.wantsToWait := map[];
  }
}
