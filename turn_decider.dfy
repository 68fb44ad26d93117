/** src/turn_decider.rs: orders the actors by time score and marks the batch
    that acts next with WantsToTakeTurn. */
module TurnDecider {
  import opened Components
  import opened Seqs
  import opened Ecs
  import opened RunStates

  function ScoreOf(scores: map<Entity, nat>, e: Entity): nat {
    if e in scores then scores[e] else 0
  }

  predicate SortedByScore(scores: map<Entity, nat>, xs: seq<Entity>) {
    forall i, j :: 0 <= i < j < |xs| ==> ScoreOf(scores, xs[i]) <= ScoreOf(scores, xs[j])
  }

  /** The entities of xs whose score is v, in their order in xs. */
  function WithScore(scores: map<Entity, nat>, xs: seq<Entity>, v: nat): seq<Entity> {
    if xs == [] then []
    else
      var last := xs[|xs| - 1];
      WithScore(scores, xs[..|xs| - 1], v) + (if ScoreOf(scores, last) == v then [last] else [])
  }

  /** Places e after every entry whose score is not greater than its own. */
  function InsertByScore(scores: map<Entity, nat>, e: Entity, sorted: seq<Entity>): seq<Entity> {
    if sorted == [] then [e]
    else if ScoreOf(scores, e) < ScoreOf(scores, sorted[0]) then [e] + sorted
    else [sorted[0]] + InsertByScore(scores, e, sorted[1..])
  }

  /** Vec::sort_by on time_score: a stable sort. */
  function SortByScore(scores: map<Entity, nat>, xs: seq<Entity>): seq<Entity> {
    if xs == [] then []
    else InsertByScore(scores, xs[|xs| - 1], SortByScore(scores, xs[..|xs| - 1]))
  }

  lemma {:induction false} WithScoreAppend(scores: map<Entity, nat>, a: seq<Entity>, b: seq<Entity>, v: nat)
    ensures WithScore(scores, a + b, v) == WithScore(scores, a, v) + WithScore(scores, b, v)
    decreases |b|
  {
    if b == [] {
      assert a + b == a;
    } else {
      WithScoreAppend(scores, a, b[..|b| - 1], v);
      assert (a + b)[..|a + b| - 1] == a + b[..|b| - 1];
    }
  }

  lemma {:induction false} WithScoreAllAbove(scores: map<Entity, nat>, xs: seq<Entity>, v: nat)
    requires forall k :: 0 <= k < |xs| ==> ScoreOf(scores, xs[k]) > v
    ensures WithScore(scores, xs, v) == []
    decreases |xs|
  {
    if xs != [] {
      WithScoreAllAbove(scores, xs[..|xs| - 1], v);
    }
  }

  /** Insertion adds exactly e. */
  lemma {:induction false} InsertByScorePermutes(scores: map<Entity, nat>, e: Entity, sorted: seq<Entity>)
    ensures multiset(InsertByScore(scores, e, sorted)) == multiset(sorted) + multiset{e}
    decreases |sorted|
  {
    if sorted != [] && ScoreOf(scores, e) >= ScoreOf(scores, sorted[0]) {
      InsertByScorePermutes(scores, e, sorted[1..]);
      assert sorted == [sorted[0]] + sorted[1..];
    }
  }

  /** Inserting into a sorted list keeps it sorted. */
  lemma {:induction false} InsertByScoreSorted(scores: map<Entity, nat>, e: Entity, sorted: seq<Entity>)
    requires SortedByScore(scores, sorted)
    ensures SortedByScore(scores, InsertByScore(scores, e, sorted))
    decreases |sorted|
  {
    if sorted == [] {
      assert InsertByScore(scores, e, sorted) == [e];
    } else if ScoreOf(scores, e) < ScoreOf(scores, sorted[0]) {
      SortedTail(scores, sorted);
      SortedCons(scores, e, sorted);
    } else {
      var tail := sorted[1..];
      SortedTail(scores, sorted);
      InsertByScoreSorted(scores, e, tail);
      InsertByScoreBound(scores, e, tail, ScoreOf(scores, sorted[0]));
      SortedCons(scores, sorted[0], InsertByScore(scores, e, tail));
    }
  }

  /** A lower bound on the scores of a list and of e bounds the list with e
      inserted. */
  lemma {:induction false} InsertByScoreBound(scores: map<Entity, nat>, e: Entity, xs: seq<Entity>, b: nat)
    requires ScoreOf(scores, e) >= b
    requires forall k :: 0 <= k < |xs| ==> ScoreOf(scores, xs[k]) >= b
    ensures forall k :: 0 <= k < |InsertByScore(scores, e, xs)| ==> ScoreOf(scores, InsertByScore(scores, e, xs)[k]) >= b
    decreases |xs|
  {
    if xs != [] && ScoreOf(scores, e) >= ScoreOf(scores, xs[0]) {
      InsertByScoreBound(scores, e, xs[1..], b);
      var rest := InsertByScore(scores, e, xs[1..]);
      assert InsertByScore(scores, e, xs) == [xs[0]] + rest;
    }
  }

  /** Inserting into a sorted list puts e after every entry of its own score. */
  lemma {:induction false} InsertByScoreStable(scores: map<Entity, nat>, e: Entity, sorted: seq<Entity>, v: nat)
    requires SortedByScore(scores, sorted)
    ensures WithScore(scores, InsertByScore(scores, e, sorted), v)
      == WithScore(scores, sorted, v) + WithScore(scores, [e], v)
    decreases |sorted|
  {
    if sorted == [] {
      assert InsertByScore(scores, e, sorted) == [e];
    } else if ScoreOf(scores, e) < ScoreOf(scores, sorted[0]) {
      InsertFrontStable(scores, e, sorted, v);
    } else {
      var tail := sorted[1..];
      SortedTail(scores, sorted);
      InsertByScoreStable(scores, e, tail, v);
      InsertBehindStable(scores, e, sorted, v);
    }
  }

  lemma SortedTail(scores: map<Entity, nat>, xs: seq<Entity>)
    requires xs != [] && SortedByScore(scores, xs)
    ensures SortedByScore(scores, xs[1..])
    ensures forall k :: 0 <= k < |xs| ==> ScoreOf(scores, xs[0]) <= ScoreOf(scores, xs[k])
  {
    forall i, j | 0 <= i < j < |xs| - 1 ensures ScoreOf(scores, xs[1..][i]) <= ScoreOf(scores, xs[1..][j]) {
      assert xs[1..][i] == xs[i + 1] && xs[1..][j] == xs[j + 1];
    }
    forall k | 0 < k < |xs| ensures ScoreOf(scores, xs[0]) <= ScoreOf(scores, xs[k]) {
    }
  }

  /** A head no greater than a sorted tail's entries gives a sorted list. */
  lemma SortedCons(scores: map<Entity, nat>, x: Entity, xs: seq<Entity>)
    requires SortedByScore(scores, xs)
    requires forall j :: 0 <= j < |xs| ==> ScoreOf(scores, x) <= ScoreOf(scores, xs[j])
    ensures SortedByScore(scores, [x] + xs)
  {
    forall i, j | 0 <= i < j < |xs| + 1 ensures ScoreOf(scores, ([x] + xs)[i]) <= ScoreOf(scores, ([x] + xs)[j]) {
      if i > 0 {
        assert ([x] + xs)[i] == xs[i - 1];
      }
      assert ([x] + xs)[j] == xs[j - 1];
    }
  }

  /** The case where e scores below the head and goes in front. */
  lemma InsertFrontStable(scores: map<Entity, nat>, e: Entity, sorted: seq<Entity>, v: nat)
    requires SortedByScore(scores, sorted)
    requires sorted != [] && ScoreOf(scores, e) < ScoreOf(scores, sorted[0])
    ensures WithScore(scores, InsertByScore(scores, e, sorted), v)
      == WithScore(scores, sorted, v) + WithScore(scores, [e], v)
  {
    assert InsertByScore(scores, e, sorted) == [e] + sorted;
    WithScoreAppend(scores, [e], sorted, v);
    if ScoreOf(scores, e) == v {
      SortedTail(scores, sorted);
      WithScoreAllAbove(scores, sorted, v);
    } else {
      assert WithScore(scores, [e], v) == WithScore(scores, [], v) + [];
    }
  }

  /** The case where e goes behind the head: the head's part comes first. */
  lemma InsertBehindStable(scores: map<Entity, nat>, e: Entity, sorted: seq<Entity>, v: nat)
    requires sorted != [] && ScoreOf(scores, e) >= ScoreOf(scores, sorted[0])
    requires WithScore(scores, InsertByScore(scores, e, sorted[1..]), v)
      == WithScore(scores, sorted[1..], v) + WithScore(scores, [e], v)
    ensures WithScore(scores, InsertByScore(scores, e, sorted), v)
      == WithScore(scores, sorted, v) + WithScore(scores, [e], v)
  {
    var tail := sorted[1..];
    var rest := InsertByScore(scores, e, tail);
    assert InsertByScore(scores, e, sorted) == [sorted[0]] + rest;
    assert sorted == [sorted[0]] + tail;
    WithScoreAppend(scores, [sorted[0]], rest, v);
    WithScoreAppend(scores, [sorted[0]], tail, v);
  }

  /** The candidates come out sorted by score, as a permutation of the
      input, and entities of equal score keep their input order. */
  lemma {:induction false} SortByScoreIsStableSort(scores: map<Entity, nat>, xs: seq<Entity>)
    ensures SortedByScore(scores, SortByScore(scores, xs))
    ensures multiset(SortByScore(scores, xs)) == multiset(xs)
    ensures forall v :: WithScore(scores, SortByScore(scores, xs), v) == WithScore(scores, xs, v)
    decreases |xs|
  {
    if xs != [] {
      var init := xs[..|xs| - 1];
      var last := xs[|xs| - 1];
      SortByScoreIsStableSort(scores, init);
      InsertByScoreSorted(scores, last, SortByScore(scores, init));
      InsertByScorePermutes(scores, last, SortByScore(scores, init));
      assert xs == init + [last];
      forall v ensures WithScore(scores, SortByScore(scores, xs), v) == WithScore(scores, xs, v) {
        InsertByScoreStable(scores, last, SortByScore(scores, init), v);
        WithScoreAppend(scores, init, [last], v);
      }
    }
  }

  /** The longest prefix of xs holding no special entity. */
  function OrdinaryPrefix(xs: seq<Entity>, special: set<Entity>): (r: seq<Entity>)
    ensures |r| <= |xs| && r == xs[..|r|]
    ensures forall k :: 0 <= k < |r| ==> r[k] !in special
    ensures |r| < |xs| ==> xs[|r|] in special
  {
    if xs == [] || xs[0] in special then [] else [xs[0]] + OrdinaryPrefix(xs[1..], special)
  }

  /** The batch picked from the sorted candidates: the first candidate alone
      when it is special (global, player or visible), otherwise the run of
      ordinary candidates up to the first special one. */
  function SelectBatch(sorted: seq<Entity>, special: set<Entity>): seq<Entity> {
    if sorted == [] then []
    else if sorted[0] in special then [sorted[0]]
    else OrdinaryPrefix(sorted, special)
  }

  /** The run state decide_turn returns for a batch. */
  function Outcome(sorted: seq<Entity>, players: set<Entity>): RunState {
    if sorted != [] && sorted[0] in players then AwaitingInput else WorldTurn
  }

  /** The batch is a non-empty prefix of the sorted candidates whenever there
      is a candidate; a batch holding a special entity is that entity alone;
      and every batch member scores no more than any candidate left out. */
  lemma BatchShape(scores: map<Entity, nat>, sorted: seq<Entity>, special: set<Entity>)
    requires SortedByScore(scores, sorted)
    ensures var b := SelectBatch(sorted, special);
      && (b == [] <==> sorted == [])
      && b == sorted[..|b|]
      && ((exists k :: 0 <= k < |b| && b[k] in special) ==> b == [sorted[0]])
      && (forall i, j :: 0 <= i < |b| <= j < |sorted| ==> ScoreOf(scores, b[i]) <= ScoreOf(scores, sorted[j]))
  {
  }

  /** decide_turn yields AwaitingInput exactly when the batch is one player
      entity; every other batch, the empty one included, yields WorldTurn. */
  lemma AwaitingInputIffPlayerBatch(sorted: seq<Entity>, players: set<Entity>, others: set<Entity>)
    ensures Outcome(sorted, players) == AwaitingInput
      <==> exists p :: p in players && SelectBatch(sorted, players + others) == [p]
  {
    var special := players + others;
    if Outcome(sorted, players) == AwaitingInput {
      assert SelectBatch(sorted, special) == [sorted[0]];
    }
  }

  /** The sorted candidates: entities holding TakesTurn and Name. */
  function Candidates(alive: seq<Entity>, takesTurn: map<Entity, nat>, names: map<Entity, string>): seq<Entity> {
    SortByScore(takesTurn, Join(alive, takesTurn.Keys * names.Keys))
  }

  /** The loop over the sorted candidates of decide_turn: it collects the
      batch and notes whether it is the player's turn. */
  method TakeBatch(data: seq<Entity>, globals: set<Entity>, players: set<Entity>, visible: set<Entity>)
    returns (batch: seq<Entity>, isPlayerTurn: bool)
    ensures batch == SelectBatch(data, globals + players + visible)
    ensures isPlayerTurn <==> Outcome(data, players) == AwaitingInput
  {
    ghost var special := globals + players + visible;
    batch := [];
    var lastWasVisible := false;
    var isFirst := true;
    isPlayerTurn := false;
    var i := 0;
    while i < |data|
      invariant 0 <= i <= |data|
      invariant isFirst <==> i == 0
      invariant !lastWasVisible && !isPlayerTurn
      invariant batch == data[..i]
      invariant forall k :: 0 <= k < i ==> data[k] !in special
    {
      var e := data[i];
      var isVisible := e in visible;
      var isGlobal := e in globals;
      var isPlayer := e in players;
      if isGlobal || isPlayer || isVisible {
        if isFirst {
          batch := batch + [e];
          isPlayerTurn := isPlayer;
        }
        break;
      }
      isFirst := false;
      if isVisible && !lastWasVisible {
        break;
      }
      batch := batch + [e];
      lastWasVisible := isVisible;
      i := i + 1;
    }
    assert batch == SelectBatch(data, special) by {
      if i > 0 {
        var p := OrdinaryPrefix(data, special);
        assert |p| == i;
      }
    }
  }

  /** The loop that inserts WantsToTakeTurn for every batch member. */
  method MarkAll(marked0: set<Entity>, batch: seq<Entity>) returns (marked: set<Entity>)
    ensures marked == marked0 + Elems(batch)
  {
    marked := marked0;
    var j := 0;
    while j < |batch|
      invariant 0 <= j <= |batch|
      invariant marked == marked0 + Elems(batch[..j])
    {
      assert batch[..j + 1] == batch[..j] + [batch[j]];
      marked := marked + {batch[j]};
      j := j + 1;
    }
    assert batch[..j] == batch;
  }

  /** TurnDecider::decide_turn. Only WantsToTakeTurn changes: it is cleared
      and then held by exactly the batch; no time score changes. */
  method DecideTurn(w: World) returns (r: RunState)
    requires w.Valid()
    modifies w`wantsToTakeTurn
    ensures w.wantsToTakeTurn == Elems(SelectBatch(Candidates(w.alive, w.takesTurn, w.names),
      w.globalTurns + w.players + w.isVisible))
    ensures r == Outcome(Candidates(w.alive, w.takesTurn, w.names), w.players)
  {
    w.wantsToTakeTurn := {};
    var data := SortByScore(w.takesTurn, Join(w.alive, w.takesTurn.Keys * w.names.Keys));
    var batch, isPlayerTurn := TakeBatch(data, w.globalTurns, w.players, w.isVisible);
    w.wantsToTakeTurn := MarkAll(w.wantsToTakeTurn, batch);
    if isPlayerTurn {
      r := AwaitingInput;
    } else {
      r := WorldTurn;
    }
  }
}
