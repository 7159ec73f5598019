/** What the game component's onEvent handler accumulates from the events
    of the game loop: the score, the highest rank merged so far (which bounds
    the droppable ranks), whether the loop keeps running, whether the engine
    has started, and the scores handed to onGameOver. */
module Session {
  import opened Entities

  datatype Session = Session(
    score: int,
    maxFruitIndex: int,
    running: bool,
    engineReady: bool,
    reported: seq<int>)

  /** The state of a freshly mounted component. */
  const Initial: Session := Session(0, 0, true, false, [])

  /** onEvent for one event: SCORE_UPDATE adds its score and raises the
      highest rank; GAME_OVER stops the loop and reports the score;
      "started" marks the engine ready; the others change nothing here. */
  function Apply(s: Session, e: GameEvent): (r: Session)
    ensures r.score == s.score + (if e.ScoreUpdate? then e.score else 0)
    ensures r.maxFruitIndex == (if e.ScoreUpdate? && e.index > s.maxFruitIndex then e.index else s.maxFruitIndex)
    ensures r.running == (s.running && !e.GameOver?)
    ensures r.engineReady == (s.engineReady || e.Started?)
    ensures r.reported == s.reported + (if e.GameOver? then [s.score] else [])
  {
    match e
    case ScoreUpdate(score, index) =>
      s.(score := s.score + score, maxFruitIndex := if index > s.maxFruitIndex then index else s.maxFruitIndex)
    case GameOver => s.(running := false, reported := s.reported + [s.score])
    case PlaySound(_) => s
    case Started => s.(engineReady := true)
    case AddBody(_, _) => s
  }

  /** onEvent over a run of events, in order. */
  function ApplyAll(s: Session, es: seq<GameEvent>): Session
    decreases |es|
  {
    if es == [] then s else Apply(ApplyAll(s, es[..|es| - 1]), es[|es| - 1])
  }

  /** The sum of the SCORE_UPDATE amounts of a run of events. */
  function ScoreSum(es: seq<GameEvent>): int
    decreases |es|
  {
    if es == [] then 0
    else ScoreSum(es[..|es| - 1]) + (if es[|es| - 1].ScoreUpdate? then es[|es| - 1].score else 0)
  }

  /** The score is the starting score plus every SCORE_UPDATE amount
      received. */
  lemma {:induction false} ScoreIsSum(s: Session, es: seq<GameEvent>)
    ensures ApplyAll(s, es).score == s.score + ScoreSum(es)
    decreases |es|
  {
    if es != [] {
      ScoreIsSum(s, es[..|es| - 1]);
    }
  }

  /** The highest rank is only ever raised: it ends at least where it
      started and at least at the rank of every SCORE_UPDATE received, and
      it is always one of those values. */
  lemma {:induction false} MaxOnlyRises(s: Session, es: seq<GameEvent>)
    ensures ApplyAll(s, es).maxFruitIndex >= s.maxFruitIndex
    ensures forall i :: 0 <= i < |es| && es[i].ScoreUpdate? ==> ApplyAll(s, es).maxFruitIndex >= es[i].index
    ensures ApplyAll(s, es).maxFruitIndex == s.maxFruitIndex
      || exists i :: 0 <= i < |es| && es[i].ScoreUpdate? && ApplyAll(s, es).maxFruitIndex == es[i].index
    decreases |es|
  {
    if es != [] {
      var init := es[..|es| - 1];
      MaxOnlyRises(s, init);
      forall i | 0 <= i < |init| ensures es[i] == init[i] { }
    }
  }

  /** The first GAME_OVER stops the loop for good (no event restarts it)
      and reports the score reached by then. */
  lemma {:induction false} GameOverStops(s: Session, es: seq<GameEvent>, i: nat)
    requires i < |es| && es[i].GameOver?
    ensures !ApplyAll(s, es).running
    ensures |ApplyAll(s, es).reported| > |s.reported|
    decreases |es|
  {
    var init := es[..|es| - 1];
    if i < |es| - 1 {
      assert init[i] == es[i];
      GameOverStops(s, init, i);
    }
    ReportsOnlyGrow(s, init);
  }

  /** Reports are only ever appended. */
  lemma {:induction false} ReportsOnlyGrow(s: Session, es: seq<GameEvent>)
    ensures |s.reported| <= |ApplyAll(s, es).reported|
    ensures ApplyAll(s, es).reported[..|s.reported|] == s.reported
    decreases |es|
  {
    if es != [] {
      ReportsOnlyGrow(s, es[..|es| - 1]);
    }
  }

  /** Without a GAME_OVER the loop keeps its running flag and nothing is
      reported. */
  lemma {:induction false} NoGameOverKeepsRunning(s: Session, es: seq<GameEvent>)
    requires forall i :: 0 <= i < |es| ==> !es[i].GameOver?
    ensures ApplyAll(s, es).running == s.running
    ensures ApplyAll(s, es).reported == s.reported
    decreases |es|
  {
    if es != [] {
      NoGameOverKeepsRunning(s, es[..|es| - 1]);
    }
  }
}
