/**
 Properties of the engine: what one tick does in each of its cases, the
 invariant every command preserves, and what holds along any run of
 commands from a fresh engine.
 */
module SnakeProperties {
  import opened SnakeTypes
  import opened FoodPlacement
  import opened SnakeEngine

  /** What every reachable engine satisfies. No-duplicate segments is NOT part of it:
      eating while the direction is `NoMove` appends a copy of the head. */
  predicate Valid(g: Game) {
    && MinSpeed <= g.speed <= MaxSpeed
    && g.state != Exit
    && g.storedHighScore == g.highScore
    && (g.state == Init ==> g.body == [])
    && (g.state != Init ==> |g.body| >= InitialSize)
    && (g.state == Running ==> IsFoodSquare(g.food) && AllPlaced(g.body))
    && (g.state == Over ==> g.highScore >= g.score)
    && (Live(g) ==> g.ticking)
  }

  /** Every segment sits on a grid point of the board. */
  predicate AllPlaced(body: seq<Point>) {
    forall k :: 0 <= k < |body| ==> OnGrid(body[k]) && InBounds(body[k])
  }

  // ---------------------------------------------------------------------------
  // Names and commands

  lemma StateNameInjective(a: GameState, b: GameState)
    ensures StateName(a) == StateName(b) <==> a == b
  {
    if a != b {
      assert StateName(a)[0] != StateName(b)[0] || |StateName(a)| != |StateName(b)|;
    }
  }

  /** While running, a request for the reverse of the current move is ignored. */
  lemma ChangeDirectionIgnoresReverse(g: Game, d: Direction)
    requires g.state == Running && d != NoMove && g.direction == d
    ensures ChangeDirection(g, Opposite(d)) == g
  {}

  lemma TogglePauseTwice(g: Game)
    ensures TogglePause(TogglePause(g)) == g.(ticking := !g.paused)
    ensures Valid(g) && Live(g) ==> TogglePause(TogglePause(g)) == g
  {}

  lemma SaveHighScoreIdempotent(g: Game)
    ensures SaveHighScore(SaveHighScore(g)) == SaveHighScore(g)
  {}

  // ---------------------------------------------------------------------------
  // One tick, case by case

  lemma TickIdleUnlessLive(g: Game, draws: seq<Draw>)
    requires !Live(g)
    ensures Tick(g, draws) == g
  {}

  /** The timer flag is enough to tell whether ticks matter: on a valid engine whose
      timer is stopped, a tick would change nothing. */
  lemma TickIdleWithoutTimer(g: Game, draws: seq<Draw>)
    requires Valid(g) && !g.ticking
    ensures TickReady(g, draws) && Tick(g, draws) == g
  {}

  /** Without a direction and without food under the head, a tick does nothing. */
  lemma TickIdleWithoutDirection(g: Game, draws: seq<Draw>)
    requires Live(g) && |g.body| > 0 && !HeadInFood(g) && g.direction == NoMove
    ensures Tick(g, draws) == g
  {}

  /** A tick that does not eat: the body slides forward when the candidate head is
      free, and the game ends with the body untouched when it is not. */
  lemma TickWithoutFood(g: Game, draws: seq<Draw>)
    requires Live(g) && |g.body| > 0 && !HeadInFood(g) && g.direction != NoMove
    ensures var r, next := Tick(g, draws), Advance(Head(g.body), g.direction);
      && (r.state == Over <==> Collides(next, g.body))
      && r.score == g.score && r.food == g.food
      && (!Collides(next, g.body) ==>
            r.body == g.body[1..] + [next] && |r.body| == |g.body| && r == g.(body := r.body))
      && (Collides(next, g.body) ==>
            && r.body == g.body && !r.ticking && r.highScore == Max(g.highScore, g.score)
            && r.storedHighScore == (if g.score > g.highScore then g.score else g.storedHighScore)
            && r == g.(state := Over, ticking := false, highScore := r.highScore, storedHighScore := r.storedHighScore))
  {}

  /** A tick that eats. The score rises by one, a segment one step beyond the head is
      appended unchecked, food moves clear of that grown body, and the move then starts
      from the appended segment; on success no tail is dropped. */
  lemma TickWithFood(g: Game, draws: seq<Draw>)
    requires Live(g) && |g.body| > 0 && HeadInFood(g) && HasAccepted(Grown(g), draws)
    ensures var r, seg := Tick(g, draws), Advance(Head(g.body), g.direction);
      var next := Advance(seg, g.direction);
      && r.score == g.score + 1
      && r.food == PlaceFood(Grown(g), draws)
      && IsFoodSquare(r.food)
      && (forall k :: 0 <= k < |Grown(g)| ==> !Contains(r.food, Grown(g)[k]))
      && (g.direction == NoMove ==> r.body == g.body + [Head(g.body)] && r.state == Running)
      && (g.direction != NoMove ==> (r.state == Over <==> Collides(next, Grown(g))))
      && (g.direction != NoMove && !Collides(next, Grown(g)) ==>
            r.body == g.body + [seg, next] && |r.body| == |g.body| + 2)
      && (g.direction == NoMove || !Collides(next, Grown(g)) ==>
            r == g.(score := r.score, body := r.body, food := r.food))
      && (g.direction != NoMove && Collides(next, Grown(g)) ==>
            && r.body == Grown(g)
            && r.highScore == Max(g.highScore, g.score + 1)
            && r.storedHighScore == (if g.score + 1 > g.highScore then g.score + 1 else g.storedHighScore)
            && r == g.(score := r.score, body := Grown(g), food := r.food, state := Over, ticking := false,
                       highScore := r.highScore, storedHighScore := r.storedHighScore))
  {
    var seg := Advance(Head(g.body), g.direction);
    assert Head(Grown(g)) == seg;
    assert Grown(g) + [Advance(seg, g.direction)] == g.body + [seg, Advance(seg, g.direction)];
  }

  /** On a valid running board, the head is in the food exactly when it sits on the food's centre. */
  lemma HeadInFoodIsCentre(g: Game)
    requires Valid(g) && g.state == Running
    ensures HeadInFood(g) <==> Head(g.body) == FoodCentre(g.food)
  {
    GridContainment(FoodCentre(g.food), Head(g.body));
  }

  // ---------------------------------------------------------------------------
  // The invariant

  lemma NewIsValid(loaded: int)
    ensures Valid(New(loaded))
  {}

  lemma StartBodyPlaced()
    ensures AllPlaced(InitialBody())
  {
    var b := InitialBody();
    assert b[0] == Point(30, 10) && b[1] == Point(20, 10) && b[2] == Point(10, 10);
  }

  /** Appending a placed point keeps a body placed. */
  lemma AppendPlaced(body: seq<Point>, p: Point)
    requires AllPlaced(body) && OnGrid(p) && InBounds(p)
    ensures AllPlaced(body + [p])
  {
    assert forall k :: 0 <= k < |body| ==> (body + [p])[k] == body[k];
  }

  /** A point between two in-bounds points on one axis is in bounds too. */
  lemma MiddleInBounds(head: Point, d: Direction)
    requires InBounds(head) && InBounds(Advance(Advance(head, d), d))
    ensures InBounds(Advance(head, d))
  {}

  lemma TickPreservesValid(g: Game, draws: seq<Draw>)
    requires Valid(g) && TickReady(g, draws)
    ensures Valid(Tick(g, draws))
  {
    if !Live(g) {
      return;
    }
    var r := Tick(g, draws);
    var head := Head(g.body);
    assert OnGrid(head) && InBounds(head);
    var seg := Advance(head, g.direction);
    var next := Advance(seg, g.direction);
    if HeadInFood(g) {
      TickWithFood(g, draws);
      if g.direction == NoMove {
        AppendPlaced(g.body, head);
      } else if !Collides(next, Grown(g)) {
        MiddleInBounds(head, g.direction);
        AppendPlaced(g.body, seg);
        AppendPlaced(g.body + [seg], next);
        assert g.body + [seg] + [next] == g.body + [seg, next];
      }
    } else if g.direction != NoMove {
      TickWithoutFood(g, draws);
      var moved := Advance(head, g.direction);
      if !Collides(moved, g.body) {
        assert forall k :: 0 <= k < |g.body| - 1 ==> g.body[1..][k] == g.body[k + 1];
        AppendPlaced(g.body[1..], moved);
      }
    }
  }

  lemma ApplyPreservesValid(g: Game, c: Command)
    requires Valid(g) && Enabled(g, c)
    ensures Valid(Apply(g, c))
  {
    match c
    case Start(draws) => StartBodyPlaced();
    case Timer(draws) => TickPreservesValid(g, draws);
    case _ =>
  }

  // ---------------------------------------------------------------------------
  // Runs of commands

  /** Every command in `cmds` can be applied in turn; food placements find a free square. */
  predicate RunEnabled(g: Game, cmds: seq<Command>)
    decreases |cmds|
  {
    |cmds| == 0 || (Enabled(g, cmds[0]) && RunEnabled(Apply(g, cmds[0]), cmds[1..]))
  }

  function Run(g: Game, cmds: seq<Command>): (r: Game)
    requires RunEnabled(g, cmds)
    ensures r.highScore >= g.highScore
    ensures r.state != Exit || g.state == Exit
    decreases |cmds|
  {
    if |cmds| == 0 then g else Run(Apply(g, cmds[0]), cmds[1..])
  }

  lemma {:induction false} RunPreservesValid(g: Game, cmds: seq<Command>)
    requires Valid(g) && RunEnabled(g, cmds)
    ensures Valid(Run(g, cmds))
    decreases |cmds|
  {
    if |cmds| > 0 {
      ApplyPreservesValid(g, cmds[0]);
      RunPreservesValid(Apply(g, cmds[0]), cmds[1..]);
    }
  }

  /** From a fresh engine: the speed stays in its window, the exit state is never
      entered, the high score never falls below the loaded one and the stored value
      always equals it. */
  lemma Reachable(loaded: int, cmds: seq<Command>)
    requires RunEnabled(New(loaded), cmds)
    ensures var r := Run(New(loaded), cmds);
      && Valid(r)
      && MinSpeed <= r.speed <= MaxSpeed
      && r.state != Exit
      && r.highScore >= loaded
      && r.storedHighScore == r.highScore
  {
    NewIsValid(loaded);
    RunPreservesValid(New(loaded), cmds);
  }
}
