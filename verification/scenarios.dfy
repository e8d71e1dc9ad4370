/**
 Concrete and near-concrete runs of the engine that pin down behaviour a
 reader might not expect: the head is the last
 segment, a meal is only noticed on the tick after the head reaches the
 food, a successful meal grows the body by two, and segments can repeat.
 */
module SnakeScenarios {
  import opened SnakeTypes
  import opened FoodPlacement
  import opened SnakeEngine
  import opened SnakeProperties

  /** Food at (10, 20), directly below the starting head. */
  const BelowHead: Draw := Draw(0, 1)
  /** Food far from the snake, at (210, 210). */
  const FarAway: Draw := Draw(20, 20)

  lemma BelowHeadIsFree()
    ensures Accepted(InitialBody(), BelowHead) && HasAccepted(InitialBody(), [BelowHead])
    ensures Candidate(BelowHead) == FoodSquare(Point(10, 20))
  {
    assert [BelowHead][0] == BelowHead;
  }

  /** The starting head is (10, 10), the left end, so turning right right after the
      start sends the head into the middle segment and ends the game. A snake that
      was already moving left keeps moving left instead, since right reverses it. */
  lemma FirstMoveRightCollides(g: Game, draws: seq<Draw>)
    requires HasAccepted(InitialBody(), draws) && !g.paused && g.direction != Left
    ensures var s := ChangeDirection(StartGame(g, draws), Right);
      && s.direction == Right
      && TickReady(s, [])
      && Tick(s, []).state == Over
      && Tick(s, []).body == [Point(30, 10), Point(20, 10), Point(10, 10)]
  {
    var s := ChangeDirection(StartGame(g, draws), Right);
    assert Head(s.body) == Point(10, 10);
    assert !HeadInFood(s);
    TickWithoutFood(s, []);
    assert Advance(Head(s.body), Right) == s.body[1];
  }

  /** The move goes into the tail's cell: the tail has not yet moved away when the
      candidate head is tested, so the game ends. */
  lemma TailIsAnObstacle(g: Game, draws: seq<Draw>)
    requires Live(g) && |g.body| > 0 && !HeadInFood(g) && g.direction != NoMove
    requires Advance(Head(g.body), g.direction) == g.body[0]
    ensures Tick(g, draws).state == Over && Tick(g, draws).body == g.body
  {
    TickWithoutFood(g, draws);
  }

  /** Start with food below the head, turn down, and tick twice. The first tick only
      moves the head onto the food; the second eats it, raises the score to 1 and,
      because the move succeeds, grows the body from 3 to 5 segments. */
  lemma EatingScenario(g: Game)
    requires !g.paused && g.direction != Up
    ensures HasAccepted(InitialBody(), [BelowHead])
    ensures var s0 := ChangeDirection(StartGame(g, [BelowHead]), Down);
      && TickReady(s0, [])
      && var s1 := Tick(s0, []);
      && s1.score == 0 && s1.state == Running
      && s1.body == [Point(20, 10), Point(10, 10), Point(10, 20)]
      && TickReady(s1, [FarAway])
      && var s2 := Tick(s1, [FarAway]);
      && s2.score == 1 && s2.state == Running
      && s2.body == [Point(20, 10), Point(10, 10), Point(10, 20), Point(10, 30), Point(10, 40)]
      && s2.food == FoodSquare(Point(210, 210))
  {
    BelowHeadIsFree();
    PlaceFoodFirstTry(InitialBody(), BelowHead, []);
    assert [BelowHead] + [] == [BelowHead];
    var s0 := ChangeDirection(StartGame(g, [BelowHead]), Down);
    assert s0.food == FoodSquare(Point(10, 20));
    assert !HeadInFood(s0);
    assert s0.body[1..] == [Point(20, 10), Point(10, 10)];
    assert !Collides(Point(10, 20), s0.body);
    TickWithoutFood(s0, []);
    var s1 := Tick(s0, []);
    assert s1.body == [Point(20, 10), Point(10, 10), Point(10, 20)];
    assert HeadInFood(s1);
    assert Accepted(Grown(s1), FarAway) by {
      GridAccepts(Grown(s1), Point(210, 210));
    }
    PlaceFoodFirstTry(Grown(s1), FarAway, []);
    assert [FarAway] + [] == [FarAway];
    assert Grown(s1) == [Point(20, 10), Point(10, 10), Point(10, 20), Point(10, 30)];
    assert !Collides(Point(10, 40), Grown(s1));
    TickWithFood(s1, [FarAway]);
  }

  /** A square around a grid point that no segment sits on is accepted, provided every
      segment lies on the grid. */
  lemma GridAccepts(body: seq<Point>, c: Point)
    requires OnGrid(c) && forall k :: 0 <= k < |body| ==> OnGrid(body[k]) && body[k] != c
    ensures !Hits(FoodSquare(c), body)
  {
    forall k | 0 <= k < |body|
      ensures !Contains(FoodSquare(c), body[k])
    {
      GridContainment(c, body[k]);
    }
  }

  /** Segments can repeat: after turning down onto the food and then stopping, the
      next tick eats with no direction and appends a copy of the head. */
  lemma DuplicateSegments(g: Game)
    requires !g.paused && g.direction != Up
    ensures HasAccepted(InitialBody(), [BelowHead])
    ensures var s0 := ChangeDirection(StartGame(g, [BelowHead]), Down);
      && TickReady(s0, [])
      && var s1 := ChangeDirection(Tick(s0, []), NoMove);
      && TickReady(s1, [FarAway])
      && var s2 := Tick(s1, [FarAway]);
      && s2.state == Running && s2.score == 1
      && s2.body == [Point(20, 10), Point(10, 10), Point(10, 20), Point(10, 20)]
  {
    BelowHeadIsFree();
    PlaceFoodFirstTry(InitialBody(), BelowHead, []);
    assert [BelowHead] + [] == [BelowHead];
    var s0 := ChangeDirection(StartGame(g, [BelowHead]), Down);
    assert !HeadInFood(s0);
    assert s0.body[1..] == [Point(20, 10), Point(10, 10)];
    assert !Collides(Point(10, 20), s0.body);
    TickWithoutFood(s0, []);
    var s1 := ChangeDirection(Tick(s0, []), NoMove);
    assert s1.body == [Point(20, 10), Point(10, 10), Point(10, 20)];
    assert HeadInFood(s1);
    assert Accepted(Grown(s1), FarAway) by {
      GridAccepts(Grown(s1), Point(210, 210));
    }
    PlaceFoodFirstTry(Grown(s1), FarAway, []);
    assert [FarAway] + [] == [FarAway];
    TickWithFood(s1, [FarAway]);
  }
}
