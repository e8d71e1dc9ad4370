/**
 Food placement. The engine draws two random indices in [0, 39), shifts each
 by one and scales it by the step, so food centres lie on the grid at
 10, 20, .., 390 on both axes. A draw is rejected while its square contains
 any body segment, and drawing repeats until one is accepted.

 The random generator is replaced by the stream of draws it would produce,
 supplied by the caller. The retry loop terminates only if the stream holds
 an accepted draw, so the operations here require one.
 */
module FoodPlacement {
  import opened SnakeTypes

  /** Number of distinct values the generator returns on each axis. */
  const Cells: int := 39

  /** A raw result of the bounded generator. */
  type Index = i: int | 0 <= i < Cells

  /** One attempt: the raw index for x, then the raw index for y. */
  datatype Draw = Draw(i: Index, j: Index)

  /** The square a draw proposes. */
  function Candidate(d: Draw): (r: Rect)
    ensures r.width == FoodSide && r.height == FoodSide
    ensures FoodCentre(r) == Point((d.i + 1) * Step, (d.j + 1) * Step)
    ensures Step <= FoodCentre(r).x <= Cells * Step && Step <= FoodCentre(r).y <= Cells * Step
  {
    FoodSquare(Point((d.i + 1) * Step, (d.j + 1) * Step))
  }

  lemma CandidateIsFoodSquare(d: Draw)
    ensures IsFoodSquare(Candidate(d))
    ensures FoodCentre(Candidate(d)) == Point((d.i + 1) * Step, (d.j + 1) * Step)
  {}

  /** A square the placement can produce: centred on a grid point in 10 .. 390. */
  predicate IsFoodSquare(r: Rect) {
    var c := FoodCentre(r);
    && r == FoodSquare(c)
    && OnGrid(c)
    && Step <= c.x <= Cells * Step
    && Step <= c.y <= Cells * Step
  }

  /** Every food square is the candidate of exactly one draw. */
  lemma FoodSquareHasDraw(r: Rect)
    requires IsFoodSquare(r)
    ensures Candidate(Draw(FoodCentre(r).x / Step - 1, FoodCentre(r).y / Step - 1)) == r
  {}

  lemma CandidateInjective(d: Draw, e: Draw)
    ensures Candidate(d) == Candidate(e) <==> d == e
  {}

  /** Some segment of `body` lies in `r`. */
  predicate Hits(r: Rect, body: seq<Point>) {
    exists k :: 0 <= k < |body| && Contains(r, body[k])
  }

  predicate Accepted(body: seq<Point>, d: Draw) {
    !Hits(Candidate(d), body)
  }

  predicate HasAccepted(body: seq<Point>, draws: seq<Draw>) {
    exists k :: 0 <= k < |draws| && Accepted(body, draws[k])
  }

  /** Position in the stream of the draw the retry loop stops at. */
  function FirstAccepted(body: seq<Point>, draws: seq<Draw>): (k: nat)
    requires HasAccepted(body, draws)
    ensures k < |draws| && Accepted(body, draws[k])
    ensures forall m :: 0 <= m < k ==> !Accepted(body, draws[m])
    decreases |draws|
  {
    if Accepted(body, draws[0]) then 0
    else
      AcceptedInTail(body, draws);
      1 + FirstAccepted(body, draws[1..])
  }

  /** Dropping a rejected first draw keeps an accepted one in the stream. */
  lemma AcceptedInTail(body: seq<Point>, draws: seq<Draw>)
    requires HasAccepted(body, draws) && !Accepted(body, draws[0])
    ensures HasAccepted(body, draws[1..])
  {
    var k :| 0 <= k < |draws| && Accepted(body, draws[k]);
    assert draws[1..][k - 1] == draws[k];
  }

  /** The first accepted draw is the only accepted one with no accepted draw before it. */
  lemma FirstAcceptedUnique(body: seq<Point>, draws: seq<Draw>, k: nat)
    requires k < |draws| && Accepted(body, draws[k])
    requires forall m :: 0 <= m < k ==> !Accepted(body, draws[m])
    ensures HasAccepted(body, draws)
    ensures FirstAccepted(body, draws) == k
  {
    var f := FirstAccepted(body, draws);
    assert Accepted(body, draws[f]);
  }

  /** While every draw so far was rejected, the accepted one still lies ahead. */
  lemma AcceptedAhead(body: seq<Point>, draws: seq<Draw>, n: nat)
    requires HasAccepted(body, draws)
    requires forall m :: 0 <= m < n && m < |draws| ==> !Accepted(body, draws[m])
    ensures n < |draws|
  {
    var k :| 0 <= k < |draws| && Accepted(body, draws[k]);
  }

  /** The food square the retry loop settles on. */
  function PlaceFood(body: seq<Point>, draws: seq<Draw>): (r: Rect)
    requires HasAccepted(body, draws)
    ensures IsFoodSquare(r)
    ensures forall k :: 0 <= k < |body| ==> !Contains(r, body[k])
  {
    var k := FirstAccepted(body, draws);
    CandidateIsFoodSquare(draws[k]);
    Candidate(draws[k])
  }

  /** A square the body does not touch is accepted at the first attempt that proposes it. */
  lemma PlaceFoodFirstTry(body: seq<Point>, d: Draw, rest: seq<Draw>)
    requires Accepted(body, d)
    ensures HasAccepted(body, [d] + rest)
    ensures PlaceFood(body, [d] + rest) == Candidate(d)
  {
    assert ([d] + rest)[0] == d;
  }

  /** The rejection test: scans the body and stops at the first segment inside `food`. */
  method Overlaps(food: Rect, body: seq<Point>) returns (hit: bool)
    ensures hit == Hits(food, body)
  {
    hit := false;
    var k := 0;
    while k < |body|
      invariant 0 <= k <= |body|
      invariant !hit
      invariant forall m :: 0 <= m < k ==> !Contains(food, body[m])
    {
      if Contains(food, body[k]) {
        hit := true;
        break;
      }
      k := k + 1;
    }
  }

  /** The retry loop: draws until a square clear of the body is found.
      `used` counts the draws consumed. */
  method InitFood(body: seq<Point>, draws: seq<Draw>) returns (food: Rect, used: nat)
    requires HasAccepted(body, draws)
    ensures 1 <= used <= |draws|
    ensures food == Candidate(draws[used - 1]) && !Hits(food, body)
    ensures forall m :: 0 <= m < used - 1 ==> Hits(Candidate(draws[m]), body)
    ensures food == PlaceFood(body, draws)
  {
    var success := false;
    used := 0;
    food := EmptyRect;
    while !success
      invariant used <= |draws|
      invariant success ==> 1 <= used && food == Candidate(draws[used - 1]) && Accepted(body, draws[used - 1])
      invariant forall m :: 0 <= m < used - (if success then 1 else 0) ==> !Accepted(body, draws[m])
      decreases |draws| - used, !success
    {
      AcceptedAhead(body, draws, used);
      food := Candidate(draws[used]);
      used := used + 1;
      var hit := Overlaps(food, body);
      success := !hit;
    }
    FirstAcceptedUnique(body, draws, used - 1);
  }
}
