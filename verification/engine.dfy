/**
 The Snake rules engine as an immutable state record and one transition
 function per command. `Tick` is what the periodic timer runs.

 The body is ordered tail to head: the head is the LAST element.
 The timer is reduced to the flag `ticking`, and the settings store that
 persists the high score to the field `storedHighScore`.
 */
module SnakeEngine {
  import opened SnakeTypes
  import opened FoodPlacement

  const MinSpeed: int := 50
  const MaxSpeed: int := 300
  /** Milliseconds between two ticks in a fresh engine. */
  const DefaultSpeed: int := 150

  datatype Game = Game(
    body: seq<Point>,
    food: Rect,
    state: GameState,
    direction: Direction,
    score: int,
    highScore: int,
    paused: bool,
    speed: int,
    ticking: bool,
    storedHighScore: int
  )

  function Max(a: int, b: int): int { if a < b then b else a }

  function Head(body: seq<Point>): Point
    requires |body| > 0
  {
    body[|body| - 1]
  }

  /** The timer callback does work only in this case. */
  predicate Live(g: Game) {
    g.state == Running && !g.paused
  }

  /** The head lies in the food square. */
  predicate HeadInFood(g: Game)
    requires |g.body| > 0
  {
    Contains(g.food, Head(g.body))
  }

  /** The body once eating has appended a segment one step beyond the head. */
  function Grown(g: Game): seq<Point>
    requires |g.body| > 0
  {
    g.body + [Advance(Head(g.body), g.direction)]
  }

  /** The candidate head leaves the board or lands on a current segment, the tail included. */
  predicate Collides(p: Point, body: seq<Point>)
    ensures Collides(p, body) <==> !InBounds(p) || exists k :: 0 <= k < |body| && body[k] == p
  {
    p.x < 0 || p.x >= BoardSize || p.y < 0 || p.y >= BoardSize || p in body
  }

  /** A freshly constructed engine; `loaded` is the high score read from the settings store. */
  function New(loaded: int): (g: Game)
    ensures g.state == Init && g.direction == NoMove && g.score == 0 && g.body == []
    ensures !g.paused && MinSpeed <= g.speed <= MaxSpeed && g.speed == DefaultSpeed
    ensures g.highScore == loaded && g.storedHighScore == loaded
    ensures !g.ticking && g.food == EmptyRect
    ensures forall p :: !Contains(g.food, p)
  {
    Game([], EmptyRect, Init, NoMove, 0, loaded, false, DefaultSpeed, false, loaded)
  }

  /** Name of the state as shown to the user interface. */
  function StateName(s: GameState): (name: string)
    ensures |name| > 0
    ensures name == "init" <==> s == Init
  {
    match s
    case Init => "init"
    case Running => "running"
    case Over => "over"
    case Exit => "exit"
  }

  function SetGameSpeed(g: Game, speed: int): (r: Game)
    ensures r.speed == (if MinSpeed <= speed <= MaxSpeed then speed else g.speed)
    ensures MinSpeed <= g.speed <= MaxSpeed ==> MinSpeed <= r.speed <= MaxSpeed
    ensures r == g.(speed := r.speed)
  {
    if speed != g.speed && speed >= MinSpeed && speed <= MaxSpeed then g.(speed := speed) else g
  }

  function SaveHighScore(g: Game): (r: Game)
    ensures r.highScore == Max(g.highScore, g.score)
    ensures r.highScore >= g.highScore && r.highScore >= g.score
    ensures r.highScore != g.highScore ==> r.storedHighScore == r.highScore
    ensures r.highScore == g.highScore ==> r == g
    ensures r == g.(highScore := r.highScore, storedHighScore := r.storedHighScore)
  {
    if g.score > g.highScore then g.(highScore := g.score, storedHighScore := g.score) else g
  }

  /** The starting body, built segment by segment from the tail. */
  function InitialBody(): (body: seq<Point>)
    ensures body == [Point(30, 10), Point(20, 10), Point(10, 10)]
    ensures |body| == InitialSize && Head(body) == Point(Step, Step)
  {
    seq(InitialSize, i requires 0 <= i < InitialSize => Point(Step * (InitialSize - i), Step))
  }

  function StartGame(g: Game, draws: seq<Draw>): (r: Game)
    requires HasAccepted(InitialBody(), draws)
    ensures r.score == 0 && r.state == Running && r.ticking
    ensures r.body == [Point(30, 10), Point(20, 10), Point(10, 10)]
    ensures forall k :: 0 <= k < |r.body| ==> !Contains(r.food, r.body[k])
    ensures IsFoodSquare(r.food)
    ensures r.direction == g.direction && r.paused == g.paused
    ensures r.highScore == g.highScore && r.storedHighScore == g.storedHighScore && r.speed == g.speed
  {
    var body := InitialBody();
    g.(score := 0, body := body, food := PlaceFood(body, draws), state := Running, ticking := true)
  }

  function ResetGame(g: Game): (r: Game)
    ensures r.body == [] && r.state == Init && r.direction == NoMove && !r.ticking
    ensures r.score == g.score && r.highScore == g.highScore && r.storedHighScore == g.storedHighScore
    ensures r.paused == g.paused && r.speed == g.speed && r.food == g.food
  {
    g.(ticking := false, body := [], state := Init, direction := NoMove)
  }

  /** Flips the pause flag; the timer runs exactly when the game is not paused afterwards. */
  function TogglePause(g: Game): (r: Game)
    ensures r.paused != g.paused
    ensures r.ticking == !r.paused
    ensures r == g.(paused := r.paused, ticking := r.ticking)
  {
    var paused := !g.paused;
    g.(paused := paused, ticking := !paused)
  }

  /** The four rejected (current, requested) pairs: exactly the requests that
      reverse a moving direction. */
  predicate IsReversal(current: Direction, requested: Direction)
    ensures IsReversal(current, requested) <==> current != NoMove && requested == Opposite(current)
  {
    || (current == Left && requested == Right)
    || (current == Right && requested == Left)
    || (current == Up && requested == Down)
    || (current == Down && requested == Up)
  }

  function ChangeDirection(g: Game, d: Direction): (r: Game)
    ensures g.state != Running ==> r == g
    ensures g.state == Running ==>
      r == g.(direction := if g.direction != NoMove && d == Opposite(g.direction) then g.direction else d)
  {
    if g.state != Running then g
    else if IsReversal(g.direction, d) then g
    else g.(direction := d)
  }

  /** Eating: the score goes up, a segment is appended one step beyond the head
      without any check, and new food is placed clear of the grown body. */
  function EvalFood(g: Game, draws: seq<Draw>): (r: Game)
    requires |g.body| > 0
    requires HeadInFood(g) ==> HasAccepted(Grown(g), draws)
    ensures !HeadInFood(g) ==> r == g
    ensures HeadInFood(g) ==>
      && r.score == g.score + 1
      && r.body == g.body + [Advance(Head(g.body), g.direction)]
      && IsFoodSquare(r.food)
      && (forall k :: 0 <= k < |r.body| ==> !Contains(r.food, r.body[k]))
      && r == g.(score := r.score, body := r.body, food := r.food)
  {
    if HeadInFood(g) then
      var body := Grown(g);
      g.(score := g.score + 1, body := body, food := PlaceFood(body, draws))
    else g
  }

  /** The end-of-game test on the candidate head. */
  function EvalGame(g: Game, next: Point): (r: Game)
    ensures !Collides(next, g.body) ==> r == g
    ensures Collides(next, g.body) ==>
      && r.state == Over && !r.ticking
      && r.highScore == Max(g.highScore, g.score)
      && r.storedHighScore == (if g.score > g.highScore then g.score else g.storedHighScore)
      && r == g.(state := Over, ticking := false, highScore := r.highScore, storedHighScore := r.storedHighScore)
  {
    if Collides(next, g.body) then
      SaveHighScore(g.(state := Over)).(ticking := false)
    else g
  }

  /** What a tick needs: a body to read the head from, and a draw stream that can place food. */
  predicate TickReady(g: Game, draws: seq<Draw>) {
    Live(g) ==> |g.body| > 0 && (HeadInFood(g) ==> HasAccepted(Grown(g), draws))
  }

  /** One timer tick. The move starts from the last segment after eating,
      so after a meal it starts from the segment eating appended. */
  function Tick(g: Game, draws: seq<Draw>): (r: Game)
    requires TickReady(g, draws)
    ensures r.highScore >= g.highScore
    ensures r.direction == g.direction && r.paused == g.paused && r.speed == g.speed
    ensures r.state == g.state || (Live(g) && r.state == Over)
    ensures r.state == Over && g.state != Over ==> r.highScore >= r.score
  {
    if !Live(g) then g
    else
      var ate := HeadInFood(g);
      var g1 := if ate then EvalFood(g, draws) else g;
      if g1.direction == NoMove then g1
      else
        var next := Advance(Head(g1.body), g1.direction);
        var g2 := EvalGame(g1, next);
        if g2.state == Over then g2
        else g2.(body := (if ate then g2.body else g2.body[1..]) + [next])
  }

  /** The operations the user interface can invoke, and the timer tick.
      Commands that place food carry the generator's draws. */
  datatype Command =
    | Start(startDraws: seq<Draw>)
    | Turn(to: Direction)
    | Reset
    | Pause
    | Speed(ms: int)
    | Save
    | Timer(tickDraws: seq<Draw>)

  predicate Enabled(g: Game, c: Command) {
    match c
    case Start(draws) => HasAccepted(InitialBody(), draws)
    case Timer(draws) => TickReady(g, draws)
    case _ => true
  }

  function Apply(g: Game, c: Command): (r: Game)
    requires Enabled(g, c)
    ensures r.highScore >= g.highScore
    ensures r.state != Exit || g.state == Exit
  {
    match c
    case Start(draws) => StartGame(g, draws)
    case Turn(d) => ChangeDirection(g, d)
    case Reset => ResetGame(g)
    case Pause => TogglePause(g)
    case Speed(ms) => SetGameSpeed(g, ms)
    case Save => SaveHighScore(g)
    case Timer(draws) => Tick(g, draws)
  }
}
