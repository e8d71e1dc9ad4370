/**
 The vocabulary of the Snake engine: its constants, the two enumerations,
 grid points and the rectangle type used for the food square.

 Points and rectangles follow the conventions of the toolkit the engine is
 written against: a rectangle built from (left, top, width, height) covers
 the columns left .. left + width - 1 and the rows top .. top + height - 1,
 both ends included.
 */
module SnakeTypes {

  /** Length of one move, and the grid spacing of every segment. */
  const Step: int := 10
  /** Number of segments a new game starts with. */
  const InitialSize: int := 3
  /** The playing field covers coordinates 0 .. BoardSize - 1 on both axes. */
  const BoardSize: int := 400
  /** Side of the food square, and the offset from its centre to its corner. */
  const FoodSide: int := 10
  const FoodHalf: int := 5

  datatype Direction = NoMove | Left | Right | Up | Down

  /** `Exit` is part of the enumeration but no operation ever enters it. */
  datatype GameState = Init | Running | Over | Exit

  datatype Point = Point(x: int, y: int)

  datatype Rect = Rect(left: int, top: int, width: int, height: int)

  /** Inclusive right and bottom edges. */
  function RightEdge(r: Rect): int { r.left + r.width - 1 }
  function BottomEdge(r: Rect): int { r.top + r.height - 1 }

  /** Non-strict containment: edges belong to the rectangle, so a rectangle covers
      `width` columns and `height` rows from its corner, and none when either is zero. */
  predicate Contains(r: Rect, p: Point)
    ensures Contains(r, p) <==> 0 <= p.x - r.left < r.width && 0 <= p.y - r.top < r.height
    ensures r.width <= 0 || r.height <= 0 ==> !Contains(r, p)
  {
    r.left <= p.x <= RightEdge(r) && r.top <= p.y <= BottomEdge(r)
  }

  /** The rectangle a default-constructed food field holds: it contains nothing. */
  const EmptyRect: Rect := Rect(0, 0, 0, 0)

  lemma EmptyRectContainsNothing(p: Point)
    ensures !Contains(EmptyRect, p)
  {}

  /** The 10x10 square the engine draws around a food centre. */
  function FoodSquare(c: Point): Rect {
    Rect(c.x - FoodHalf, c.y - FoodHalf, FoodSide, FoodSide)
  }

  /** The square holds its centre, and exactly the points from 5 before to 4 after it on each axis. */
  lemma FoodSquareSpan(c: Point, p: Point)
    ensures Contains(FoodSquare(c), c)
    ensures Contains(FoodSquare(c), p) <==>
      c.x - FoodHalf <= p.x <= c.x + FoodHalf - 1 && c.y - FoodHalf <= p.y <= c.y + FoodHalf - 1
  {}

  function FoodCentre(r: Rect): Point {
    Point(r.left + FoodHalf, r.top + FoodHalf)
  }

  predicate OnGrid(p: Point) {
    p.x % Step == 0 && p.y % Step == 0
  }

  predicate InBounds(p: Point) {
    0 <= p.x < BoardSize && 0 <= p.y < BoardSize
  }

  /** Two multiples of the step that lie within half a cell of each other are equal. */
  lemma SameCell(a: int, b: int)
    requires a % Step == 0 && b % Step == 0
    requires b - FoodHalf <= a <= b + FoodHalf - 1
    ensures a == b
  {
    var qa, qb := a / Step, b / Step;
    assert a == Step * qa;
    assert b == Step * qb;
    assert -FoodHalf <= Step * (qa - qb) <= FoodHalf - 1;
  }

  /** For grid-aligned points, lying in the food square is the same as sitting on its centre. */
  lemma GridContainment(c: Point, p: Point)
    requires OnGrid(c) && OnGrid(p)
    ensures Contains(FoodSquare(c), p) <==> p == c
  {
    if Contains(FoodSquare(c), p) {
      SameCell(p.x, c.x);
      SameCell(p.y, c.y);
    }
  }

  /** The move reversing `d`; `NoMove` has no reverse and maps to itself. */
  function Opposite(d: Direction): (o: Direction)
    ensures (o == NoMove) == (d == NoMove)
    ensures o != d || d == NoMove
  {
    match d
    case NoMove => NoMove
    case Left => Right
    case Right => Left
    case Up => Down
    case Down => Up
  }

  lemma OppositeInvolutive(d: Direction)
    ensures Opposite(Opposite(d)) == d
  {}

  /** One step in direction `d`; the y axis grows downwards. */
  function Advance(p: Point, d: Direction): (q: Point)
    ensures d == NoMove ==> q == p
    ensures d != NoMove ==>
      || (q.y == p.y && (q.x == p.x - Step || q.x == p.x + Step))
      || (q.x == p.x && (q.y == p.y - Step || q.y == p.y + Step))
    ensures OnGrid(p) ==> OnGrid(q)
  {
    match d
    case NoMove => p
    case Left => Point(p.x - Step, p.y)
    case Right => Point(p.x + Step, p.y)
    case Up => Point(p.x, p.y - Step)
    case Down => Point(p.x, p.y + Step)
  }

  /** A step followed by the opposite step returns to the start: reversing walks into the neck. */
  lemma ReverseUndoesAdvance(p: Point, d: Direction)
    ensures Advance(Advance(p, d), Opposite(d)) == p
  {}

  /** A moving step always lands on a different point. */
  lemma AdvanceMoves(p: Point, d: Direction)
    ensures Advance(p, d) == p <==> d == NoMove
  {}
}
