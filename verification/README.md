# Snake rules engine in Dafny

This project models the rules engine of a Snake game, the `Snake` class in `snake.cpp` / `snake.h`.
The snake moves on a 10-unit grid inside a 400×400 board. The engine keeps:

- the body, a sequence of points ordered tail to head, so the head is the last element;
- the food square;
- a game state (`Init`, `Running`, `Over`, `Exit`) and a direction (`NoMove`, `Left`, `Right`, `Up`, `Down`);
- the score, the high score, the pause flag and the tick interval ("game speed").

The user interface drives the engine with six commands: start, change direction, toggle pause, set speed, reset and save high score.
A periodic timer runs the per-tick update.

The model is functional. The engine state is an immutable record, `SnakeEngine.Game`.
Each command is a pure function from one record to the next.
The timer callback is `SnakeEngine.Tick`, built from `EvalFood`, `EvalGame` and food placement.
`SnakeEngine.Apply` dispatches one `Command`, and `SnakeProperties.Run` applies a sequence of them.
The `Command` type holds the six invokable commands plus the timer tick. This matches the source's public surface, where the speed is the only externally writable property (`snake.h:28-34`, `snake.h:75-80`). Every other state change therefore goes through a command.

The random food placement is modelled with caller-supplied draws.
The engine draws two indices from a bounded generator and retries until the square they name holds no body segment.
Here the caller supplies that stream of raw draws (`FoodPlacement.Draw`, each index in [0, 39)).
`FoodPlacement.PlaceFood` picks the first accepted draw.
The retry loop itself is written out as the method `FoodPlacement.InitFood` and proved equal to `PlaceFood`.
The loop only ends if the stream holds an accepted draw, so every operation that places food requires one.

The rectangle type follows the toolkit's inclusive convention: a 10-wide square at `x-5` covers `x-5 .. x+4`.
For grid-aligned points, lying in the food square is therefore the same as sitting on its centre (`SnakeTypes.GridContainment`).

Files:
- `types.dfy` (module `SnakeTypes`): constants, enumerations, points, rectangles and moves.
- `food.dfy` (module `FoodPlacement`): draws, the rejection test and the retry loop.
- `engine.dfy` (module `SnakeEngine`): the state record, the commands and the tick.
- `properties.dfy` (module `SnakeProperties`): per-case tick lemmas, the invariant `Valid` and runs of commands.
- `scenarios.dfy` (module `SnakeScenarios`): concrete runs.

## Behaviour a reader might not expect

Each of these follows from the code, and the model keeps it.

- **Eating grows the body by two segments, not one.** Eating appends a segment one step past the head. If the following move succeeds, the tail is also kept (`TickWithFood`, `EatingScenario`).
- **The move after a meal starts from the appended segment.** The update reads the last segment again after eating. The new head is therefore two steps beyond the old head.
- **Eating is noticed one tick late.** The tick that moves the head onto the food does not eat it. The next tick does (`EatingScenario`).
- **The first move to the right ends the game.** The starting body is `[(30,10), (20,10), (10,10)]`, so the head is `(10,10)`. A first move right lands on `(20,10)`. Starting a game does not reset the direction (`FirstMoveRightCollides`).
- **Segments can repeat, so distinct segments are not an invariant.** The appended segment is never checked. With direction `NoMove` it is a copy of the head (`DuplicateSegments`).
- **The collision test sees the tail.** The test uses the body before the move, so moving into the cell the tail is about to leave still ends the game (`TailIsAnObstacle`).

## Model

| member | source | states |
|---|---|---|
| SnakeTypes.FoodSquareSpan | snake.cpp:205 | The food square built at centre (x, y) contains its centre. It contains exactly the points with x-5 ≤ px ≤ x+4 and y-5 ≤ py ≤ y+4: both edges are included. |
| SnakeTypes.GridContainment | snake.cpp:210 | For grid-aligned points, a point lies in the food square exactly when it equals the square's centre. |
| SnakeTypes.Contains | snake.cpp:210 | A rectangle contains a point exactly when the point's offset from the corner is in [0, width) and [0, height). Both edges are included, so a rectangle of zero width or height contains nothing. |
| SnakeTypes.EmptyRectContainsNothing | snake.h:111 | The default rectangle, which a new engine's food field holds, contains no point. |
| SnakeTypes.Advance | snake.cpp:272-277 | A move with a direction changes exactly one coordinate, by exactly ±10. `NoMove` leaves the point where it is. Moves keep points on the grid. |
| SnakeTypes.AdvanceMoves | snake.cpp:272-277 | A step lands on a different point exactly when there is a direction. |
| SnakeTypes.ReverseUndoesAdvance | snake.cpp:172-175 | A step followed by the opposite step returns to the start. This is why reversing would run the head into the neck. |
| SnakeTypes.OppositeInvolutive | snake.cpp:172-175 | The reverse of the reverse of a direction is that direction. |
| FoodPlacement.Candidate | snake.cpp:203-205 | A draw (i, j) proposes a 10×10 square centred at ((i + 1) · 10, (j + 1) · 10). Both centre coordinates lie in 10..390. |
| FoodPlacement.CandidateIsFoodSquare | snake.cpp:203-205 | Every draw proposes a 10×10 square. Its centre is on the grid, with both coordinates in {10, 20, …, 390}, equal to (index + 1) · 10. |
| FoodPlacement.FoodSquareHasDraw | snake.cpp:203-205 | Every square of that shape is the proposal of some draw. |
| FoodPlacement.CandidateInjective | snake.cpp:203-205 | Two draws propose the same square exactly when they are equal. |
| FoodPlacement.FirstAccepted | snake.cpp:201-215 | The retry loop stops at an accepted draw, and every earlier draw was rejected. |
| FoodPlacement.FirstAcceptedUnique | snake.cpp:201-215 | Any accepted draw with only rejected draws before it is the one the loop stops at. |
| FoodPlacement.PlaceFood | snake.cpp:199-217 | The placed food is a grid square with centre in 10..390 on both axes. No body segment lies inside it. |
| FoodPlacement.PlaceFoodFirstTry | snake.cpp:201-214 | A draw whose square is clear of the body is taken at the first attempt. |
| FoodPlacement.Overlaps | snake.cpp:207-214 | The scan over the body, with its early exit, reports a hit exactly when some segment lies in the square. |
| FoodPlacement.InitFood | snake.cpp:199-217 | The retry loop consumes draws up to and including the first accepted one. It returns that draw's square, which holds no segment, after rejecting every earlier draw. The result equals `PlaceFood`. |
| SnakeEngine.New | snake.cpp:14-26 | A new engine is in state `Init` with direction `NoMove`, score 0, an empty body, not paused and speed 150, which is inside [50, 300]. Its high score and stored high score both equal the loaded value. Its food field is the default rectangle, which contains no point. |
| SnakeEngine.StateName | snake.cpp:71-79 | Every state has a non-empty name. The name "init" is produced for `Init` and for no other state, so the source's fallback to "init" is never taken. |
| SnakeEngine.SetGameSpeed | snake.cpp:101-109 | The speed becomes the request when 50 ≤ request ≤ 300 and is otherwise unchanged. The extra "differs from current" test makes no difference. A speed inside the window stays inside. Nothing else changes. |
| SnakeEngine.SaveHighScore | snake.cpp:114-120 | The high score becomes max(high score, score), so it never decreases. When it changes, the stored value follows it. Otherwise the state is untouched. Nothing but those two fields changes. |
| SnakeEngine.InitialBody | snake.cpp:187-194 | The starting body is `[(30,10), (20,10), (10,10)]`: 3 segments with the head at (10,10). |
| SnakeEngine.StartGame | snake.cpp:129-137 | After a start the score is 0, the body is the starting body and the state is `Running`, with the timer on. The food is a grid square holding no body point. Direction, pause flag, high score, stored score and speed are unchanged. |
| SnakeEngine.ResetGame | snake.cpp:142-149 | After a reset the body is empty, the state is `Init`, the direction is `NoMove` and the timer is off. Score, high score, pause flag and speed are unchanged. |
| SnakeEngine.TogglePause | snake.cpp:154-162 | The pause flag flips, and the timer is on exactly when the game is not paused. Nothing else changes. |
| SnakeEngine.IsReversal | snake.cpp:172-175 | The four rejected (current, requested) pairs are exactly those where the request is the opposite of a moving current direction. |
| SnakeEngine.ChangeDirection | snake.cpp:168-178 | Outside `Running` nothing changes. While running, the direction becomes the request, including `NoMove`, unless the request is the opposite of a current moving direction. |
| SnakeEngine.EvalFood | snake.cpp:222-241 | With the head outside the food nothing changes. With the head inside: the score rises by 1; one segment a step beyond the head is appended; and new food is placed clear of the grown body. Nothing else changes. |
| SnakeEngine.Collides | snake.cpp:249-251 | The candidate head collides exactly when it is off the board, or equal to some current segment at any index, the tail included. |
| SnakeEngine.EvalGame | snake.cpp:247-257 | A candidate head that leaves [0, 400) on either axis, or equals any current segment, ends the game. The state becomes `Over` and the timer stops. The high score becomes max(high score, score), and the stored value is rewritten exactly when the score beat the high score. Nothing else changes: body, score, food, direction, pause flag and speed stay as they were. Any other candidate changes nothing. |
| SnakeEngine.Tick | snake.cpp:262-288 | A tick never lowers the high score. It leaves direction, pause flag and speed alone. It changes the state only from `Running` to `Over`, and on that change the high score covers the score. |
| SnakeEngine.Apply | snake.h:75-80 | No command lowers the high score or enters the `Exit` state. |
| SnakeProperties.StateNameInjective | snake.cpp:71-79 | The four states are shown under four different names ("init", "running", "over", "exit"). |
| SnakeProperties.ChangeDirectionIgnoresReverse | snake.cpp:168-178 | While running and moving in d, a request for the opposite of d leaves the engine unchanged. |
| SnakeProperties.TogglePauseTwice | snake.cpp:154-162 | Toggling twice restores everything except the timer flag. On a valid live game it restores everything. |
| SnakeProperties.SaveHighScoreIdempotent | snake.cpp:114-120 | Saving twice is the same as saving once. |
| SnakeProperties.TickIdleUnlessLive | snake.cpp:263 | When the game is not running, or is paused, a tick changes nothing. |
| SnakeProperties.TickIdleWithoutTimer | snake.cpp:255 | On a valid engine whose timer flag is off, a tick would change nothing. So reducing the timer to a flag loses no game behaviour. |
| SnakeProperties.TickIdleWithoutDirection | snake.cpp:277 | With no direction and the head outside the food, a tick changes nothing. |
| SnakeProperties.TickWithoutFood | snake.cpp:266-287 | A tick without eating and with a direction ends the game exactly when the new head (old head ± 10 on one axis) collides. Otherwise the body becomes `body[1..] + [newHead]`: same length, same score, same food, nothing else changed. On collision the body is unchanged, the state becomes `Over`, the timer stops, the high score becomes max(high score, score) and the stored value follows it. Nothing else changes. |
| SnakeProperties.TickWithFood | snake.cpp:266-287 | A tick that starts with the head in the food always raises the score by 1. It places new food clear of the grown body. With no direction, the body gains a copy of the head and the game keeps running. With a direction, the move starts from the appended segment. If it succeeds, the body grows by exactly 2. If it collides with the grown body, the game ends with the grown body kept, the timer stops, and the high score and stored value follow the raised score. In every case nothing else changes: the high score, stored value and timer are untouched unless the game ends. |
| SnakeProperties.HeadInFoodIsCentre | snake.cpp:266 | On a valid running board, the head is in the food exactly when it sits on the food's centre. |
| SnakeProperties.NewIsValid | snake.cpp:14-26 | A new engine satisfies the invariant. |
| SnakeProperties.StartBodyPlaced | snake.cpp:187-194 | Every starting segment is on the grid and on the board. |
| SnakeProperties.TickPreservesValid | snake.cpp:262-288 | A tick keeps the invariant. While running, every segment stays on the grid and inside the board, including the unchecked segment eating appends. |
| SnakeProperties.ApplyPreservesValid | snake.h:75-80 | Every command keeps the invariant. |
| SnakeProperties.Run | snake.h:75-80 | No sequence of commands lowers the high score or enters `Exit`. |
| SnakeProperties.RunPreservesValid | snake.h:75-80 | Any sequence of commands keeps the invariant. |
| SnakeProperties.Reachable | snake.h:98-100 | After any sequence of commands from a fresh engine: speed is in [50, 300]; `Exit` is never entered; the high score is at least the loaded one; and the stored value equals it. |
| SnakeScenarios.FirstMoveRightCollides | snake.cpp:191 | After a start, turning right and ticking ends the game with the starting body intact, unless the snake was already moving left. |
| SnakeScenarios.TailIsAnObstacle | snake.cpp:251 | A move into the tail's cell ends the game, even though the tail would have moved away. |
| SnakeScenarios.EatingScenario | snake.cpp:266-286 | Food placed below the head, turn down, two ticks. The first tick only moves onto the food, with score 0. The second eats: score 1, and the body grows from 3 to 5 segments. |
| SnakeScenarios.GridAccepts | snake.cpp:207-214 | On a grid-aligned body, a square around a grid point that no segment occupies is accepted. |
| SnakeScenarios.DuplicateSegments | snake.cpp:228-237 | A reachable sequence of commands leaves two equal segments in the body. |

`SnakeProperties.Valid` is the invariant these lemmas use. It states that:
- the speed is in [50, 300];
- the state is not `Exit`;
- the stored high score equals the high score;
- the body is empty in `Init` and has at least 3 segments otherwise;
- while running, the food is a grid square and every segment is on the grid and on the board;
- in `Over`, the high score is at least the score;
- a live game always has its timer on.

## Left out

- Change notifications (the signals and their emissions) are left out. They do not affect the engine's state.
- Timer scheduling is reduced to the flag `ticking`, and restart intervals and timing are left out. Changing the speed of a running timer restarts it. The model keeps `ticking` unchanged and does not model the new interval.
- The settings store is reduced to the field `storedHighScore`, and the value loaded at construction is the parameter of `SnakeEngine.New`. The organisation and application names of the store are left out.
- The random generator is replaced by the caller's stream of draws. The retry loop never ends when no square is free; the model requires the stream to contain an accepted draw rather than modelling a non-terminating loop.
- The elapsed timer and the member random generator are left out. Neither takes part in the game logic.
- The property accessors are left out because they are plain field reads of the record. The destructor is left out because it only stops the timer.
- `main.cpp` is not part of this model. It is the application bootstrap and type registration.
- Rectangles with negative width are not normalised. The engine only builds 10×10 squares and the default empty rectangle, and `Contains` is exact for both.
- Integer width is not modelled. Score, coordinates and speed are unbounded integers. A 32-bit score would wrap only after 2^31 meals, and coordinates stay within a few steps of the board.
- SnakeEngine.StateName: its own contract says each name is non-empty and that only `Init` is shown as "init". That all four names differ is stated by `SnakeProperties.StateNameInjective`. The source's `default` branch cannot be reached with a four-value datatype.
- SnakeEngine.Tick: its own contract only states the frame conditions listed above. The full per-case behaviour is in `SnakeProperties.TickIdleUnlessLive`, `TickIdleWithoutDirection`, `TickWithoutFood` and `TickWithFood`.
- The `Exit` state exists in the enumeration but no operation enters it. The model has no transition into it, and `SnakeProperties.Reachable` proves it is never reached.
