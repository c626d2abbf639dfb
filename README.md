# Asteroid mini-game: a verified model of the simulation core

This project models the per-frame simulation of the asteroid mini-game in
`src/components/AsteroidGame`:

- **Collision filter.** `CollisionSystem.checkAsteroidCollisions` removes every asteroid whose centre is closer than the sum of the radii, and reports how many it removed.
- **Seek step and wall clamp.** The hook `useAsteroidGame` provides the seek step (`updateGameLogic`) and the wall clamp (`checkBoundaries`).
- **Frame step.** The state-changing body of `animate` blinks the stars, collects asteroids, adds them to the score, moves the ball, then clamps it.
- **`initializeGame`.**
- **Pointer handlers.** `InputSystem.handleCanvasClick` and `handleTouchStart` aim the ball at the pointer.
- **Resize handler.** The `handleResize` handler of the `AsteroidGame` component clamps the ball and target to the new viewport.
- **Field generators.** These are `StarSystem.createStars`, `StarSystem.updateStars` and `AsteroidSystem.createAsteroids`.

The modules follow the source files:

| Dafny module | file |
|---|---|
| `Types` | `types.ts` records, `random(min, max)`, the constants |
| `CollisionSystem` | `collisionSystem.ts` |
| `StarSystem` | `starSystem.ts` |
| `AsteroidSystem` | `asteroidSystem.ts` |
| `InputSystem` | `inputSystem.ts` |
| `AsteroidGame` | `AsteroidGame.tsx` |
| `GameLogic`, `UseAsteroidGame` | `useAsteroidGame.ts` |

`RealArith` holds arithmetic facts about reals.

**Mutable state.** The ball and the hook's game state are updated in place, so `Types.Ball` and `Types.GameState` are classes. Every method that changes them is proved to leave `GameState.Snapshot()` equal to a function of the old snapshot. Those functions (`GameLogic.Seek`, `Clamp`, `Collect`, `Frame`, `Initialize`, `InputSystem.Retarget`, `AsteroidGame.Resize`) are pure, and the game's properties are proved about them as lemmas.

**Loops.** The loops of the generators and of the collision filter are Dafny `while` loops. Each is proved equal to a recursive or comprehension definition (`StarField`, `Twinkle`, `AsteroidField`, `Survivors`, `CollectedCount`).

**Numbers.** All coordinates are Dafny `real`.

**Math.hypot.** It is the parameter `hypot`. The only assumption about it (`IsHypotFn`) is that it returns the non-negative square root of `dx² + dy²`.

**Math.random.** It is a stream `rnd: nat -> real` of values in `[0, 1)`, read from a cursor. Each operation that draws returns the cursor after its last draw, so the order of the draws is part of every contract.

**Constants.** The values of `gameEngine/constants.ts` are the fields of `Types.Config`, assumed positive, with NUM_ASTEROIDS and NUM_STARS_DENSITY taken as integers. That file is not part of this model.

## Model

| member | source | states |
|---|---|---|
| Types.Random | src/components/AsteroidGame/useAsteroidGame.ts:68-70 | `random(min, max)` lies in `[min, max)` when `min < max`, and is `min` when `min == max` |
| Types.Ball.constructor | src/components/AsteroidGame/useAsteroidGame.ts:84-90 | the ball object literal: every field set to the given values |
| Types.GameState.constructor | src/components/AsteroidGame/useAsteroidGame.ts:58-66 | the initial ref: no stars, asteroids or ball, idle, target at the origin, score 0 |
| CollisionSystem.Collides | src/components/AsteroidGame/gameEngine/collisionSystem.ts:11-12 | defines a collection: Math.hypot of the offset between the centres is strictly below `ball.radius + asteroid.size` |
| CollisionSystem.Survivors | src/components/AsteroidGame/gameEngine/collisionSystem.ts:10-17 | defines the list `filter` returns: the asteroids that do not collide, in input order; it is never longer than the input |
| CollisionSystem.CollectedCount | src/components/AsteroidGame/gameEngine/collisionSystem.ts:9-17 | defines the final value of the counter `collected`: the number of asteroids that collide |
| CollisionSystem.KeptIndices | src/components/AsteroidGame/gameEngine/collisionSystem.ts:10-17 | defines the positions, in increasing order, of the asteroids the filter keeps |
| CollisionSystem.CheckAsteroidCollisions | src/components/AsteroidGame/gameEngine/collisionSystem.ts:4-24 | the filter loop returns exactly the asteroids that do not collide, in order. The callback is invoked once, with the number collected, exactly when that number is positive, and never otherwise |
| CollisionSystem.CollectedPlusSurvivors | src/components/AsteroidGame/gameEngine/collisionSystem.ts:9-17 | collected + number remaining == number of asteroids in the input |
| CollisionSystem.SurvivorMembership | src/components/AsteroidGame/gameEngine/collisionSystem.ts:10-17 | an asteroid is in the result if and only if it was in the input and does not touch the ball |
| CollisionSystem.SurvivorsAtKeptIndices | src/components/AsteroidGame/gameEngine/collisionSystem.ts:10-17 | the result is the input at the kept positions, with the records unchanged |
| CollisionSystem.KeptIndicesIncreasing | src/components/AsteroidGame/gameEngine/collisionSystem.ts:10-17 | the kept positions are strictly increasing, so the result is an ordered subsequence of the input |
| CollisionSystem.KeptIndicesExact | src/components/AsteroidGame/gameEngine/collisionSystem.ts:11-16 | a position is kept if and only if its asteroid's distance is not below `radius + size` |
| CollisionSystem.NothingToCollect | src/components/AsteroidGame/gameEngine/collisionSystem.ts:10-17 | a list in which nothing touches the ball passes through unchanged, with count 0 |
| CollisionSystem.CollisionIdempotent | src/components/AsteroidGame/gameEngine/collisionSystem.ts:10-21 | running the check again on its result with the same ball removes nothing and fires no callback |
| CollisionSystem.CollidesIffOverlap | src/components/AsteroidGame/gameEngine/collisionSystem.ts:11-12 | given the contract of Math.hypot, an asteroid is collected if and only if the sum of the radii is positive and `dx² + dy² < (r + size)²`. Exact touching is not a collection |
| StarSystem.NumStars | src/components/AsteroidGame/gameEngine/starSystem.ts:6-9 | defines the number of iterations of the star loop as the integer ceiling of `w·h / density` |
| StarSystem.StarAt | src/components/AsteroidGame/gameEngine/starSystem.ts:10-16 | defines the star pushed by one iteration: x, y, size and alpha from four consecutive draws, colour WHITE |
| StarSystem.StarField | src/components/AsteroidGame/gameEngine/starSystem.ts:5-19 | defines the list createStars returns: star `i` built from the draws starting at `k + 4i` |
| StarSystem.GuardBelowCount | src/components/AsteroidGame/gameEngine/starSystem.ts:6-9 | the real-valued guard `i < w*h/density` holds exactly for `i < ⌈w·h/density⌉` |
| StarSystem.CreateStars | src/components/AsteroidGame/gameEngine/starSystem.ts:5-19 | the loop returns `StarField`: star `i` is built from draws `4i .. 4i+3`, and four draws are consumed per star |
| StarSystem.StarFieldShape | src/components/AsteroidGame/gameEngine/starSystem.ts:5-19 | the count is the ceiling `n` with `(n-1)·density < w·h <= n·density`. Every star has x in `[0, w)`, y in `[0, h)`, size in `[1, 3)`, alpha in `[0.5, 1)` and colour WHITE |
| StarSystem.BlinkStar | src/components/AsteroidGame/gameEngine/starSystem.ts:23-31 | defines one iteration of updateStars: the blink draw, then the colour draw and the alpha draw when the star blinks, with the cursor after them |
| StarSystem.Twinkle | src/components/AsteroidGame/gameEngine/starSystem.ts:21-33 | defines updateStars over a whole list: each star blinked in order at the cursor the earlier ones leave |
| StarSystem.UpdateStars | src/components/AsteroidGame/gameEngine/starSystem.ts:21-33 | the loop over the stars yields `Twinkle`: the list and the draws taken, star by star in order |
| StarSystem.BlinkStarEffect | src/components/AsteroidGame/gameEngine/starSystem.ts:23-31 | a star whose blink draw is not below BLINK_CHANCE is untouched, and one draw is consumed. Otherwise it gets LIGHT_BLUE or WHITE and an alpha in `[0.5, 1)`, and three draws are consumed. Position and size never change |
| StarSystem.TwinkleLength | src/components/AsteroidGame/gameEngine/starSystem.ts:21-33 | updateStars keeps the length of the list and takes at least one draw per star |
| StarSystem.TwinkleShape | src/components/AsteroidGame/gameEngine/starSystem.ts:21-33 | the i-th star of the result is the i-th star blinked at the cursor the earlier stars leave, so the order is kept |
| StarSystem.TwinkleEffect | src/components/AsteroidGame/gameEngine/starSystem.ts:21-33 | for every star: x, y and size are kept, and a star that does not blink is untouched. A changed star is LIGHT_BLUE or WHITE with alpha in `[0.5, 1)` |
| AsteroidSystem.VertexRing | src/components/AsteroidGame/gameEngine/asteroidSystem.ts:13-17 | defines the vertices of one asteroid: vertex `j` at fraction `j/n` of a turn with radius `size·(0.7 + u·0.3)` for draw `j` |
| AsteroidSystem.AsteroidAt | src/components/AsteroidGame/gameEngine/asteroidSystem.ts:9-25 | defines one iteration of the outer loop: vertex count, size, vertex radii, x and y in draw order, colour gray, and the cursor after them |
| AsteroidSystem.AsteroidField | src/components/AsteroidGame/gameEngine/asteroidSystem.ts:5-28 | defines the first `n` asteroids createAsteroids pushes, each read where the previous one stopped |
| AsteroidSystem.Jag | src/components/AsteroidGame/gameEngine/asteroidSystem.ts:15 | the factor `0.7 + u·0.3` lies in `[0.7, 1)` |
| AsteroidSystem.JaggedRadius | src/components/AsteroidGame/gameEngine/asteroidSystem.ts:15 | a vertex radius lies in `[0.7·size, size)` |
| AsteroidSystem.CreateVertices | src/components/AsteroidGame/gameEngine/asteroidSystem.ts:13-17 | the inner loop yields `VertexRing`: vertex `j` at fraction `j/n` of a turn, with the radius from draw `j` |
| AsteroidSystem.CreateAsteroid | src/components/AsteroidGame/gameEngine/asteroidSystem.ts:9-25 | one outer iteration yields `AsteroidAt`. The vertex count is drawn, then the size, then the `n` vertex radii, then x and y |
| AsteroidSystem.CreateAsteroids | src/components/AsteroidGame/gameEngine/asteroidSystem.ts:5-28 | the outer loop yields `AsteroidField(NUM_ASTEROIDS)`, each asteroid read where the previous one stopped |
| AsteroidSystem.VertexRingShape | src/components/AsteroidGame/gameEngine/asteroidSystem.ts:13-17 | there are `n` vertices, evenly spread over one turn, each with radius in `[0.7·size, size)` |
| AsteroidSystem.AsteroidAtWellFormed | src/components/AsteroidGame/gameEngine/asteroidSystem.ts:9-25 | each asteroid is grey, has size in `[10, 20)` and 5 to 8 vertices forming a jagged ring, and its centre lies in `[0, w) × [0, h)`. It consumes `4 + vertices` draws |
| AsteroidSystem.AsteroidFieldShape | src/components/AsteroidGame/gameEngine/asteroidSystem.ts:5-28 | exactly NUM_ASTEROIDS asteroids, all well-formed, consuming 9 to 12 draws each |
| GameLogic.StopDistance | src/components/AsteroidGame/useAsteroidGame.ts:100 | defines the braking distance `radius · 3` |
| GameLogic.SpeedFactor | src/components/AsteroidGame/useAsteroidGame.ts:100-107 | the factor is never negative. It is above 1 beyond twice the braking distance, 1 in the middle band, at most 1 within the braking distance, and 0 at exactly the braking distance |
| GameLogic.DistanceTo | src/components/AsteroidGame/useAsteroidGame.ts:97-99 | the distance is non-negative, and it is 0 if and only if the ball is on the target |
| GameLogic.Seek | src/components/AsteroidGame/useAsteroidGame.ts:95-120 | an idle ball is unchanged. The radius is never changed, and a ball that was idle does not become moving |
| GameLogic.SeekSnaps | src/components/AsteroidGame/useAsteroidGame.ts:109-114 | when the distance is below 1, the ball lands exactly on the target with both speeds 0, goes idle, and a second step changes nothing |
| GameLogic.SeekAdvances | src/components/AsteroidGame/useAsteroidGame.ts:115-118 | otherwise the step is exactly the position advanced by speed × SpeedFactor(distance, 3r), with the speeds, radius and `moving` kept; that factor is never negative, above 1 beyond twice the braking distance, 1 in the middle band and at most 1 within it |
| GameLogic.SeekStallsAtStopDistance | src/components/AsteroidGame/useAsteroidGame.ts:100-118 | a moving ball at exactly the braking distance (≥ 1) is a fixed point of the step |
| GameLogic.SeekCanRecede | src/components/AsteroidGame/useAsteroidGame.ts:100-118 | a concrete step ends farther from the target than it started, so no decrease of distance can be claimed |
| GameLogic.ClampRight | src/components/AsteroidGame/useAsteroidGame.ts:123-127 | defines the right-wall assignment: at or past `width - r` the ball is put at `width - r`, speedX zeroed, moving cleared |
| GameLogic.ClampLeft | src/components/AsteroidGame/useAsteroidGame.ts:128-132 | defines the left-wall assignment: at or past `r` the ball is put at `r`, speedX zeroed, moving cleared |
| GameLogic.ClampBottom | src/components/AsteroidGame/useAsteroidGame.ts:133-137 | defines the bottom-wall assignment: at or past `height - r` the ball is put at `height - r`, speedY zeroed, moving cleared |
| GameLogic.ClampTop | src/components/AsteroidGame/useAsteroidGame.ts:138-142 | defines the top-wall assignment: at or past `r` the ball is put at `r`, speedY zeroed, moving cleared |
| GameLogic.Clamp | src/components/AsteroidGame/useAsteroidGame.ts:122-143 | defines checkBoundaries as the four wall assignments in source order |
| GameLogic.ClampEffect | src/components/AsteroidGame/useAsteroidGame.ts:122-143 | after the clamp, `x >= r` and `y >= r`. If `width >= 2r` then `x <= width - r`, and likewise for y. Touching a wall on an axis zeroes that axis's speed, and an untouched axis keeps its position and speed. The ball goes idle exactly when some wall is touched. The radius is kept |
| GameLogic.ClampRightWall | src/components/AsteroidGame/useAsteroidGame.ts:123-127 | a ball against the right wall of a wide enough canvas ends exactly one radius from it |
| GameLogic.ClampIdempotent | src/components/AsteroidGame/useAsteroidGame.ts:122-143 | clamping twice is clamping once |
| GameLogic.MoveBall | src/components/AsteroidGame/useAsteroidGame.ts:167 | defines updateGameLogic on a whole world: Seek applied to its ball, `moving` and target |
| GameLogic.KeepInside | src/components/AsteroidGame/useAsteroidGame.ts:168 | defines checkBoundaries on a whole world: Clamp applied to its ball and `moving` |
| GameLogic.Collect | src/components/AsteroidGame/useAsteroidGame.ts:157-164 | defines the collision call with its callback: survivors replace the asteroids, the number collected is added to the score, and the callback arguments are returned |
| GameLogic.Frame | src/components/AsteroidGame/useAsteroidGame.ts:150-168 | defines one frame: blink the stars, collect at the pre-move position, seek, clamp |
| GameLogic.FrameScore | src/components/AsteroidGame/useAsteroidGame.ts:157-164 | one frame raises the score by exactly the number of asteroids removed, and the score never falls. It removes the asteroids touching the ball before it moves, and reports that number once, exactly when it is positive |
| GameLogic.FrameEffect | src/components/AsteroidGame/useAsteroidGame.ts:150-168 | one frame only removes asteroids and keeps the number of stars, the radius and the target. The ball ends inside a canvas wide and high enough for it |
| GameLogic.Run | src/components/AsteroidGame/useAsteroidGame.ts:148-174 | over `n` frames every remaining asteroid was there at the start. The score never falls and rises by exactly the number removed, and the reported counts add up to that gain |
| GameLogic.FrameMovingHasSpeed | src/components/AsteroidGame/useAsteroidGame.ts:95-143 | one frame keeps the invariant that a moving ball exists and has velocity length BALL_SPEED: a step that does not snap keeps the speeds, and the snap and every wall contact that zero a speed also clear `moving` |
| GameLogic.NewBallRadius | src/components/AsteroidGame/useAsteroidGame.ts:83-87 | defines the radius of a new ball: 15 when the viewport is narrower than 768, else BALL_RADIUS |
| GameLogic.SeedStars | src/components/AsteroidGame/useAsteroidGame.ts:76-78 | defines the star step: a star field only when the star list is empty |
| GameLogic.SeedAsteroids | src/components/AsteroidGame/useAsteroidGame.ts:79-81 | defines the asteroid step: an asteroid field only when the asteroid list is empty |
| GameLogic.PlaceBall | src/components/AsteroidGame/useAsteroidGame.ts:82-92 | defines the ball step: a ball at rest in the centre with the target on it, only when there is no ball |
| GameLogic.Initialize | src/components/AsteroidGame/useAsteroidGame.ts:72-93 | defines initializeGame as the star, asteroid and ball steps in source order, threading the draws |
| GameLogic.InitializeMovingHasSpeed | src/components/AsteroidGame/useAsteroidGame.ts:72-93 | initializeGame keeps that invariant: it changes neither `moving` nor an existing ball |
| GameLogic.InitializeEffect | src/components/AsteroidGame/useAsteroidGame.ts:72-93 | non-empty lists, an existing ball and its target, the score and `moving` are kept. An empty star list gets the star field, and an empty asteroid list gets the NUM_ASTEROIDS-asteroid field read from the cursor the stars leave. A new ball sits at rest at the centre with the target on it and radius 15 when the width is below 768, else BALL_RADIUS. Nothing is drawn when everything exists |
| GameLogic.InitializeIdempotent | src/components/AsteroidGame/useAsteroidGame.ts:72-93 | on a non-empty viewport the result has stars, asteroids and a ball of positive radius, so a second call changes nothing and draws nothing |
| InputSystem.CanvasPoint | src/components/AsteroidGame/gameEngine/inputSystem.ts:10-12 | defines the canvas-local point: client coordinates minus the bounding rectangle's left and top |
| InputSystem.Component | src/components/AsteroidGame/gameEngine/inputSystem.ts:22-23 | defines one speed component `delta / distance · BALL_SPEED` |
| InputSystem.Retarget | src/components/AsteroidGame/gameEngine/inputSystem.ts:14-25 | defines the transition both handlers make: nothing without a ball or at zero distance, else new speeds towards the point, moving set, target set |
| InputSystem.UnitNorm | src/components/AsteroidGame/gameEngine/inputSystem.ts:22-23 | the new velocity has length BALL_SPEED |
| InputSystem.ComponentSign | src/components/AsteroidGame/gameEngine/inputSystem.ts:22-23 | each speed component has the sign of its offset |
| InputSystem.RetargetEffect | src/components/AsteroidGame/gameEngine/inputSystem.ts:14-25 | with no ball, or with the point at the ball's centre, nothing changes. Otherwise the ball moves towards the new target at speed BALL_SPEED, with signs matching the offset. Position, radius, stars, asteroids and score are kept |
| InputSystem.RetargetMovingHasSpeed | src/components/AsteroidGame/gameEngine/inputSystem.ts:14-25 | the handlers keep that invariant: they set `moving` only together with a velocity of length BALL_SPEED |
| InputSystem.Aim | src/components/AsteroidGame/gameEngine/inputSystem.ts:14-25 | the guards and assignments shared by both handlers give `Retarget` of the old state |
| InputSystem.HandleCanvasClick | src/components/AsteroidGame/gameEngine/inputSystem.ts:5-26 | the click handler performs `Retarget` at `(clientX - rect.left, clientY - rect.top)` |
| InputSystem.HandleTouchStart | src/components/AsteroidGame/gameEngine/inputSystem.ts:28-51 | the same transition at `touches[0]`. The default action is prevented on every call, before any guard |
| AsteroidGame.Min | src/components/AsteroidGame/AsteroidGame.tsx:48-63 | `Math.min` is one of its arguments and is at most both |
| AsteroidGame.Resize | src/components/AsteroidGame/AsteroidGame.tsx:47-64 | defines handleResize on the state: with a ball, its x and y are lowered to `w - r` and `h - r` and the target to `w` and `h` with Math.min |
| AsteroidGame.ResizeEffect | src/components/AsteroidGame/AsteroidGame.tsx:41-65 | with no ball, nothing changes. Otherwise `x <= w - r`, `y <= h - r`, `target.x <= w` and `target.y <= h`. No coordinate increases, a coordinate already in bounds is kept, and no lower bound is applied. Speeds, radius, `moving`, score, stars and asteroids are kept, and resizing twice is resizing once |
| AsteroidGame.ResizeMovingHasSpeed | src/components/AsteroidGame/AsteroidGame.tsx:41-65 | handleResize keeps that invariant: it changes neither the speeds nor `moving` |
| AsteroidGame.HandleResize | src/components/AsteroidGame/AsteroidGame.tsx:41-65 | the handler leaves the state equal to `Resize` of the old state |
| UseAsteroidGame.InitializeGame | src/components/AsteroidGame/useAsteroidGame.ts:72-93 | the method leaves `Initialize` of the old state and the cursor after its draws. A ball is created only when there was none |
| UseAsteroidGame.UpdateGameLogic | src/components/AsteroidGame/useAsteroidGame.ts:95-120 | the in-place updates of the ball and `moving` give `Seek` |
| UseAsteroidGame.CheckBoundaries | src/components/AsteroidGame/useAsteroidGame.ts:122-143 | the four guarded in-place assignments give `Clamp` |
| UseAsteroidGame.CollectAsteroids | src/components/AsteroidGame/useAsteroidGame.ts:157-164 | the collision call with its callback replaces the asteroids by the survivors and adds the number collected to the score. The ball is not touched |
| UseAsteroidGame.Animate | src/components/AsteroidGame/useAsteroidGame.ts:148-174 | one frame leaves `Frame` of the old state. The stars blink, then asteroids are collected at the pre-move position, then the ball moves, then it is clamped |

## Behaviour worth knowing

- createStars makes `⌈w·h/density⌉` stars: the loop guard `i < w*h/density` compares an integer counter with a real quotient, so a fractional quotient adds one more star (`StarSystem.GuardBelowCount`, `StarSystem.StarFieldShape`).
- handleResize regenerates neither stars nor asteroids, and only lowers coordinates with `Math.min`, so no lower bound such as `x >= radius` holds after it (`AsteroidGame.ResizeEffect`).
- A non-zero velocity does not imply `moving`: a wall clamp zeroes one axis's speed and clears `moving`, and leaves the other speed as it was (`GameLogic.ClampEffect`). The converse does hold: while `moving` is set the velocity has length BALL_SPEED (`GameLogic.MovingHasSpeed` and the lemmas that preserve it).
- The seek step need not reach the target: it stalls at exactly the braking distance (`GameLogic.SeekStallsAtStopDistance`), and it can carry the ball past the target to a point farther from it (`GameLogic.SeekCanRecede`).

## Left out

- Drawing: `clearCanvas`, `drawStars`, `drawAsteroids`, `drawBall` and `drawUI`. These are side effects on a 2D context.
- `requestAnimationFrame` and `animationId`, listener registration and cleanup, and React hooks. A frame is one call of `UseAsteroidGame.Animate`.
- The canvas element: its size is passed in as the viewport's `innerWidth` and `innerHeight`.
- `gameEngine/constants.ts`: its values are parameters (`Types.Config`), assumed positive.
- Types.Config: NUM_STARS_DENSITY and NUM_ASTEROIDS are taken as positive integers; a fractional value would change the star count (the integer ceiling in `StarSystem.NumStars`) and the number of asteroids (`i < NUM_ASTEROIDS` would run `⌈NUM_ASTEROIDS⌉` times).
- IEEE-754 rounding: reals are exact. `Math.hypot` is assumed exact, and `Math.random` is assumed only to stay in `[0, 1)`.
- Vertex angles: the model keeps the fraction `j/n` of a full turn instead of the angle in radians, since π only matters for drawing.
- StarSystem.UpdateStars: the source mutates each star object in place. The model returns the updated list, which `Animate` stores back, so aliasing of star objects is not modelled.
- UseAsteroidGame.Animate: requires a ball. `gameLoop` returns before creating `animate` when there is none.
- InputSystem.HandleTouchStart: requires a non-empty touch list. A `touchstart` event always carries at least one touch, and the source would fail reading `touches[0]` on an empty one.
- UseAsteroidGame.InitializeGame: the assignment of the viewport size to the canvas is not modelled.
- AsteroidGame.HandleResize: the assignment of the viewport size to the canvas is not modelled.
- Convergence of the seek motion is not claimed; the code does not guarantee it.
