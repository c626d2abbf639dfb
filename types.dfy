/** Records shared by the systems of the asteroid mini-game (gameEngine/types.ts),
    the host-supplied constants, and the two foreign numeric primitives the
    simulation relies on: Math.hypot and Math.random. */
module Types {

  import opened RealArith

  datatype Option<T> = None | Some(value: T)

  /** A canvas-local point. */
  datatype Point = Point(x: real, y: real)

  /** An RGB triple such as WHITE_COLOR. */
  type Rgb = seq<int>

  /** A background star; `color` and `alpha` blink. */
  datatype Star = Star(x: real, y: real, size: real, alpha: real, color: Rgb)

  /** One polygon vertex of an asteroid. The source stores the angle
      `turn * 2 * PI` in radians; the model keeps the fraction of a full turn. */
  datatype Vertex = Vertex(turn: real, radius: real)

  /** A collectible obstacle; `size` is its collision radius. */
  datatype Asteroid = Asteroid(x: real, y: real, size: real, color: string, vertices: seq<Vertex>)

  /** The value of a ball's fields at one instant. */
  datatype BallState = BallState(x: real, y: real, radius: real, speedX: real, speedY: real)

  /** The value of the whole game state at one instant (animationId left out). */
  datatype World = World(
    stars: seq<Star>,
    asteroids: seq<Asteroid>,
    ball: Option<BallState>,
    moving: bool,
    target: Point,
    count: nat)

  /** The constants of gameEngine/constants.ts, which is not part of this model:
      each is a parameter assumed positive, and NUM_ASTEROIDS and
      NUM_STARS_DENSITY are taken to be integers. */
  datatype Config = Config(
    ballSpeed: real,
    ballRadius: real,
    numAsteroids: nat,
    starsDensity: nat,
    blinkChance: real,
    white: Rgb,
    lightBlue: Rgb)
  {
    predicate Valid() {
      ballSpeed > 0.0 && ballRadius > 0.0 && numAsteroids > 0 && starsDensity > 0 && blinkChance > 0.0
    }
  }

  /** Every value the Math.random stream yields lies in [0, 1). */
  ghost predicate IsUniformStream(rnd: nat -> real) {
    forall k: nat :: 0.0 <= rnd(k) < 1.0
  }

  /** random(min, max) of useAsteroidGame.ts, given the Math.random draw `u`. */
  function Random(lo: real, hi: real, u: real): (r: real)
    requires 0.0 <= u < 1.0
    ensures lo < hi ==> lo <= r < hi
    ensures lo == hi ==> r == lo
  {
    if lo < hi then ScaleBelow(u, Span(lo, hi)); lo + Scale(u, Span(lo, hi))
    else lo + Scale(u, Span(lo, hi))
  }

  /** The width `hi - lo` of the interval [lo, hi), named only so that the
      solver keeps the product in Random as one term. */
  function Span(lo: real, hi: real): real {
    hi - lo
  }

  /** The ball object; the game mutates its fields in place. */
  class Ball {
    var x: real
    var y: real
    var radius: real
    var speedX: real
    var speedY: real

    function State(): BallState
      reads this
    {
      BallState(x, y, radius, speedX, speedY)
    }

    constructor (s: BallState)
      ensures State() == s
    {
      x, y, radius, speedX, speedY := s.x, s.y, s.radius, s.speedX, s.speedY;
    }
  }

  /** The shared game state held by the hook's ref. */
  class GameState {
    var stars: seq<Star>
    var asteroids: seq<Asteroid>
    var ball: Ball?
    var moving: bool
    var target: Point
    var currentAsteroidCount: nat

    /** A ball, once created, has a positive radius. */
    ghost predicate Valid()
      reads this, ball
    {
      ball != null ==> ball.radius > 0.0
    }

    function Snapshot(): World
      reads this, ball
    {
      World(stars, asteroids, if ball == null then None else Some(ball.State()),
            moving, target, currentAsteroidCount)
    }

    /** The initial value of the ref in useAsteroidGame. */
    constructor ()
      ensures Valid()
      ensures Snapshot() == World([], [], None, false, Point(0.0, 0.0), 0)
    {
      stars, asteroids, ball := [], [], null;
      moving, target, currentAsteroidCount := false, Point(0.0, 0.0), 0;
    }
  }
}
