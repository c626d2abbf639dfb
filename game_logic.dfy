/** The game rules of useAsteroidGame.ts as functions on values: the seek step
    (updateGameLogic), the wall clamp (checkBoundaries), one animation frame
    (the state-changing body of animate) and initializeGame. The methods on
    the mutable GameState, in module UseAsteroidGame, are proved against these. */
module GameLogic {

  import opened RealArith
  import opened Types
  import opened CollisionSystem
  import opened StarSystem
  import opened AsteroidSystem

  /** The part of the state updateGameLogic and checkBoundaries change. */
  datatype Motion = Motion(ball: BallState, moving: bool)

  /** The distance from the target at which the ball starts to brake. */
  function StopDistance(radius: real): real {
    radius * 3.0
  }

  /** The speed factor of updateGameLogic for distance `d` and braking
      distance `stop`: above 1 when far away, 1 in the middle band, and a linear
      ease from 1 down to 0 inside the braking distance. */
  function SpeedFactor(d: real, stop: real): (f: real)
    requires d >= 0.0 && stop > 0.0
    ensures f >= 0.0
    ensures d > 2.0 * stop ==> f > 1.0
    ensures stop < d <= 2.0 * stop ==> f == 1.0
    ensures d <= stop ==> f <= 1.0
    ensures d == stop ==> f == 0.0
  {
    if d > stop * 2.0 then
      DivAboveOne(d, stop * 2.0);
      d / (stop * 2.0)
    else if d <= stop then
      DivAtMostOne(d, stop);
      DivNonneg(d, stop);
      1.0 - d / stop
    else 1.0
  }

  /** The distance from the ball to `target`, as Math.hypot reports it. */
  function DistanceTo(b: BallState, target: Point, hypot: (real, real) -> real): (d: real)
    requires IsHypotFn(hypot)
    ensures d >= 0.0
    ensures d == 0.0 <==> b.x == target.x && b.y == target.y
  {
    HypotFnZero(hypot, target.x - b.x, target.y - b.y);
    hypot(target.x - b.x, target.y - b.y)
  }

  /** updateGameLogic: idle balls stay put; a moving ball closer than 1 to the
      target lands on it and stops; otherwise it advances by its speed scaled
      by the speed factor. */
  function Seek(m: Motion, target: Point, hypot: (real, real) -> real): (r: Motion)
    requires IsHypotFn(hypot) && (m.moving ==> m.ball.radius > 0.0)
    ensures r.ball.radius == m.ball.radius
    ensures r.moving ==> m.moving
    ensures !m.moving ==> r == m
  {
    if !m.moving then m
    else
      var b := m.ball;
      var d := DistanceTo(b, target, hypot);
      var f := SpeedFactor(d, StopDistance(b.radius));
      if d < 1.0 then Motion(b.(x := target.x, y := target.y, speedX := 0.0, speedY := 0.0), false)
      else Motion(b.(x := b.x + Scale(b.speedX, f), y := b.y + Scale(b.speedY, f)), true)
  }

  /** A snap lands the ball exactly on the target at rest and idle; the next
      call then changes nothing. */
  lemma SeekSnaps(m: Motion, target: Point, hypot: (real, real) -> real)
    requires IsHypotFn(hypot) && m.moving && m.ball.radius > 0.0
    requires DistanceTo(m.ball, target, hypot) < 1.0
    ensures var r := Seek(m, target, hypot);
            && r.ball.x == target.x && r.ball.y == target.y
            && r.ball.speedX == 0.0 && r.ball.speedY == 0.0
            && !r.moving
            && DistanceTo(r.ball, target, hypot) == 0.0
            && Seek(r, target, hypot) == r
  {
  }

  /** A step that does not snap keeps the ball moving with the same speeds and
      moves it along its velocity scaled by the speed factor of its distance,
      which is never negative, above 1 beyond twice the braking distance and at
      most 1 within it. */
  lemma SeekAdvances(m: Motion, target: Point, hypot: (real, real) -> real)
    requires IsHypotFn(hypot) && m.moving && m.ball.radius > 0.0
    requires DistanceTo(m.ball, target, hypot) >= 1.0
    ensures var d := DistanceTo(m.ball, target, hypot);
            var stop := StopDistance(m.ball.radius);
            var f := SpeedFactor(d, stop);
            && Seek(m, target, hypot)
               == Motion(m.ball.(x := m.ball.x + Scale(m.ball.speedX, f), y := m.ball.y + Scale(m.ball.speedY, f)), true)
            && f >= 0.0
            && (d > 2.0 * stop ==> f > 1.0)
            && (stop < d <= 2.0 * stop ==> f == 1.0)
            && (d <= stop ==> f <= 1.0)
  {
  }

  /** The seek step has fixed points away from the target: a moving ball at
      exactly the braking distance gets factor 0 and never moves again. */
  lemma SeekStallsAtStopDistance(m: Motion, target: Point, hypot: (real, real) -> real)
    requires IsHypotFn(hypot) && m.moving && m.ball.radius > 0.0
    requires DistanceTo(m.ball, target, hypot) == StopDistance(m.ball.radius) >= 1.0
    ensures Seek(m, target, hypot) == m
  {
    var b := m.ball;
    assert Scale(b.speedX, 0.0) == 0.0 && Scale(b.speedY, 0.0) == 0.0;
  }

  /** The seek step can carry the ball past the target and farther away from
      it: with speed 5 along x, radius 15 and the target 2 ahead, the ball
      ends 25/9 beyond the target and keeps moving. */
  lemma SeekCanRecede(hypot: (real, real) -> real)
    requires IsHypotFn(hypot)
    ensures var m := Motion(BallState(0.0, 0.0, 15.0, 5.0, 0.0), true);
            var target := Point(2.0, 0.0);
            var r := Seek(m, target, hypot);
            && r.moving
            && r.ball.x == 43.0 / 9.0
            && DistanceTo(r.ball, target, hypot) > DistanceTo(m.ball, target, hypot)
  {
    var b := BallState(0.0, 0.0, 15.0, 5.0, 0.0);
    var target := Point(2.0, 0.0);
    var d := DistanceTo(b, target, hypot);
    assert IsHypot(2.0, 0.0, d);
    SqMono(d, 2.0);
    SqMono(2.0, d);
    assert Sq(2.0) == 4.0;
    assert d == 2.0;
    assert SpeedFactor(2.0, 45.0) == 43.0 / 45.0;
    assert Scale(5.0, 43.0 / 45.0) == 43.0 / 9.0;
    var b' := Seek(Motion(b, true), target, hypot).ball;
    assert b' == b.(x := 43.0 / 9.0);
    var d' := DistanceTo(b', target, hypot);
    assert IsHypot(2.0 - 43.0 / 9.0, 0.0, d');
    assert Sq(2.0 - 43.0 / 9.0) == Sq(-25.0 / 9.0);
    SqMono(d', 25.0 / 9.0);
    SqMono(25.0 / 9.0, d');
    assert Sq(-25.0 / 9.0) == Sq(25.0 / 9.0);
    assert d' == 25.0 / 9.0;
  }

  /** The four guarded assignments of checkBoundaries, in source order. */
  function ClampRight(m: Motion, width: real): Motion {
    if m.ball.x + m.ball.radius >= width then Motion(m.ball.(x := width - m.ball.radius, speedX := 0.0), false)
    else m
  }

  function ClampLeft(m: Motion): Motion {
    if m.ball.x - m.ball.radius <= 0.0 then Motion(m.ball.(x := m.ball.radius, speedX := 0.0), false)
    else m
  }

  function ClampBottom(m: Motion, height: real): Motion {
    if m.ball.y + m.ball.radius >= height then Motion(m.ball.(y := height - m.ball.radius, speedY := 0.0), false)
    else m
  }

  function ClampTop(m: Motion): Motion {
    if m.ball.y - m.ball.radius <= 0.0 then Motion(m.ball.(y := m.ball.radius, speedY := 0.0), false)
    else m
  }

  /** checkBoundaries on a canvas of the given size. */
  function Clamp(m: Motion, width: nat, height: nat): Motion {
    ClampTop(ClampBottom(ClampLeft(ClampRight(m, width as real)), height as real))
  }

  /** The ball touches or crosses the left or right wall. */
  predicate TouchesX(b: BallState, width: nat) {
    b.x + b.radius >= width as real || b.x - b.radius <= 0.0
  }

  /** The ball touches or crosses the top or bottom wall. */
  predicate TouchesY(b: BallState, height: nat) {
    b.y + b.radius >= height as real || b.y - b.radius <= 0.0
  }

  /** After the clamp the centre is at least one radius from the left and top
      walls and, on a canvas at least two radii wide (high), at least one
      radius from the right (bottom) wall; touching a wall on an axis zeroes
      that axis's speed, an axis whose walls are not touched is untouched, the
      ball stops moving exactly when some wall is touched, and the radius never
      changes. */
  lemma ClampEffect(m: Motion, width: nat, height: nat)
    ensures var b, r := m.ball, Clamp(m, width, height);
            && r.ball.radius == b.radius
            && r.ball.x >= b.radius
            && r.ball.y >= b.radius
            && (width as real >= 2.0 * b.radius ==> r.ball.x <= width as real - b.radius)
            && (height as real >= 2.0 * b.radius ==> r.ball.y <= height as real - b.radius)
            && (TouchesX(b, width) ==> r.ball.speedX == 0.0)
            && (TouchesY(b, height) ==> r.ball.speedY == 0.0)
            && (!TouchesX(b, width) ==> r.ball.x == b.x && r.ball.speedX == b.speedX)
            && (!TouchesY(b, height) ==> r.ball.y == b.y && r.ball.speedY == b.speedY)
            && r.moving == (m.moving && !TouchesX(b, width) && !TouchesY(b, height))
  {
  }

  /** A ball pressed against or beyond the right wall of a wide enough canvas
      rests exactly one radius from it. */
  lemma ClampRightWall(m: Motion, width: nat, height: nat)
    requires m.ball.x + m.ball.radius >= width as real >= 2.0 * m.ball.radius
    ensures Clamp(m, width, height).ball.x == width as real - m.ball.radius
  {
  }

  /** Clamping twice is clamping once. */
  lemma ClampIdempotent(m: Motion, width: nat, height: nat)
    ensures Clamp(Clamp(m, width, height), width, height) == Clamp(m, width, height)
  {
  }

  /** updateGameLogic applied to a whole world with a ball. */
  function MoveBall(w: World, hypot: (real, real) -> real): World
    requires w.ball.Some? && IsHypotFn(hypot) && (w.moving ==> w.ball.value.radius > 0.0)
  {
    var m := Seek(Motion(w.ball.value, w.moving), w.target, hypot);
    w.(ball := Some(m.ball), moving := m.moving)
  }

  /** checkBoundaries applied to a whole world with a ball. */
  function KeepInside(w: World, width: nat, height: nat): World
    requires w.ball.Some?
  {
    var m := Clamp(Motion(w.ball.value, w.moving), width, height);
    w.(ball := Some(m.ball), moving := m.moving)
  }

  /** The collision step of animate with its callback: the asteroids the ball
      touches are removed, their number is added to the score, and the list of
      arguments passed to onAsteroidCollected is returned beside the world. */
  function Collect(w: World, hypot: (real, real) -> real): (World, seq<nat>)
    requires w.ball.Some?
  {
    var b := w.ball.value;
    var collected := CollectedCount(b, w.asteroids, hypot);
    (w.(asteroids := Survivors(b, w.asteroids, hypot), count := w.count + collected),
     if collected > 0 then [collected] else [])
  }

  /** The total of a list of reported counts. */
  function Sum(s: seq<nat>): nat {
    if s == [] then 0 else Sum(s[..|s| - 1]) + s[|s| - 1]
  }

  lemma {:induction false} SumAppend(s: seq<nat>, t: seq<nat>)
    ensures Sum(s + t) == Sum(s) + Sum(t)
  {
    if t != [] {
      SumAppend(s, t[..|t| - 1]);
      assert (s + t)[..|s + t| - 1] == s + t[..|t| - 1];
    } else {
      assert s + t == s;
    }
  }

  /** The outcome of one animation frame: the new world, the Math.random
      cursor after it, and the arguments passed to onAsteroidCollected. */
  datatype Tick = Tick(world: World, cursor: nat, reported: seq<nat>)

  /** The state-changing body of animate: blink the stars, collect the
      asteroids the ball touches where it stands, add them to the score, then
      move the ball and keep it inside the canvas. */
  function Frame(w: World, cfg: Config, rnd: nat -> real, k: nat, hypot: (real, real) -> real,
                 width: nat, height: nat): Tick
    requires w.ball.Some? && w.ball.value.radius > 0.0
    requires IsUniformStream(rnd) && IsHypotFn(hypot)
  {
    var twinkled := Twinkle(w.stars, cfg, rnd, k);
    var scored := Collect(w.(stars := twinkled.0), hypot);
    Tick(KeepInside(MoveBall(scored.0, hypot), width, height), twinkled.1, scored.1)
  }

  /** One frame raises the score by exactly the number of asteroids it
      removes, removes those the ball touched before it moved, and reports
      that number once when it is positive. */
  lemma FrameScore(w: World, cfg: Config, rnd: nat -> real, k: nat, hypot: (real, real) -> real,
                   width: nat, height: nat)
    requires w.ball.Some? && w.ball.value.radius > 0.0
    requires IsUniformStream(rnd) && IsHypotFn(hypot)
    ensures var t := Frame(w, cfg, rnd, k, hypot, width, height);
            var w' := t.world;
            && w'.count >= w.count
            && w'.count - w.count == |w.asteroids| - |w'.asteroids|
            && w'.asteroids == Survivors(w.ball.value, w.asteroids, hypot)
            && (t.reported == [] <==> w'.count == w.count)
            && (t.reported != [] ==> t.reported == [w'.count - w.count])
            && Sum(t.reported) == w'.count - w.count
  {
    CollectedPlusSurvivors(w.ball.value, w.asteroids, hypot);
    var reported := Frame(w, cfg, rnd, k, hypot, width, height).reported;
    if reported != [] {
      assert reported[..0] == [];
    }
  }

  /** Besides the score (FrameScore), one frame only removes asteroids, keeps
      the number of stars, the radius and the target, and leaves the ball
      inside a canvas wide and high enough for it. */
  lemma FrameEffect(w: World, cfg: Config, rnd: nat -> real, k: nat, hypot: (real, real) -> real,
                    width: nat, height: nat)
    requires w.ball.Some? && w.ball.value.radius > 0.0
    requires IsUniformStream(rnd) && IsHypotFn(hypot)
    ensures var t := Frame(w, cfg, rnd, k, hypot, width, height);
            var w', r := t.world, w.ball.value.radius;
            && (forall a :: a in w'.asteroids ==> a in w.asteroids)
            && |w'.stars| == |w.stars|
            && w'.ball.Some? && w'.ball.value.radius == r
            && w'.target == w.target
            && (width as real >= 2.0 * r ==> r <= w'.ball.value.x <= width as real - r)
            && (height as real >= 2.0 * r ==> r <= w'.ball.value.y <= height as real - r)
  {
    var b := w.ball.value;
    forall a | a in Survivors(b, w.asteroids, hypot)
      ensures a in w.asteroids
    {
      SurvivorMembership(b, w.asteroids, hypot, a);
    }
    TwinkleShape(w.stars, cfg, rnd, k);
    var scored := Collect(w.(stars := Twinkle(w.stars, cfg, rnd, k).0), hypot).0;
    var moved := MoveBall(scored, hypot);
    ClampEffect(Motion(moved.ball.value, moved.moving), width, height);
  }

  /** `n` frames in a row, each reading Math.random where the last stopped.
      Frames only ever remove asteroids: every asteroid left at the end was
      there at the start, the score rises by exactly the number removed, and
      the reported counts add up to the gain. */
  function Run(w: World, cfg: Config, rnd: nat -> real, k: nat, hypot: (real, real) -> real,
               width: nat, height: nat, n: nat): (t: Tick)
    requires w.ball.Some? && w.ball.value.radius > 0.0
    requires IsUniformStream(rnd) && IsHypotFn(hypot)
    ensures t.world.ball.Some? && t.world.ball.value.radius == w.ball.value.radius
    ensures forall a :: a in t.world.asteroids ==> a in w.asteroids
    ensures t.world.count >= w.count
    ensures t.world.count - w.count == |w.asteroids| - |t.world.asteroids| == Sum(t.reported)
  {
    if n == 0 then Tick(w, k, [])
    else
      var prev := Run(w, cfg, rnd, k, hypot, width, height, n - 1);
      FrameEffect(prev.world, cfg, rnd, prev.cursor, hypot, width, height);
      FrameScore(prev.world, cfg, rnd, prev.cursor, hypot, width, height);
      var next := Frame(prev.world, cfg, rnd, prev.cursor, hypot, width, height);
      ScoreStep(w.count, prev.world.count, next.world.count,
                |w.asteroids|, |prev.world.asteroids|, |next.world.asteroids|, prev.reported, next.reported);
      Tick(next.world, next.cursor, prev.reported + next.reported)
  }

  /** Two stretches of play whose score gains match their removals and their
      reports add up to a stretch with the same property. */
  lemma ScoreStep(c0: int, c1: int, c2: int, a0: int, a1: int, a2: int, r1: seq<nat>, r2: seq<nat>)
    requires c0 <= c1 <= c2
    requires c1 - c0 == a0 - a1 == Sum(r1)
    requires c2 - c1 == a1 - a2 == Sum(r2)
    ensures c0 <= c2 && c2 - c0 == a0 - a2 == Sum(r1 + r2)
  {
    SumAppend(r1, r2);
  }

  /** Whenever the ball is moving it exists and its velocity has length `speed`
      (BALL_SPEED): only the pointer handlers set `moving`, and every step that
      zeroes a speed also clears it. */
  predicate MovingHasSpeed(w: World, speed: real) {
    w.moving ==> w.ball.Some? && Sq(w.ball.value.speedX) + Sq(w.ball.value.speedY) == Sq(speed)
  }

  /** One frame keeps MovingHasSpeed: a seek step that does not snap keeps the
      speeds, a snap clears `moving`, and the clamp only zeroes a speed while
      clearing `moving`. */
  lemma FrameMovingHasSpeed(w: World, cfg: Config, rnd: nat -> real, k: nat, hypot: (real, real) -> real,
                            width: nat, height: nat, speed: real)
    requires w.ball.Some? && w.ball.value.radius > 0.0
    requires IsUniformStream(rnd) && IsHypotFn(hypot)
    requires MovingHasSpeed(w, speed)
    ensures MovingHasSpeed(Frame(w, cfg, rnd, k, hypot, width, height).world, speed)
  {
    var scored := Collect(w.(stars := Twinkle(w.stars, cfg, rnd, k).0), hypot).0;
    assert scored.ball == w.ball && scored.moving == w.moving && scored.target == w.target;
    var m := Motion(w.ball.value, w.moving);
    var moved := Seek(m, w.target, hypot);
    if w.moving {
      if DistanceTo(w.ball.value, w.target, hypot) < 1.0 {
        SeekSnaps(m, w.target, hypot);
      } else {
        SeekAdvances(m, w.target, hypot);
      }
    }
    assert moved.moving ==> Sq(moved.ball.speedX) + Sq(moved.ball.speedY) == Sq(speed);
    ClampEffect(moved, width, height);
  }

  /** initializeGame keeps MovingHasSpeed: it never touches `moving`, nor an
      existing ball. */
  lemma InitializeMovingHasSpeed(w: World, cfg: Config, rnd: nat -> real, k: nat, innerWidth: nat, innerHeight: nat,
                                 speed: real)
    requires cfg.Valid() && IsUniformStream(rnd)
    requires MovingHasSpeed(w, speed)
    ensures MovingHasSpeed(Initialize(w, cfg, rnd, k, innerWidth, innerHeight).0, speed)
  {
    InitializeEffect(w, cfg, rnd, k, innerWidth, innerHeight);
  }

  /** The radius of a new ball: 15 on narrow (mobile) viewports. */
  function NewBallRadius(innerWidth: nat, cfg: Config): real {
    if innerWidth < 768 then 15.0 else cfg.ballRadius
  }

  /** The star step of initializeGame: a star field only when the list is
      empty, taking the draws from k on. */
  function SeedStars(w: World, cfg: Config, rnd: nat -> real, k: nat, innerWidth: nat, innerHeight: nat)
    : (World, nat)
    requires cfg.starsDensity > 0 && IsUniformStream(rnd)
  {
    if |w.stars| == 0 then
      var stars := StarField(innerWidth, innerHeight, cfg, rnd, k);
      (w.(stars := stars), k + 4 * |stars|)
    else (w, k)
  }

  /** The asteroid step of initializeGame: a field only when the list is empty. */
  function SeedAsteroids(w: World, cfg: Config, rnd: nat -> real, k: nat, innerWidth: nat, innerHeight: nat)
    : (World, nat)
    requires IsUniformStream(rnd)
  {
    if |w.asteroids| == 0 then
      var field := AsteroidField(cfg.numAsteroids, innerWidth, innerHeight, rnd, k);
      (w.(asteroids := field.0), field.1)
    else (w, k)
  }

  /** The ball step of initializeGame: a ball at rest in the centre, with the
      target on it, only when there is none. */
  function PlaceBall(w: World, cfg: Config, innerWidth: nat, innerHeight: nat): World {
    if w.ball.None? then
      var centre := Point(innerWidth as real / 2.0, innerHeight as real / 2.0);
      w.(ball := Some(BallState(centre.x, centre.y, NewBallRadius(innerWidth, cfg), 0.0, 0.0)),
         target := centre)
    else w
  }

  /** initializeGame for a viewport of the given size: stars, then asteroids
      (so the stars take the first draws), then the ball. Returns the cursor
      after the draws. */
  function Initialize(w: World, cfg: Config, rnd: nat -> real, k: nat, innerWidth: nat, innerHeight: nat)
    : (World, nat)
    requires cfg.starsDensity > 0 && IsUniformStream(rnd)
  {
    var s := SeedStars(w, cfg, rnd, k, innerWidth, innerHeight);
    var a := SeedAsteroids(s.0, cfg, rnd, s.1, innerWidth, innerHeight);
    (PlaceBall(a.0, cfg, innerWidth, innerHeight), a.1)
  }

  /** initializeGame touches nothing that already exists: lists that are not
      empty, an existing ball and its target, the score and `moving` survive;
      what it creates is a fresh field, and a new ball sits at rest in the
      centre with the target on it. When everything exists it draws nothing. */
  lemma InitializeEffect(w: World, cfg: Config, rnd: nat -> real, k: nat, innerWidth: nat, innerHeight: nat)
    requires cfg.Valid() && IsUniformStream(rnd)
    ensures var (w', k') := Initialize(w, cfg, rnd, k, innerWidth, innerHeight);
            && w'.count == w.count && w'.moving == w.moving
            && (|w.stars| > 0 ==> w'.stars == w.stars)
            && (|w.stars| == 0 ==> w'.stars == StarField(innerWidth, innerHeight, cfg, rnd, k))
            && (|w.asteroids| > 0 ==> w'.asteroids == w.asteroids)
            && (|w.asteroids| == 0 ==>
                  w'.asteroids == AsteroidField(cfg.numAsteroids, innerWidth, innerHeight, rnd,
                                                SeedStars(w, cfg, rnd, k, innerWidth, innerHeight).1).0
                  && |w'.asteroids| == cfg.numAsteroids)
            && (w.ball.Some? ==> w'.ball == w.ball && w'.target == w.target)
            && (w.ball.None? ==>
                  && w'.ball.Some?
                  && w'.ball.value.x * 2.0 == innerWidth as real
                  && w'.ball.value.y * 2.0 == innerHeight as real
                  && w'.ball.value.speedX == 0.0 && w'.ball.value.speedY == 0.0
                  && w'.ball.value.radius == (if innerWidth < 768 then 15.0 else cfg.ballRadius)
                  && w'.target == Point(w'.ball.value.x, w'.ball.value.y))
            && (|w.stars| > 0 && |w.asteroids| > 0 && w.ball.Some? ==> k' == k)
  {
    var s := SeedStars(w, cfg, rnd, k, innerWidth, innerHeight);
    AsteroidFieldShape(cfg.numAsteroids, innerWidth, innerHeight, rnd, s.1);
  }

  /** On a non-empty viewport (with asteroids configured, as Config.Valid
      demands) initializeGame leaves stars, asteroids and a ball with positive
      radius, so calling it again changes nothing and draws nothing. */
  lemma InitializeIdempotent(w: World, cfg: Config, rnd: nat -> real, k: nat, innerWidth: nat, innerHeight: nat)
    requires cfg.Valid() && IsUniformStream(rnd)
    requires innerWidth > 0 && innerHeight > 0
    ensures var (w', k') := Initialize(w, cfg, rnd, k, innerWidth, innerHeight);
            && |w'.stars| > 0 && |w'.asteroids| > 0 && w'.ball.Some?
            && (w.ball.None? ==> w'.ball.value.radius > 0.0)
            && Initialize(w', cfg, rnd, k', innerWidth, innerHeight) == (w', k')
  {
    var s := SeedStars(w, cfg, rnd, k, innerWidth, innerHeight);
    AsteroidFieldShape(cfg.numAsteroids, innerWidth, innerHeight, rnd, s.1);
    StarFieldShape(innerWidth, innerHeight, cfg, rnd, k);
    assert innerWidth * innerHeight > 0;
  }

}
