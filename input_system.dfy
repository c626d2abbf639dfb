/** InputSystem.handleCanvasClick and InputSystem.handleTouchStart
    (gameEngine/inputSystem.ts): aim the ball at the pointer. */
module InputSystem {

  import opened RealArith
  import opened Types
  import opened GameLogic

  /** One component of the new velocity: the leg `delta` of the distance `d`,
      divided by `d` and scaled to `speed`. */
  function Component(delta: real, d: real, speed: real): real
    requires d != 0.0
  {
    delta / d * speed
  }

  /** Scaling both legs of a right triangle by speed / hypotenuse yields a
      vector of length `speed`. */
  lemma UnitNorm(dx: real, dy: real, d: real, speed: real)
    requires d > 0.0 && Sq(d) == Sq(dx) + Sq(dy)
    ensures Sq(Component(dx, d, speed)) + Sq(Component(dy, d, speed)) == Sq(speed)
  {
    var k := speed / d;
    DivSwap(dx, d, speed);
    DivSwap(dy, d, speed);
    SqMul(dx, k);
    SqMul(dy, k);
    SumMul(Sq(dx), Sq(dy), Sq(k), Sq(d));
    MulDiv(d, speed);
    SqMul(d, k);
  }

  /** A component has the sign of its leg. */
  lemma ComponentSign(delta: real, d: real, speed: real)
    requires d > 0.0 && speed > 0.0
    ensures Component(delta, d, speed) > 0.0 <==> delta > 0.0
    ensures Component(delta, d, speed) < 0.0 <==> delta < 0.0
  {
    DivSign(delta, d);
    MulSign(delta / d, speed);
  }

  /** The canvas-local point of a pointer event. */
  function CanvasPoint(clientX: real, clientY: real, rectLeft: real, rectTop: real): Point {
    Point(clientX - rectLeft, clientY - rectTop)
  }

  /** The transition both handlers perform for the canvas-local point `p`:
      nothing without a ball or when `p` is the ball's centre; otherwise a new
      target and a velocity of length `speed` towards it. */
  function Retarget(w: World, p: Point, speed: real, hypot: (real, real) -> real): World
    requires IsHypotFn(hypot)
  {
    if w.ball.None? then w
    else
      var b := w.ball.value;
      var d := DistanceTo(b, p, hypot);
      if d == 0.0 then w
      else w.(ball := Some(b.(speedX := Component(p.x - b.x, d, speed), speedY := Component(p.y - b.y, d, speed))),
              moving := true, target := p)
  }

  /** Without a ball, or with the pointer on the ball's centre, nothing
      changes. Otherwise the ball is moving towards the new target with speed
      exactly `speed`, each speed component having the sign of the matching
      offset from the ball to the target; position, radius, stars, asteroids
      and score never change. */
  lemma RetargetEffect(w: World, p: Point, speed: real, hypot: (real, real) -> real)
    requires IsHypotFn(hypot) && speed > 0.0
    ensures var r := Retarget(w, p, speed, hypot);
            && r.stars == w.stars && r.asteroids == w.asteroids && r.count == w.count
            && (w.ball.None? ==> r == w)
            && (w.ball.Some? && w.ball.value.x == p.x && w.ball.value.y == p.y ==> r == w)
            && (w.ball.Some? && (w.ball.value.x != p.x || w.ball.value.y != p.y) ==>
                  var b, b' := w.ball.value, r.ball.value;
                  && r.ball.Some? && r.moving && r.target == p
                  && b'.x == b.x && b'.y == b.y && b'.radius == b.radius
                  && Sq(b'.speedX) + Sq(b'.speedY) == Sq(speed)
                  && (b'.speedX > 0.0 <==> p.x > b.x) && (b'.speedX < 0.0 <==> p.x < b.x)
                  && (b'.speedY > 0.0 <==> p.y > b.y) && (b'.speedY < 0.0 <==> p.y < b.y))
  {
    if w.ball.Some? {
      var b := w.ball.value;
      var dx, dy := p.x - b.x, p.y - b.y;
      var d := DistanceTo(b, p, hypot);
      if d != 0.0 {
        assert IsHypot(dx, dy, d);
        UnitNorm(dx, dy, d, speed);
        ComponentSign(dx, d, speed);
        ComponentSign(dy, d, speed);
      }
    }
  }

  /** The pointer handlers keep MovingHasSpeed for BALL_SPEED: they set
      `moving` only together with a velocity of that length. */
  lemma RetargetMovingHasSpeed(w: World, p: Point, speed: real, hypot: (real, real) -> real)
    requires IsHypotFn(hypot) && speed > 0.0
    requires MovingHasSpeed(w, speed)
    ensures MovingHasSpeed(Retarget(w, p, speed, hypot), speed)
  {
    RetargetEffect(w, p, speed, hypot);
  }

  /** The part both handlers share, from the canvas-local point on: the guard
      for a missing ball, the guard for a zero distance and the assignments. */
  method Aim(g: GameState, targetX: real, targetY: real, cfg: Config, hypot: (real, real) -> real)
    requires g.Valid() && IsHypotFn(hypot)
    modifies g, g.ball
    ensures g.Valid() && g.ball == old(g.ball)
    ensures g.Snapshot() == Retarget(old(g.Snapshot()), Point(targetX, targetY), cfg.ballSpeed, hypot)
  {
    if g.ball == null {
      return;
    }
    ghost var w := g.Snapshot();
    ghost var b := g.ball.State();
    var dx := targetX - g.ball.x;
    var dy := targetY - g.ball.y;
    var distance := hypot(dx, dy);
    assert distance == DistanceTo(b, Point(targetX, targetY), hypot);
    if distance == 0.0 {
      return;
    }
    g.ball.speedX := dx / distance * cfg.ballSpeed;
    g.ball.speedY := dy / distance * cfg.ballSpeed;
    g.moving := true;
    g.target := Point(targetX, targetY);
    assert g.ball.State() == b.(speedX := Component(dx, distance, cfg.ballSpeed),
                                speedY := Component(dy, distance, cfg.ballSpeed));
  }

  /** handleCanvasClick with the click at (clientX, clientY) and the canvas's
      bounding rectangle at (rectLeft, rectTop). */
  method HandleCanvasClick(g: GameState, clientX: real, clientY: real, rectLeft: real, rectTop: real,
                           cfg: Config, hypot: (real, real) -> real)
    requires g.Valid() && IsHypotFn(hypot)
    modifies g, g.ball
    ensures g.Valid() && g.ball == old(g.ball)
    ensures g.Snapshot() == Retarget(old(g.Snapshot()), CanvasPoint(clientX, clientY, rectLeft, rectTop),
                                     cfg.ballSpeed, hypot)
  {
    var targetX := clientX - rectLeft;
    var targetY := clientY - rectTop;
    assert CanvasPoint(clientX, clientY, rectLeft, rectTop) == Point(targetX, targetY);
    Aim(g, targetX, targetY, cfg, hypot);
  }

  /** handleTouchStart with the touch list of the event (a touchstart event
      always carries at least one touch). The result reports that the
      browser's default action was prevented, which happens on every call,
      before any guard. */
  method HandleTouchStart(g: GameState, touches: seq<Point>, rectLeft: real, rectTop: real,
                          cfg: Config, hypot: (real, real) -> real)
    returns (defaultPrevented: bool)
    requires |touches| > 0 && g.Valid() && IsHypotFn(hypot)
    modifies g, g.ball
    ensures defaultPrevented
    ensures g.Valid() && g.ball == old(g.ball)
    ensures g.Snapshot() == Retarget(old(g.Snapshot()), CanvasPoint(touches[0].x, touches[0].y, rectLeft, rectTop),
                                     cfg.ballSpeed, hypot)
  {
    defaultPrevented := true;
    var touch := touches[0];
    var targetX := touch.x - rectLeft;
    var targetY := touch.y - rectTop;
    assert CanvasPoint(touches[0].x, touches[0].y, rectLeft, rectTop) == Point(targetX, targetY);
    Aim(g, targetX, targetY, cfg, hypot);
  }
}
