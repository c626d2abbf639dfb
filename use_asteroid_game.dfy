/** The state-changing operations of the useAsteroidGame hook
    (useAsteroidGame.ts) on the shared GameState: initializeGame,
    updateGameLogic, checkBoundaries and the body of the animation frame.
    Each is proved against its rule in module GameLogic. */
module UseAsteroidGame {

  import opened RealArith
  import opened Types
  import opened CollisionSystem
  import opened StarSystem
  import opened AsteroidSystem
  import opened GameLogic

  /** initializeGame for a viewport of the given size; returns the
      Math.random cursor after its draws. */
  method InitializeGame(g: GameState, cfg: Config, rnd: nat -> real, k: nat, innerWidth: nat, innerHeight: nat)
    returns (k1: nat)
    requires g.Valid() && cfg.Valid() && IsUniformStream(rnd)
    modifies g
    ensures g.Valid()
    ensures g.ball == old(g.ball) || (old(g.ball) == null && fresh(g.ball))
    ensures (g.Snapshot(), k1) == Initialize(old(g.Snapshot()), cfg, rnd, k, innerWidth, innerHeight)
  {
    ghost var w0 := g.Snapshot();
    k1 := k;
    if |g.stars| == 0 {
      g.stars, k1 := CreateStars(innerWidth, innerHeight, cfg, rnd, k1);
    }
    ghost var s := SeedStars(w0, cfg, rnd, k, innerWidth, innerHeight);
    assert (g.Snapshot(), k1) == s;
    if |g.asteroids| == 0 {
      g.asteroids, k1 := CreateAsteroids(innerWidth, innerHeight, cfg, rnd, k1);
    }
    ghost var a := SeedAsteroids(s.0, cfg, rnd, s.1, innerWidth, innerHeight);
    assert (g.Snapshot(), k1) == a;
    if g.ball == null {
      var isMobile := innerWidth < 768;
      var centre := Point(innerWidth as real / 2.0, innerHeight as real / 2.0);
      g.ball := new Ball(BallState(centre.x, centre.y, if isMobile then 15.0 else cfg.ballRadius, 0.0, 0.0));
      g.target := centre;
    }
    assert g.Snapshot() == PlaceBall(a.0, cfg, innerWidth, innerHeight);
  }

  /** updateGameLogic on the game's ball. */
  method UpdateGameLogic(g: GameState, hypot: (real, real) -> real)
    requires g.ball != null && g.Valid() && IsHypotFn(hypot)
    modifies g, g.ball
    ensures g.ball == old(g.ball) && g.Valid()
    ensures g.Snapshot() == MoveBall(old(g.Snapshot()), hypot)
  {
    var ball := g.ball;
    ghost var w := g.Snapshot();
    ghost var m := Seek(Motion(ball.State(), g.moving), g.target, hypot);
    if g.moving {
      var dx := g.target.x - ball.x;
      var dy := g.target.y - ball.y;
      var distance := hypot(dx, dy);
      var stopDistance := ball.radius * 3.0;
      assert distance == DistanceTo(ball.State(), g.target, hypot);
      var speedFactor := 1.0;
      if distance > stopDistance * 2.0 {
        speedFactor := distance / (stopDistance * 2.0);
      } else if distance <= stopDistance {
        speedFactor := 1.0 - distance / stopDistance;
      }
      assert speedFactor == SpeedFactor(distance, stopDistance);
      if distance < 1.0 {
        ball.x := g.target.x;
        ball.y := g.target.y;
        ball.speedX := 0.0;
        ball.speedY := 0.0;
        g.moving := false;
      } else {
        ball.x := ball.x + Scale(ball.speedX, speedFactor);
        ball.y := ball.y + Scale(ball.speedY, speedFactor);
      }
      assert ball.State() == m.ball && g.moving == m.moving;
    }
  }

  /** checkBoundaries on the game's ball and a canvas of the given size. */
  method CheckBoundaries(g: GameState, width: nat, height: nat)
    requires g.ball != null && g.Valid()
    modifies g, g.ball
    ensures g.ball == old(g.ball) && g.Valid()
    ensures g.Snapshot() == KeepInside(old(g.Snapshot()), width, height)
  {
    var ball := g.ball;
    if ball.x + ball.radius >= width as real {
      ball.x := width as real - ball.radius;
      ball.speedX := 0.0;
      g.moving := false;
    }
    if ball.x - ball.radius <= 0.0 {
      ball.x := ball.radius;
      ball.speedX := 0.0;
      g.moving := false;
    }
    if ball.y + ball.radius >= height as real {
      ball.y := height as real - ball.radius;
      ball.speedY := 0.0;
      g.moving := false;
    }
    if ball.y - ball.radius <= 0.0 {
      ball.y := ball.radius;
      ball.speedY := 0.0;
      g.moving := false;
    }
  }

  /** The collision call of animate with its callback, which adds the number
      collected to the score and reports it to onAsteroidCollected; returns the
      arguments of those reports. */
  method CollectAsteroids(g: GameState, hypot: (real, real) -> real) returns (reported: seq<nat>)
    requires g.ball != null && g.Valid()
    modifies g
    ensures g.ball == old(g.ball) && g.Valid()
    ensures (g.Snapshot(), reported) == Collect(old(g.Snapshot()), hypot)
  {
    ghost var w := g.Snapshot();
    var remaining, onCollect := CheckAsteroidCollisions(g.ball.State(), g.asteroids, hypot);
    ghost var collected := CollectedCount(w.ball.value, w.asteroids, hypot);
    g.asteroids := remaining;
    reported := onCollect;
    if onCollect != [] {
      g.currentAsteroidCount := g.currentAsteroidCount + onCollect[0];
    }
    assert g.currentAsteroidCount == w.count + collected;
    assert g.Snapshot() == w.(asteroids := remaining, count := w.count + collected) == Collect(w, hypot).0;
    assert reported == Collect(w, hypot).1;
  }

  /** One call of animate, drawing left out: returns the Math.random cursor
      after the frame and the arguments passed to onAsteroidCollected. */
  method Animate(g: GameState, cfg: Config, rnd: nat -> real, k: nat, hypot: (real, real) -> real,
                 width: nat, height: nat)
    returns (k1: nat, reported: seq<nat>)
    requires g.ball != null && g.Valid() && IsUniformStream(rnd) && IsHypotFn(hypot)
    modifies g, g.ball
    ensures g.ball == old(g.ball) && g.Valid()
    ensures Tick(g.Snapshot(), k1, reported) == Frame(old(g.Snapshot()), cfg, rnd, k, hypot, width, height)
  {
    g.stars, k1 := UpdateStars(g.stars, cfg, rnd, k);
    reported := CollectAsteroids(g, hypot);
    UpdateGameLogic(g, hypot);
    CheckBoundaries(g, width, height);
  }
}
