/** The resize handler of the AsteroidGame component (AsteroidGame.tsx): the
    canvas takes the new viewport size and the ball and its target are pulled
    back inside it with Math.min. */
module AsteroidGame {

  import opened Types
  import opened GameLogic

  /** Math.min on two numbers. */
  function Min(a: real, b: real): (m: real)
    ensures m <= a && m <= b
    ensures m == a || m == b
  {
    if a <= b then a else b
  }

  /** handleResize for a viewport of the given size. */
  function Resize(w: World, innerWidth: nat, innerHeight: nat): World {
    if w.ball.None? then w
    else
      var b := w.ball.value;
      w.(ball := Some(b.(x := Min(b.x, innerWidth as real - b.radius), y := Min(b.y, innerHeight as real - b.radius))),
         target := Point(Min(w.target.x, innerWidth as real), Min(w.target.y, innerHeight as real)))
  }

  /** Without a ball nothing changes. With one, the centre ends at most one
      radius before the right and bottom edges and the target on or before
      them; no coordinate increases, a coordinate already within its bound is
      kept, and no lower bound is applied. Speeds, radius, `moving`, score,
      stars and asteroids are untouched, and resizing twice to the same size
      is resizing once. */
  lemma ResizeEffect(w: World, innerWidth: nat, innerHeight: nat)
    ensures var r := Resize(w, innerWidth, innerHeight);
            && (w.ball.None? ==> r == w)
            && r.stars == w.stars && r.asteroids == w.asteroids
            && r.moving == w.moving && r.count == w.count
            && r.ball.Some? == w.ball.Some?
            && (w.ball.Some? ==>
                  var b, b' := w.ball.value, r.ball.value;
                  && b'.x <= innerWidth as real - b.radius && b'.y <= innerHeight as real - b.radius
                  && r.target.x <= innerWidth as real && r.target.y <= innerHeight as real
                  && b'.x <= b.x && b'.y <= b.y && r.target.x <= w.target.x && r.target.y <= w.target.y
                  && (b.x <= innerWidth as real - b.radius ==> b'.x == b.x)
                  && (b.y <= innerHeight as real - b.radius ==> b'.y == b.y)
                  && (w.target.x <= innerWidth as real ==> r.target.x == w.target.x)
                  && (w.target.y <= innerHeight as real ==> r.target.y == w.target.y)
                  && b'.radius == b.radius && b'.speedX == b.speedX && b'.speedY == b.speedY)
            && Resize(r, innerWidth, innerHeight) == r
  {
  }

  /** handleResize keeps MovingHasSpeed: it changes neither the speeds nor
      `moving`. */
  lemma ResizeMovingHasSpeed(w: World, innerWidth: nat, innerHeight: nat, speed: real)
    requires MovingHasSpeed(w, speed)
    ensures MovingHasSpeed(Resize(w, innerWidth, innerHeight), speed)
  {
    ResizeEffect(w, innerWidth, innerHeight);
  }

  /** handleResize on the shared state; the canvas itself is not modelled, its
      new size is the viewport size passed in. */
  method HandleResize(g: GameState, innerWidth: nat, innerHeight: nat)
    requires g.Valid()
    modifies g, g.ball
    ensures g.Valid() && g.ball == old(g.ball)
    ensures g.Snapshot() == Resize(old(g.Snapshot()), innerWidth, innerHeight)
  {
    var width := innerWidth as real;
    var height := innerHeight as real;
    if g.ball != null {
      g.ball.x := Min(g.ball.x, width - g.ball.radius);
      g.ball.y := Min(g.ball.y, height - g.ball.radius);
      g.target := g.target.(x := Min(g.target.x, width));
      g.target := g.target.(y := Min(g.target.y, height));
    }
  }
}
