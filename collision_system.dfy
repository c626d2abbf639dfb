/** CollisionSystem.checkAsteroidCollisions (gameEngine/collisionSystem.ts):
    filter out every asteroid the ball touches, count them, and report the
    count to a callback when it is positive. Math.hypot is the parameter
    `hypot`; the structural facts below hold whatever it computes. */
module CollisionSystem {

  import opened RealArith
  import opened Types

  /** The ball collects `a` when the distance between the centres is strictly
      less than the sum of the radii. */
  predicate Collides(b: BallState, a: Asteroid, hypot: (real, real) -> real) {
    hypot(b.x - a.x, b.y - a.y) < b.radius + a.size
  }

  /** The asteroids `filter` keeps, in their original order. */
  function Survivors(b: BallState, s: seq<Asteroid>, hypot: (real, real) -> real): (r: seq<Asteroid>)
    ensures |r| <= |s|
  {
    if s == [] then []
    else
      Survivors(b, s[..|s| - 1], hypot)
        + (if Collides(b, s[|s| - 1], hypot) then [] else [s[|s| - 1]])
  }

  /** The value the counter `collected` reaches. */
  function CollectedCount(b: BallState, s: seq<Asteroid>, hypot: (real, real) -> real): nat
  {
    if s == [] then 0
    else CollectedCount(b, s[..|s| - 1], hypot) + (if Collides(b, s[|s| - 1], hypot) then 1 else 0)
  }

  /** The positions in `s` of the asteroids that survive, in increasing order. */
  function KeptIndices(b: BallState, s: seq<Asteroid>, hypot: (real, real) -> real): seq<nat>
  {
    if s == [] then []
    else
      KeptIndices(b, s[..|s| - 1], hypot)
        + (if Collides(b, s[|s| - 1], hypot) then [] else [|s| - 1])
  }

  /** The source method. `remaining` is the filtered list; `onCollect` lists the
      arguments of the callback's invocations, in order. */
  method CheckAsteroidCollisions(ball: BallState, asteroids: seq<Asteroid>, hypot: (real, real) -> real)
    returns (remaining: seq<Asteroid>, onCollect: seq<nat>)
    ensures remaining == Survivors(ball, asteroids, hypot)
    ensures onCollect == if CollectedCount(ball, asteroids, hypot) > 0
                         then [CollectedCount(ball, asteroids, hypot)] else []
  {
    var collected := 0;
    remaining := [];
    var i := 0;
    while i < |asteroids|
      invariant 0 <= i <= |asteroids|
      invariant remaining == Survivors(ball, asteroids[..i], hypot)
      invariant collected == CollectedCount(ball, asteroids[..i], hypot)
    {
      var asteroid := asteroids[i];
      var distance := hypot(ball.x - asteroid.x, ball.y - asteroid.y);
      assert asteroids[..i + 1][..i] == asteroids[..i];
      if distance < ball.radius + asteroid.size {
        collected := collected + 1;
      } else {
        remaining := remaining + [asteroid];
      }
      i := i + 1;
    }
    assert asteroids[..i] == asteroids;
    onCollect := if collected > 0 then [collected] else [];
  }

  /** Every asteroid is either kept or counted, never both. */
  lemma {:induction false} CollectedPlusSurvivors(b: BallState, s: seq<Asteroid>, hypot: (real, real) -> real)
    ensures CollectedCount(b, s, hypot) + |Survivors(b, s, hypot)| == |s|
  {
    if s != [] {
      CollectedPlusSurvivors(b, s[..|s| - 1], hypot);
    }
  }

  /** An asteroid survives exactly when it was in the input and does not touch the ball. */
  lemma {:induction false} SurvivorMembership(b: BallState, s: seq<Asteroid>, hypot: (real, real) -> real, a: Asteroid)
    ensures a in Survivors(b, s, hypot) <==> a in s && !Collides(b, a, hypot)
  {
    if s != [] {
      var init := s[..|s| - 1];
      SurvivorMembership(b, init, hypot, a);
      assert s == init + [s[|s| - 1]];
    }
  }

  /** The survivors are the input at the kept positions, records untouched. */
  lemma {:induction false} SurvivorsAtKeptIndices(b: BallState, s: seq<Asteroid>, hypot: (real, real) -> real)
    ensures |KeptIndices(b, s, hypot)| == |Survivors(b, s, hypot)|
    ensures forall j :: 0 <= j < |KeptIndices(b, s, hypot)| ==>
              KeptIndices(b, s, hypot)[j] < |s| && Survivors(b, s, hypot)[j] == s[KeptIndices(b, s, hypot)[j]]
  {
    if s != [] {
      var init := s[..|s| - 1];
      SurvivorsAtKeptIndices(b, init, hypot);
      forall i | 0 <= i < |init|
        ensures s[i] == init[i]
      {
      }
    }
  }

  /** The kept positions are strictly increasing, so the survivors keep the
      original order. */
  lemma {:induction false} KeptIndicesIncreasing(b: BallState, s: seq<Asteroid>, hypot: (real, real) -> real)
    ensures forall j :: 0 <= j < |KeptIndices(b, s, hypot)| ==> KeptIndices(b, s, hypot)[j] < |s|
    ensures forall j, k :: 0 <= j < k < |KeptIndices(b, s, hypot)| ==>
              KeptIndices(b, s, hypot)[j] < KeptIndices(b, s, hypot)[k]
  {
    if s != [] {
      KeptIndicesIncreasing(b, s[..|s| - 1], hypot);
    }
  }

  /** A position is kept exactly when its asteroid does not touch the ball. */
  lemma {:induction false} KeptIndicesExact(b: BallState, s: seq<Asteroid>, hypot: (real, real) -> real)
    ensures forall i :: 0 <= i < |s| ==> (i in KeptIndices(b, s, hypot) <==> !Collides(b, s[i], hypot))
  {
    if s != [] {
      var init := s[..|s| - 1];
      KeptIndicesExact(b, init, hypot);
      KeptIndicesIncreasing(b, init, hypot);
      forall i | 0 <= i < |init|
        ensures s[i] == init[i]
      {
      }
    }
  }

  /** A list in which nothing touches the ball passes the filter unchanged. */
  lemma {:induction false} NothingToCollect(b: BallState, s: seq<Asteroid>, hypot: (real, real) -> real)
    requires forall i :: 0 <= i < |s| ==> !Collides(b, s[i], hypot)
    ensures Survivors(b, s, hypot) == s
    ensures CollectedCount(b, s, hypot) == 0
  {
    if s != [] {
      var init := s[..|s| - 1];
      forall i | 0 <= i < |init|
        ensures !Collides(b, init[i], hypot)
      {
        assert init[i] == s[i];
      }
      NothingToCollect(b, init, hypot);
      assert s == init + [s[|s| - 1]];
    }
  }

  /** Running the check a second time with the same ball removes nothing and
      fires no callback. */
  lemma CollisionIdempotent(b: BallState, s: seq<Asteroid>, hypot: (real, real) -> real)
    ensures Survivors(b, Survivors(b, s, hypot), hypot) == Survivors(b, s, hypot)
    ensures CollectedCount(b, Survivors(b, s, hypot), hypot) == 0
  {
    var r := Survivors(b, s, hypot);
    forall i | 0 <= i < |r|
      ensures !Collides(b, r[i], hypot)
    {
      SurvivorMembership(b, s, hypot, r[i]);
    }
    NothingToCollect(b, r, hypot);
  }

  /** With Math.hypot's contract, the test is the Euclidean one: the discs
      overlap with positive depth. Exact touching is not a collection. */
  lemma CollidesIffOverlap(b: BallState, a: Asteroid, hypot: (real, real) -> real)
    requires IsHypotFn(hypot)
    ensures var dx, dy, reach := b.x - a.x, b.y - a.y, b.radius + a.size;
            Collides(b, a, hypot) <==> reach > 0.0 && Sq(dx) + Sq(dy) < Sq(reach)
  {
    var dx, dy, reach := b.x - a.x, b.y - a.y, b.radius + a.size;
    var d := hypot(dx, dy);
    assert IsHypot(dx, dy, d);
    if reach > 0.0 {
      SqMono(d, reach);
    }
  }
}
