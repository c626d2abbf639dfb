/** AsteroidSystem.createAsteroids (gameEngine/asteroidSystem.ts): a field of
    NUM_ASTEROIDS grey polygons of random size and position. Math.random is
    the stream `rnd`, read from the cursor `k` on. */
module AsteroidSystem {

  import opened RealArith
  import opened Types

  /** The factor `0.7 + u * 0.3` of a vertex radius. */
  function Jag(u: real): (f: real)
    requires 0.0 <= u < 1.0
    ensures 0.7 <= f < 1.0
  {
    0.7 + u * 0.3
  }

  /** A vertex lies between 70% of the asteroid's size and its full size. */
  lemma JaggedRadius(size: real, f: real)
    requires size > 0.0 && 0.7 <= f < 1.0
    ensures 0.7 * size <= size * f < size
  {
    MulLtRight(f, 1.0, size);
    MulLeLeft(size, 0.7, f);
    assert size * f == f * size;
    assert size * 0.7 == 0.7 * size;
  }

  /** The vertices of an asteroid of `size` with `nv` corners, from the draws at k. */
  function VertexRing(size: real, nv: nat, rnd: nat -> real, k: nat): seq<Vertex>
    requires IsUniformStream(rnd)
  {
    seq(nv, j requires 0 <= j < nv => Vertex((j as real) / (nv as real), size * Jag(rnd(k + j))))
  }

  /** One iteration of the outer loop, with its draws from cursor k: the
      asteroid pushed and the cursor after its draws. */
  function AsteroidAt(width: nat, height: nat, rnd: nat -> real, k: nat): (Asteroid, nat)
    requires IsUniformStream(rnd)
  {
    var nv := Random(5.0, 9.0, rnd(k)).Floor;
    var size := Random(10.0, 20.0, rnd(k + 1));
    (Asteroid(Random(0.0, width as real, rnd(k + 2 + nv)),
              Random(0.0, height as real, rnd(k + 3 + nv)),
              size, "gray", VertexRing(size, nv, rnd, k + 2)),
     k + 4 + nv)
  }

  /** The first `n` asteroids createAsteroids pushes, and the cursor after them. */
  function AsteroidField(n: nat, width: nat, height: nat, rnd: nat -> real, k: nat): (seq<Asteroid>, nat)
    requires IsUniformStream(rnd)
  {
    if n == 0 then ([], k)
    else
      var prev := AsteroidField(n - 1, width, height, rnd, k);
      var next := AsteroidAt(width, height, rnd, prev.1);
      (prev.0 + [next.0], next.1)
  }

  /** The inner loop of createAsteroids. */
  method CreateVertices(size: real, numVertices: nat, rnd: nat -> real, k: nat) returns (vertices: seq<Vertex>)
    requires IsUniformStream(rnd)
    ensures vertices == VertexRing(size, numVertices, rnd, k)
  {
    vertices := [];
    var j := 0;
    while j < numVertices
      invariant 0 <= j <= numVertices && |vertices| == j
      invariant forall t :: 0 <= t < j ==>
                  vertices[t] == Vertex((t as real) / (numVertices as real), size * Jag(rnd(k + t)))
    {
      var turn := (j as real) / (numVertices as real);
      var radius := size * Jag(rnd(k + j));
      vertices := vertices + [Vertex(turn, radius)];
      j := j + 1;
    }
    assert forall t :: 0 <= t < numVertices ==> vertices[t] == VertexRing(size, numVertices, rnd, k)[t];
  }

  /** The body of the outer loop of createAsteroids: one asteroid from the
      draws at cursor k, and the cursor after them. */
  method CreateAsteroid(width: nat, height: nat, rnd: nat -> real, k: nat)
    returns (asteroid: Asteroid, k1: nat)
    requires IsUniformStream(rnd)
    ensures (asteroid, k1) == AsteroidAt(width, height, rnd, k)
  {
    var numVertices := Random(5.0, 9.0, rnd(k)).Floor;
    var size := Random(10.0, 20.0, rnd(k + 1));
    var vertices := CreateVertices(size, numVertices, rnd, k + 2);
    asteroid := Asteroid(Random(0.0, width as real, rnd(k + 2 + numVertices)),
                         Random(0.0, height as real, rnd(k + 3 + numVertices)),
                         size, "gray", vertices);
    k1 := k + 4 + numVertices;
  }

  method CreateAsteroids(width: nat, height: nat, cfg: Config, rnd: nat -> real, k0: nat)
    returns (asteroids: seq<Asteroid>, k1: nat)
    requires IsUniformStream(rnd)
    ensures (asteroids, k1) == AsteroidField(cfg.numAsteroids, width, height, rnd, k0)
  {
    asteroids, k1 := [], k0;
    var i := 0;
    while i < cfg.numAsteroids
      invariant 0 <= i <= cfg.numAsteroids
      invariant (asteroids, k1) == AsteroidField(i, width, height, rnd, k0)
    {
      var asteroid, k2 := CreateAsteroid(width, height, rnd, k1);
      assert AsteroidField(i + 1, width, height, rnd, k0) == (asteroids + [asteroid], k2);
      asteroids := asteroids + [asteroid];
      k1 := k2;
      i := i + 1;
    }
  }

  /** Vertices spread evenly over one turn, each at 70% to 100% of `size`. */
  predicate JaggedRing(vertices: seq<Vertex>, size: real) {
    forall j :: 0 <= j < |vertices| ==>
      && vertices[j].turn * (|vertices| as real) == j as real
      && 0.0 <= vertices[j].turn < 1.0
      && 0.7 * size <= vertices[j].radius < size
  }

  /** What every generated asteroid satisfies on a canvas of the given size:
      grey, size in [10, 20), between five and eight vertices forming a jagged
      ring, and a centre inside the canvas (coordinate 0 on a dimension of
      size 0). */
  predicate WellFormed(a: Asteroid, width: nat, height: nat) {
    && a.color == "gray"
    && 10.0 <= a.size < 20.0
    && 5 <= |a.vertices| <= 8
    && JaggedRing(a.vertices, a.size)
    && (if width > 0 then 0.0 <= a.x < width as real else a.x == 0.0)
    && (if height > 0 then 0.0 <= a.y < height as real else a.y == 0.0)
  }

  lemma VertexRingShape(size: real, nv: nat, rnd: nat -> real, k: nat)
    requires size > 0.0 && IsUniformStream(rnd)
    ensures |VertexRing(size, nv, rnd, k)| == nv
    ensures JaggedRing(VertexRing(size, nv, rnd, k), size)
  {
    var ring := VertexRing(size, nv, rnd, k);
    forall j | 0 <= j < nv
      ensures ring[j].turn * (nv as real) == j as real
      ensures 0.0 <= ring[j].turn < 1.0
      ensures 0.7 * size <= ring[j].radius < size
    {
      DivNonneg(j as real, nv as real);
      DivLtOne(j as real, nv as real);
      DivMul(j as real, nv as real);
      JaggedRadius(size, Jag(rnd(k + j)));
    }
  }

  lemma AsteroidAtWellFormed(width: nat, height: nat, rnd: nat -> real, k: nat)
    requires IsUniformStream(rnd)
    ensures WellFormed(AsteroidAt(width, height, rnd, k).0, width, height)
    ensures AsteroidAt(width, height, rnd, k).1 == k + 4 + |AsteroidAt(width, height, rnd, k).0.vertices|
  {
    var u := Random(5.0, 9.0, rnd(k));
    var nv := u.Floor;
    assert 5 <= nv <= 8;
    var size := Random(10.0, 20.0, rnd(k + 1));
    VertexRingShape(size, nv, rnd, k + 2);
    var x := Random(0.0, width as real, rnd(k + 2 + nv));
    var y := Random(0.0, height as real, rnd(k + 3 + nv));
    assert AsteroidAt(width, height, rnd, k) == (Asteroid(x, y, size, "gray", VertexRing(size, nv, rnd, k + 2)), k + 4 + nv);
  }

  /** createAsteroids returns NUM_ASTEROIDS well-formed asteroids and consumes
      between 9 and 12 draws for each. */
  lemma {:induction false} AsteroidFieldShape(n: nat, width: nat, height: nat, rnd: nat -> real, k: nat)
    requires IsUniformStream(rnd)
    ensures |AsteroidField(n, width, height, rnd, k).0| == n
    ensures forall a :: a in AsteroidField(n, width, height, rnd, k).0 ==> WellFormed(a, width, height)
    ensures k + 9 * n <= AsteroidField(n, width, height, rnd, k).1 <= k + 12 * n
  {
    if n > 0 {
      AsteroidFieldShape(n - 1, width, height, rnd, k);
      var prev := AsteroidField(n - 1, width, height, rnd, k);
      AsteroidAtWellFormed(width, height, rnd, prev.1);
    }
  }
}
