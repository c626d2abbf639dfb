/** StarSystem.createStars and StarSystem.updateStars (gameEngine/starSystem.ts).
    Math.random is the stream `rnd`, read from the cursor `k` on; every method
    returns the cursor after its last draw. */
module StarSystem {

  import opened RealArith
  import opened Types

  /** The number of times the loop `i < width * height / density` runs: the
      ceiling of the quotient. */
  function NumStars(area: nat, density: nat): nat
    requires density > 0
  {
    (area + density - 1) / density
  }

  /** NumStars is the least n with area <= n * density. */
  lemma NumStarsIsCeiling(area: nat, density: nat)
    requires density > 0
    ensures (NumStars(area, density) - 1) * density < area <= NumStars(area, density) * density
  {
    var n := NumStars(area, density);
    var r := (area + density - 1) % density;
    assert area + density - 1 == n * density + r;
    assert (n - 1) * density == n * density - density;
  }

  /** The loop guard, read on integers. */
  lemma BelowQuotient(i: nat, area: nat, density: nat)
    requires density > 0
    ensures (i as real) < (area as real) / (density as real) <==> i * density < area
  {
    var q := (area as real) / (density as real);
    var d := density as real;
    assert q * d == area as real;
    assert (i * density) as real == (i as real) * d;
    if (i as real) < q {
      MulLtRight(i as real, q, d);
    } else {
      MulLeLeft(d, q, i as real);
      assert d * q == q * d;
      assert d * (i as real) == (i as real) * d;
    }
  }

  /** The star pushed by one iteration of createStars, from the four draws at k. */
  function StarAt(width: nat, height: nat, cfg: Config, rnd: nat -> real, k: nat): Star
    requires IsUniformStream(rnd)
  {
    Star(Random(0.0, width as real, rnd(k)),
         Random(0.0, height as real, rnd(k + 1)),
         Random(1.0, 3.0, rnd(k + 2)),
         Random(0.5, 1.0, rnd(k + 3)),
         cfg.white)
  }

  /** The whole list createStars returns. */
  function StarField(width: nat, height: nat, cfg: Config, rnd: nat -> real, k: nat): seq<Star>
    requires cfg.starsDensity > 0 && IsUniformStream(rnd)
  {
    seq(NumStars(width * height, cfg.starsDensity), i requires 0 <= i => StarAt(width, height, cfg, rnd, k + 4 * i))
  }

  lemma IntMulLe(a: int, b: int, c: int)
    requires c >= 0 && a <= b
    ensures a * c <= b * c
  {
  }

  /** The loop guard of createStars holds exactly below the star count. */
  lemma GuardBelowCount(i: nat, area: nat, density: nat)
    requires density > 0
    ensures (i as real) < (area as real) / (density as real) <==> i < NumStars(area, density)
  {
    var n := NumStars(area, density);
    BelowQuotient(i, area, density);
    NumStarsIsCeiling(area, density);
    if i < n {
      IntMulLe(i, n - 1, density);
    } else {
      IntMulLe(n, i, density);
    }
  }

  method CreateStars(width: nat, height: nat, cfg: Config, rnd: nat -> real, k0: nat)
    returns (stars: seq<Star>, k1: nat)
    requires cfg.Valid() && IsUniformStream(rnd)
    ensures stars == StarField(width, height, cfg, rnd, k0)
    ensures k1 == k0 + 4 * |stars|
  {
    var area := width * height;
    ghost var n := NumStars(area, cfg.starsDensity);
    var numStars := (area as real) / (cfg.starsDensity as real);
    stars := [];
    k1 := k0;
    var i := 0;
    GuardBelowCount(i, area, cfg.starsDensity);
    while (i as real) < numStars
      invariant 0 <= i <= n
      invariant (i as real) < numStars <==> i < n
      invariant |stars| == i && k1 == k0 + 4 * i
      invariant forall j :: 0 <= j < i ==> stars[j] == StarAt(width, height, cfg, rnd, k0 + 4 * j)
      decreases n - i
    {
      var star := Star(Random(0.0, width as real, rnd(k1)),
                       Random(0.0, height as real, rnd(k1 + 1)),
                       Random(1.0, 3.0, rnd(k1 + 2)),
                       Random(0.5, 1.0, rnd(k1 + 3)),
                       cfg.white);
      assert star == StarAt(width, height, cfg, rnd, k0 + 4 * i);
      stars := stars + [star];
      k1 := k1 + 4;
      i := i + 1;
      GuardBelowCount(i, area, cfg.starsDensity);
    }
    assert |stars| == |StarField(width, height, cfg, rnd, k0)|;
    assert forall j :: 0 <= j < i ==> stars[j] == StarField(width, height, cfg, rnd, k0)[j];
  }

  /** The generated field has ⌈width·height/density⌉ stars, each inside the
      canvas, of size in [1, 3), alpha in [0.5, 1) and white. */
  lemma StarFieldShape(width: nat, height: nat, cfg: Config, rnd: nat -> real, k: nat)
    requires cfg.starsDensity > 0 && IsUniformStream(rnd)
    ensures var n := |StarField(width, height, cfg, rnd, k)|;
            (n - 1) * cfg.starsDensity < width * height <= n * cfg.starsDensity
    ensures forall s :: s in StarField(width, height, cfg, rnd, k) ==>
              0.0 <= s.x < width as real && 0.0 <= s.y < height as real &&
              1.0 <= s.size < 3.0 && 0.5 <= s.alpha < 1.0 && s.color == cfg.white
  {
    var field := StarField(width, height, cfg, rnd, k);
    NumStarsIsCeiling(width * height, cfg.starsDensity);
    if field != [] {
      assert width * height > 0;
      assert width > 0 && height > 0;
    }
  }

  /** One iteration of updateStars on `s`, with its draws from cursor k: the new
      star and the cursor after the draws. */
  function BlinkStar(s: Star, cfg: Config, rnd: nat -> real, k: nat): (Star, nat)
    requires IsUniformStream(rnd)
  {
    if rnd(k) < cfg.blinkChance then
      if rnd(k + 1) < 0.5 then (s.(color := cfg.lightBlue, alpha := Random(0.5, 1.0, rnd(k + 2))), k + 3)
      else (s.(color := cfg.white, alpha := Random(0.5, 1.0, rnd(k + 2))), k + 3)
    else (s, k + 1)
  }

  /** updateStars over the whole list: the new list and the cursor after it. */
  function Twinkle(stars: seq<Star>, cfg: Config, rnd: nat -> real, k: nat): (seq<Star>, nat)
    requires IsUniformStream(rnd)
  {
    if stars == [] then ([], k)
    else
      var prev := Twinkle(stars[..|stars| - 1], cfg, rnd, k);
      var last := BlinkStar(stars[|stars| - 1], cfg, rnd, prev.1);
      (prev.0 + [last.0], last.1)
  }

  /** The source mutates each star of the list in place; here the list value
      is returned with the same stars updated. */
  method UpdateStars(stars: seq<Star>, cfg: Config, rnd: nat -> real, k0: nat)
    returns (updated: seq<Star>, k1: nat)
    requires IsUniformStream(rnd)
    ensures (updated, k1) == Twinkle(stars, cfg, rnd, k0)
  {
    updated, k1 := stars, k0;
    var i := 0;
    while i < |stars|
      invariant 0 <= i <= |stars| && |updated| == |stars|
      invariant forall j :: i <= j < |stars| ==> updated[j] == stars[j]
      invariant (updated[..i], k1) == Twinkle(stars[..i], cfg, rnd, k0)
    {
      var star := updated[i];
      ghost var before := updated;
      ghost var blink := BlinkStar(stars[i], cfg, rnd, k1);
      assert stars[..i + 1][..i] == stars[..i];
      assert Twinkle(stars[..i + 1], cfg, rnd, k0) == (before[..i] + [blink.0], blink.1);
      if rnd(k1) < cfg.blinkChance {
        if rnd(k1 + 1) < 0.5 {
          updated := updated[i := star.(color := cfg.lightBlue, alpha := Random(0.5, 1.0, rnd(k1 + 2)))];
        } else {
          updated := updated[i := star.(color := cfg.white, alpha := Random(0.5, 1.0, rnd(k1 + 2)))];
        }
        k1 := k1 + 3;
      } else {
        k1 := k1 + 1;
      }
      assert (updated[i], k1) == blink;
      assert updated[..i + 1] == before[..i] + [updated[i]];
      i := i + 1;
    }
    assert stars[..i] == stars && updated[..i] == updated;
  }

  /** A star whose blink draw is not below the blink chance keeps every field;
      one that blinks keeps its place and size and gets a colour from the two
      and an alpha in [0.5, 1). */
  lemma BlinkStarEffect(s: Star, cfg: Config, rnd: nat -> real, k: nat)
    requires IsUniformStream(rnd)
    ensures var (t, c) := BlinkStar(s, cfg, rnd, k);
            t.x == s.x && t.y == s.y && t.size == s.size &&
            (rnd(k) >= cfg.blinkChance ==> t == s && c == k + 1) &&
            (rnd(k) < cfg.blinkChance ==>
               (t.color == cfg.lightBlue || t.color == cfg.white) && 0.5 <= t.alpha < 1.0 && c == k + 3)
  {
  }

  /** updateStars keeps the length of the list and draws at least once per star. */
  lemma {:induction false} TwinkleLength(stars: seq<Star>, cfg: Config, rnd: nat -> real, k: nat)
    requires IsUniformStream(rnd)
    ensures |Twinkle(stars, cfg, rnd, k).0| == |stars|
    ensures Twinkle(stars, cfg, rnd, k).1 >= k + |stars|
  {
    if stars != [] {
      TwinkleLength(stars[..|stars| - 1], cfg, rnd, k);
    }
  }

  /** updateStars keeps the order of the list: the i-th star is the i-th blink,
      read at the cursor that the earlier stars leave. */
  lemma {:induction false} TwinkleShape(stars: seq<Star>, cfg: Config, rnd: nat -> real, k: nat)
    requires IsUniformStream(rnd)
    ensures |Twinkle(stars, cfg, rnd, k).0| == |stars|
    ensures forall i :: 0 <= i < |stars| ==>
              Twinkle(stars, cfg, rnd, k).0[i] == BlinkStar(stars[i], cfg, rnd, Twinkle(stars[..i], cfg, rnd, k).1).0
  {
    TwinkleLength(stars, cfg, rnd, k);
    if stars != [] {
      var init := stars[..|stars| - 1];
      TwinkleShape(init, cfg, rnd, k);
      var prev := Twinkle(init, cfg, rnd, k);
      var last := BlinkStar(stars[|stars| - 1], cfg, rnd, prev.1);
      assert Twinkle(stars, cfg, rnd, k).0 == prev.0 + [last.0];
      forall i | 0 <= i < |stars|
        ensures Twinkle(stars, cfg, rnd, k).0[i] == BlinkStar(stars[i], cfg, rnd, Twinkle(stars[..i], cfg, rnd, k).1).0
      {
        if i < |init| {
          assert stars[..i] == init[..i] && stars[i] == init[i];
        } else {
          assert stars[..i] == init;
        }
      }
    }
  }

  /** The per-star guarantees of updateStars over a whole list. */
  lemma TwinkleEffect(stars: seq<Star>, cfg: Config, rnd: nat -> real, k: nat)
    requires IsUniformStream(rnd)
    ensures var r := Twinkle(stars, cfg, rnd, k).0;
            |r| == |stars| &&
            forall i :: 0 <= i < |stars| ==>
              r[i].x == stars[i].x && r[i].y == stars[i].y && r[i].size == stars[i].size &&
              (rnd(Twinkle(stars[..i], cfg, rnd, k).1) >= cfg.blinkChance ==> r[i] == stars[i]) &&
              (r[i] == stars[i] ||
               ((r[i].color == cfg.lightBlue || r[i].color == cfg.white) && 0.5 <= r[i].alpha < 1.0))
  {
    TwinkleShape(stars, cfg, rnd, k);
    forall i | 0 <= i < |stars|
      ensures var c := Twinkle(stars[..i], cfg, rnd, k).1;
              var t := BlinkStar(stars[i], cfg, rnd, c).0;
              t.x == stars[i].x && t.y == stars[i].y && t.size == stars[i].size &&
              (rnd(c) >= cfg.blinkChance ==> t == stars[i]) &&
              (t == stars[i] || ((t.color == cfg.lightBlue || t.color == cfg.white) && 0.5 <= t.alpha < 1.0))
    {
      BlinkStarEffect(stars[i], cfg, rnd, Twinkle(stars[..i], cfg, rnd, k).1);
    }
  }
}
