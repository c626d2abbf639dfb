/** Facts about real multiplication and division that the game's geometry needs.
    `Same`, `Sq` and `Scale` are the identity, `x * x` and `u * w` under names
    of their own: they only keep the solver from rewriting nonlinear products,
    and mean exactly the arithmetic they wrap. */
module RealArith {

  function Same(x: real): real { x }

  /** x squared. */
  function Sq(x: real): real { x * Same(x) }

  /** u times w, for a draw u in [0, 1) scaled to an interval of width w. */
  function Scale(u: real, w: real): real { u * w }

  /** `d` is what Math.hypot(dx, dy) returns: the non-negative root of dx² + dy². */
  ghost predicate IsHypot(dx: real, dy: real, d: real) {
    d >= 0.0 && Sq(d) == Sq(dx) + Sq(dy)
  }

  /** `hypot` behaves as Math.hypot on every pair of legs. The trigger keeps
      the solver from expanding the contract at every call of `hypot`; a proof
      that needs it for one pair asserts `IsHypot` of that pair. */
  ghost predicate IsHypotFn(hypot: (real, real) -> real) {
    forall dx: real, dy: real {:trigger IsHypot(dx, dy, hypot(dx, dy))} :: IsHypot(dx, dy, hypot(dx, dy))
  }

  lemma SqNonneg(x: real)
    ensures Sq(x) >= 0.0
  {
  }

  lemma SqPos(x: real)
    requires x != 0.0
    ensures Sq(x) > 0.0
  {
  }

  lemma SumSqZero(x: real, y: real)
    requires Sq(x) + Sq(y) == 0.0
    ensures x == 0.0 && y == 0.0
  {
    SqNonneg(x);
    SqNonneg(y);
    if x != 0.0 { SqPos(x); }
    if y != 0.0 { SqPos(y); }
  }

  /** The hypotenuse is zero exactly when both legs are. */
  lemma HypotZero(dx: real, dy: real, d: real)
    requires IsHypot(dx, dy, d)
    ensures d == 0.0 <==> dx == 0.0 && dy == 0.0
  {
    if d == 0.0 {
      assert Sq(d) == 0.0;
      SumSqZero(dx, dy);
    } else {
      SqPos(d);
    }
  }

  /** What Math.hypot's contract gives for one pair of legs. */
  lemma HypotFnZero(hypot: (real, real) -> real, dx: real, dy: real)
    requires IsHypotFn(hypot)
    ensures hypot(dx, dy) >= 0.0
    ensures hypot(dx, dy) == 0.0 <==> dx == 0.0 && dy == 0.0
  {
    assert IsHypot(dx, dy, hypot(dx, dy));
    HypotZero(dx, dy, hypot(dx, dy));
  }

  lemma MulLeLeft(c: real, x: real, y: real)
    requires c >= 0.0 && x <= y
    ensures c * x <= c * y
  {
  }

  lemma MulLtRight(x: real, y: real, c: real)
    requires c > 0.0 && x < y
    ensures x * c < y * c
  {
  }

  lemma SqLt(a: real, b: real)
    requires 0.0 <= a < b
    ensures Sq(a) < Sq(b)
  {
    MulLeLeft(a, Same(a), b);
    assert Sq(a) <= a * b;
    MulLtRight(a, b, Same(b));
    assert a * Same(b) < Sq(b);
    assert a * Same(b) == a * b;
  }

  /** On non-negative reals, squaring preserves and reflects strict order. */
  lemma SqMono(a: real, b: real)
    requires 0.0 <= a && 0.0 <= b
    ensures a < b <==> Sq(a) < Sq(b)
  {
    if a < b { SqLt(a, b); } else if b < a { SqLt(b, a); }
  }

  /** A draw in [0, 1) scaled to a positive width lands in [0, width). */
  lemma ScaleBelow(u: real, w: real)
    requires 0.0 <= u < 1.0 && w > 0.0
    ensures 0.0 <= Scale(u, w) < w
  {
    MulLtRight(u, 1.0, w);
    MulLeLeft(w, 0.0, u);
    assert w * u == u * w;
  }

  lemma DivMul(a: real, b: real)
    requires b != 0.0
    ensures a / b * b == a
  {
  }

  lemma DivNonneg(a: real, b: real)
    requires b > 0.0 && 0.0 <= a
    ensures 0.0 <= a / b
  {
    var q := a / b;
    DivMul(a, b);
    if q < 0.0 { MulLtRight(q, 0.0, b); }
  }

  lemma DivLtOne(a: real, b: real)
    requires b > 0.0 && a < b
    ensures a / b < 1.0
  {
    var q := a / b;
    DivMul(a, b);
    if 1.0 <= q { MulLeLeft(b, 1.0, q); }
  }

  lemma DivAtMostOne(a: real, b: real)
    requires b > 0.0 && a <= b
    ensures a / b <= 1.0
  {
    var q := a / b;
    DivMul(a, b);
    if q > 1.0 { MulLtRight(1.0, q, b); }
  }

  lemma DivAboveOne(a: real, b: real)
    requires b > 0.0 && a > b
    ensures a / b > 1.0
  {
    var q := a / b;
    DivMul(a, b);
    if q <= 1.0 { MulLeLeft(b, q, 1.0); assert q * b == b * q; }
  }

  lemma SqMul(a: real, b: real)
    ensures Sq(a * b) == Sq(a) * Sq(b)
  {
  }

  lemma DivSwap(a: real, d: real, s: real)
    requires d != 0.0
    ensures a / d * s == a * (s / d)
  {
  }

  lemma MulDiv(d: real, s: real)
    requires d != 0.0
    ensures d * (s / d) == s
  {
  }

  lemma SumMul(x: real, y: real, z: real, w: real)
    requires w == x + y
    ensures x * z + y * z == w * z
  {
  }

  /** A product with a positive factor has the sign of the other factor. */
  lemma MulSign(a: real, s: real)
    requires s > 0.0
    ensures a * s > 0.0 <==> a > 0.0
    ensures a * s < 0.0 <==> a < 0.0
  {
    if a > 0.0 { MulLtRight(0.0, a, s); }
    if a < 0.0 { MulLtRight(a, 0.0, s); }
  }

  /** A quotient by a positive divisor has the sign of the dividend. */
  lemma DivSign(a: real, d: real)
    requires d > 0.0
    ensures a / d > 0.0 <==> a > 0.0
    ensures a / d < 0.0 <==> a < 0.0
  {
    DivMul(a, d);
    MulSign(a / d, d);
  }
}
