/** Powers of a real and the small field facts the closed-form formulas need. */
module RealPowers {
  /** x ** 2 and x ** 3, the powers the closed forms divide by. */
  function Square(x: real): real { x * x }
  function Cube(x: real): real { x * x * x }

  /** The powers of a non-zero span are non-zero, and the cube is the square times the span. */
  lemma NonZeroPowers(x: real)
    requires x != 0.0
    ensures Square(x) != 0.0 && Cube(x) != 0.0 && Cube(x) == Square(x) * x
  {
    var s := MulNonZero(x, x);
    var c := MulNonZero(s, x);
  }

  lemma MulNonZero(x: real, y: real) returns (p: real)
    requires x != 0.0 && y != 0.0
    ensures p == x * y && p != 0.0
  {
    p := x * y;
  }

  lemma DivMul(x: real, d: real)
    requires d != 0.0
    ensures x / d * d == x
  {
  }

  lemma Cancel(u: real, v: real, d: real)
    requires d != 0.0 && u * d == v * d
    ensures u == v
  {
    assert (u - v) * d == 0.0;
  }

  /** x / l^3 * l == x / l^2 for a non-zero l. */
  lemma DivCubeTimes(x: real, l: real)
    requires l != 0.0
    ensures Square(l) != 0.0 && Cube(l) != 0.0
    ensures x / Cube(l) * l == x / Square(l)
  {
    NonZeroPowers(l);
    var q := x / Cube(l);
    DivMul(x, Cube(l));
    DivMul(x, Square(l));
    assert q * l * Square(l) == q * Cube(l);
    Cancel(q * l, x / Square(l), Square(l));
  }

  /** x / l^2 * l == x / l for a non-zero l. */
  lemma DivSquareTimes(x: real, l: real)
    requires l != 0.0
    ensures Square(l) != 0.0
    ensures x / Square(l) * l == x / l
  {
    NonZeroPowers(l);
    var q := x / Square(l);
    DivMul(x, Square(l));
    DivMul(x, l);
    assert q * l * l == q * Square(l);
    Cancel(q * l, x / l, l);
  }

  /** Three quotients over one non-zero denominator add as their numerators do. */
  lemma SumOver(x: real, y: real, z: real, d: real)
    requires d != 0.0
    ensures x / d + y / d + z / d == (x + y + z) / d
  {
    DivMul(x, d);
    DivMul(y, d);
    DivMul(z, d);
    DivMul(x + y + z, d);
    Cancel(x / d + y / d + z / d, (x + y + z) / d, d);
  }
}
