/** The few JavaScript number operations the components use, on exact reals:
    `Math.floor`, `Math.round`, and the remainder operator `%`, which
    truncates toward zero. */
module JsNumber {

  /** Truncation toward zero. */
  function Trunc(x: real): (r: int)
    ensures x >= 0.0 ==> r == x.Floor
    ensures x < 0.0 ==> r == -((-x).Floor)
  {
    if x >= 0.0 then x.Floor else -((-x).Floor)
  }

  /** `x % m` for a positive divisor: for a non-negative `x` the
      remainder lies in [0, m). */
  function JsMod(x: real, m: real): (r: real)
    requires m > 0.0
    ensures x >= 0.0 ==> 0.0 <= r < m
  {
    RemainderBounds(x, m);
    x - m * Trunc(x / m) as real
  }

  lemma RemainderBounds(x: real, m: real)
    requires m > 0.0
    ensures x >= 0.0 ==> 0.0 <= x - m * Trunc(x / m) as real < m
  {
    if x >= 0.0 {
      var y := x / m;
      var t := y.Floor;
      assert y * m == x;
      assert t as real <= y < t as real + 1.0;
      Scale(t as real, y, m);
      assert Trunc(x / m) == t;
      var u := t as real + 1.0;
      assert y < u;
      Scale(y, u, m);
      assert y * m < u * m;
      assert x < u * m;
      assert u * m == m * t as real + m;
    }
  }

  /** Multiplying by a positive number keeps the order. */
  lemma Scale(u: real, v: real, m: real)
    requires m > 0.0
    ensures u < v ==> u * m < v * m
    ensures u <= v ==> u * m <= v * m
  {
  }

  /** `Math.round`: halves round up, toward positive infinity. */
  function JsRound(x: real): (r: int)
    ensures r as real - 0.5 <= x < r as real + 0.5
  {
    (x + 0.5).Floor
  }
}
