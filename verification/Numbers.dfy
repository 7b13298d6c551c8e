/** Arithmetic shared by the models: real minimum, ceiling, and linear facts about products. */
module Numbers {

  function Min(x: real, y: real): real {
    if x <= y then x else y
  }

  /** The `math.ceil` of Lua and Python. */
  function Ceil(x: real): (n: int)
    ensures (n - 1) as real < x <= n as real
  {
    -((-x).Floor)
  }

  lemma SubsetSize<T>(a: set<T>, b: set<T>)
    requires a <= b
    ensures |a| <= |b|
  {
    assert b == a + (b - a);
  }

  lemma Distributes(a: real, x: real, y: real)
    ensures a * (x + y) == a * x + a * y
    ensures a * (x - y) == a * x - a * y
  {
  }

  lemma NonNegativeProduct(a: real, x: real)
    requires 0.0 <= a && 0.0 <= x
    ensures 0.0 <= a * x
  {
  }

  lemma QuotientOfProduct(a: real, b: real)
    requires b != 0.0
    ensures a * b / b == a
  {
  }

  lemma QuotientTimes(a: real, b: real)
    requires b != 0.0
    ensures b * (a / b) == a
  {
  }

  lemma StrictlyGrows(a: real, x: real, y: real)
    requires 0.0 < a && x < y
    ensures a * x < a * y
  {
    Distributes(a, y, x);
    assert 0.0 < a * (y - x);
  }

  lemma ProductGrows(a: real, x: real, y: real)
    requires 0.0 <= a && x <= y
    ensures a * x <= a * y
  {
    Distributes(a, y, x);
    assert 0.0 <= a * (y - x);
  }
}
