/** Integer vectors (Unity's Vector3Int) and the C# integer operators the
    chunk store relies on.  Dafny's `/` and `%` are Euclidean; C# truncates
    toward zero, so the C# operators are written out here. */
module Vectors {

  datatype Coord = Coord(x: int, y: int, z: int)

  function Plus(a: Coord, b: Coord): Coord {
    Coord(a.x + b.x, a.y + b.y, a.z + b.z)
  }

  function Minus(a: Coord, b: Coord): Coord {
    Coord(a.x - b.x, a.y - b.y, a.z - b.z)
  }

  function Times(k: int, a: Coord): Coord {
    Coord(k * a.x, k * a.y, k * a.z)
  }

  /** Vector3Int.sqrMagnitude */
  function SqrMagnitude(a: Coord): int {
    a.x * a.x + a.y * a.y + a.z * a.z
  }

  function Abs(a: int): nat {
    if a < 0 then -a else a
  }

  /** C# `a / d` on int: the quotient truncated toward zero, so that d * q
      lies between 0 and a, less than d away from a. */
  function TruncDiv(a: int, d: int): (q: int)
    requires d > 0
    ensures a >= 0 ==> 0 <= d * q <= a < d * q + d
    ensures a < 0 ==> d * q - d < a <= d * q <= 0
  {
    if a >= 0 then
      EuclidBounds(a, d);
      a / d
    else
      EuclidBounds(-a, d);
      -((-a) / d)
  }

  /** For a non-negative dividend, d times the Euclidean quotient lies
      between 0 and a, less than d below a. */
  lemma EuclidBounds(a: int, d: int)
    requires a >= 0 && d > 0
    ensures 0 <= d * (a / d) <= a < d * (a / d) + d
  {
    var m := a / d;
    assert d * m + a % d == a;
    MulNonNegative(d, m);
  }

  lemma MulNonNegative(a: int, b: int)
    requires 0 <= a && 0 <= b
    ensures 0 <= a * b
  {
  }

  /** C# `a % d` on int: what is left of the dividend after the truncated
      quotient, so it takes the sign of the dividend. */
  function TruncRem(a: int, d: int): (r: int)
    requires d > 0
    ensures r == a - d * TruncDiv(a, d)
  {
    if a >= 0 then a % d else -((-a) % d)
  }

  /** The identity C# guarantees for its two operators, and the range of the
      remainder: it lies in (-d, d) and is never of the opposite sign to a. */
  lemma TruncDivRem(a: int, d: int)
    requires d > 0
    ensures d * TruncDiv(a, d) + TruncRem(a, d) == a
    ensures -d < TruncRem(a, d) < d
    ensures a >= 0 ==> TruncRem(a, d) >= 0
    ensures a < 0 ==> TruncRem(a, d) <= 0
  {
    if a < 0 {
      var q, r := (-a) / d, (-a) % d;
      assert d * q + r == -a;
      assert d * (-q) + (-r) == a;
    }
  }

  /** A square at most n * n (n >= 0) bounds the base by n on either side. */
  lemma SquareBelow(a: int, n: int)
    requires n >= 0 && a * a <= n * n
    ensures -n <= a <= n
  {
  }
}
