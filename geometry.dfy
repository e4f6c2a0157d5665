/** Distance between two bases: the Euclidean norm of the coordinate
    difference, truncated to an integer. The source takes the square root
    in single-precision floating point; this model uses the exact integer
    floor square root instead. */
module Geometry {
  import opened Models

  function Abs(x: int): (r: nat)
    ensures r == x || r == -x
  {
    if x < 0 then -x else x
  }

  /** The integer square root of `n`, rounded down. */
  function FloorSqrt(n: nat): (r: nat)
    ensures r * r <= n < (r + 1) * (r + 1)
    decreases n
  {
    if n == 0 then 0
    else
      var s := FloorSqrt(n - 1);
      if (s + 1) * (s + 1) <= n then
        assert n == (s + 1) * (s + 1);
        assert (s + 2) * (s + 2) == n + 2 * s + 3;
        s + 1
      else s
  }

  /** Squares of naturals are monotone. */
  lemma SquareMonotone(a: nat, b: nat)
    requires a <= b
    ensures a * a <= b * b
  {
    assert a * a <= a * b by { MultiplyLe(a, a, b); }
    assert a * b <= b * b by { MultiplyLe(b, a, b); }
  }

  lemma MultiplyLe(k: nat, a: nat, b: nat)
    requires a <= b
    ensures k * a <= k * b
  {
    assert k * b == k * a + k * (b - a);
  }

  /** The floor square root is the only natural whose square brackets `n`. */
  lemma FloorSqrtUnique(n: nat, r: nat)
    requires r * r <= n < (r + 1) * (r + 1)
    ensures FloorSqrt(n) == r
  {
    var s := FloorSqrt(n);
    if s < r {
      SquareMonotone(s + 1, r);
    } else if r < s {
      SquareMonotone(r + 1, s);
    }
  }

  /** Sum of the squared per-axis differences between two positions. */
  function SquaredDistance(x1: int, y1: int, z1: int, x2: int, y2: int, z2: int): (r: nat)
  {
    var dx := Abs(x1 - x2);
    var dy := Abs(y1 - y2);
    var dz := Abs(z1 - z2);
    dx * dx + dy * dy + dz * dz
  }

  /** `euclid`: the truncated Euclidean distance between two points. */
  function Euclid(x1: int, y1: int, z1: int, x2: int, y2: int, z2: int): (d: nat)
    ensures d * d <= SquaredDistance(x1, y1, z1, x2, y2, z2) < (d + 1) * (d + 1)
  {
    FloorSqrt(SquaredDistance(x1, y1, z1, x2, y2, z2))
  }

  /** `get_base_distance`: the distance between the positions of two bases. */
  function BaseDistance(a: Base, b: Base): (d: nat)
    ensures var s := SquaredDistance(a.position.x, a.position.y, a.position.z,
                                     b.position.x, b.position.y, b.position.z);
            d * d <= s < (d + 1) * (d + 1)
  {
    Euclid(a.position.x, a.position.y, a.position.z, b.position.x, b.position.y, b.position.z)
  }

  /** Distance does not depend on which base is the source. */
  lemma BaseDistanceSymmetric(a: Base, b: Base)
    ensures BaseDistance(a, b) == BaseDistance(b, a)
  {
    assert Abs(a.position.x - b.position.x) == Abs(b.position.x - a.position.x);
    assert Abs(a.position.y - b.position.y) == Abs(b.position.y - a.position.y);
    assert Abs(a.position.z - b.position.z) == Abs(b.position.z - a.position.z);
  }

  /** Two bases at the same position are at distance zero. */
  lemma BaseDistanceSamePosition(a: Base, b: Base)
    requires a.position == b.position
    ensures BaseDistance(a, b) == 0
  {
    FloorSqrtUnique(0, 0);
  }

  /** When the squared distance is a perfect square `k * k`, the distance is exactly `k`. */
  lemma BaseDistanceExact(a: Base, b: Base, k: nat)
    requires SquaredDistance(a.position.x, a.position.y, a.position.z,
                             b.position.x, b.position.y, b.position.z) == k * k
    ensures BaseDistance(a, b) == k
  {
    assert (k + 1) * (k + 1) == k * k + 2 * k + 1;
    FloorSqrtUnique(k * k, k);
  }
}
