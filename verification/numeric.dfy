/** Integer helpers for the partition arithmetic of create_partitions:
    Python's min, and Python's ceil(a / b) computed exactly on integers. */
module Numeric {

  function Min(a: int, b: int): (m: int)
    ensures m <= a && m <= b
    ensures m == a || m == b
  {
    if a <= b then a else b
  }

  /** Ceiling of a / b for a positive divisor: the least q with a <= q * b. */
  function CeilDiv(a: int, b: int): (q: int)
    requires b > 0
    ensures (q - 1) * b < a <= q * b
  {
    var q := (a + b - 1) / b;
    assert q * b <= a + b - 1 < q * b + b;
    q
  }

  /** Python's ceil(a / b) for any non-zero divisor, taken exactly (the
      source divides as floats, which agrees for all realistic sizes). */
  function PyCeil(a: int, b: int): (q: int)
    requires b != 0
    ensures b > 0 ==> (q - 1) * b < a <= q * b
    ensures b < 0 ==> q * b <= a < (q - 1) * b
  {
    if b > 0 then CeilDiv(a, b) else CeilDiv(-a, -b)
  }

  /** The ceiling is determined by its defining inequalities. */
  lemma CeilDivUnique(a: int, b: int, q: int)
    requires b > 0
    requires (q - 1) * b < a <= q * b
    ensures CeilDiv(a, b) == q
  {
  }

  /** Taking one full block off a count of more than one block removes
      exactly one from its ceiling. */
  lemma CeilDivStep(n: int, s: int)
    requires s > 0 && n > s
    ensures CeilDiv(n, s) == 1 + CeilDiv(n - s, s)
  {
    var q := CeilDiv(n - s, s);
    assert (q - 1) * s < n - s <= q * s;
    assert q * s == (q - 1) * s + s;
    assert (q + 1) * s == q * s + s;
    CeilDivUnique(n, s, q + 1);
  }

  /** A non-empty count of at most one block has ceiling one. */
  lemma CeilDivOne(n: int, s: int)
    requires s > 0 && 0 < n <= s
    ensures CeilDiv(n, s) == 1
  {
    CeilDivUnique(n, s, 1);
  }

  /** Chunking g items into blocks of ceil(g / p) items gives at least
      one and at most p blocks. */
  lemma ClampedBlockCount(g: int, p: int)
    requires 1 <= p <= g
    ensures CeilDiv(g, p) >= 1
    ensures 1 <= CeilDiv(g, CeilDiv(g, p)) <= p
  {
    var size := CeilDiv(g, p);
    assert g <= size * p;
    MulMagnitude(size, p);
    assert size >= 1;
    var k := CeilDiv(g, size);
    assert (k - 1) * size < g <= k * size;
    assert (k - 1) * size - p * size == (k - 1 - p) * size;
    MulMagnitude(k - 1 - p, size);
    MulMagnitude(k, size);
  }

  /** A non-zero multiple of size is at least size in magnitude. */
  lemma MulMagnitude(d: int, size: int)
    requires size >= 1
    ensures d >= 1 ==> d * size >= size
    ensures d <= -1 ==> d * size <= -size
  {
  }

  lemma MulDivCancel(k: nat, size: nat)
    requires size >= 1
    ensures (k * size) / size == k
  {
    var q := (k * size) / size;
    var r := (k * size) % size;
    assert k * size == q * size + r;
    assert (k - q) * size == r;
    MulMagnitude(k - q, size);
  }

  /** Slots k * size + j with j < size belong to one block only. */
  lemma SameSlot(k1: nat, j1: nat, k2: nat, j2: nat, size: nat)
    requires j1 < size && j2 < size
    requires k1 * size + j1 == k2 * size + j2
    ensures k1 == k2
  {
    assert (k1 - k2) * size == j2 - j1;
    MulMagnitude(k1 - k2, size);
  }

  /** Python's ceil(a / b) for a negative divisor and a non-negative
      dividend: zero while a < -b, negative from then on. */
  lemma PyCeilNegative(a: int, b: int)
    requires b < 0 && a >= 0
    ensures PyCeil(a, b) == 0 <==> a < -b
    ensures PyCeil(a, b) < 0 <==> a >= -b
  {
  }
}
