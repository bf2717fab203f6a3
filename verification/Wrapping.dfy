/** Counters that wrap around, and the places of a ring that they stand for. */
module Wrapping {

  lemma Residue(q: nat, r: nat, w: nat)
    requires r < w
    ensures (q * w + r) % w == r
  {
    var x := q * w + r;
    var d: int := q - x / w;
    assert d * w == x % w - r;
    Multiple(d, w);
  }

  lemma Multiple(d: int, w: int)
    requires w > 0
    ensures d >= 1 ==> d * w >= w
    ensures d <= -1 ==> d * w <= 0 - w
  {
  }

  lemma Associative(a: int, b: int, c: int)
    ensures (a * b) * c == a * (b * c)
  {
  }

  lemma Small(i: nat, w: nat)
    requires i < w
    ensures i % w == i
  {
    Residue(0, i, w);
  }

  /** Whole turns of a ring of `n` places do not matter. */
  lemma SamePlace(x: nat, y: nat, k: nat, n: nat)
    requires n > 0 && x == k * n + y
    ensures x % n == y % n
  {
    assert x == (k + y / n) * n + y % n;
    Residue(k + y / n, y % n, n);
  }

  /** If the ring divides the word, reducing a counter to a word first does not move its place. */
  lemma PlaceOfCounter(total: nat, w: nat, m: nat, n: nat)
    requires n > 0 && w == m * n && w > 0
    ensures (total % w) % n == total % n
  {
    var q := total / w;
    Associative(q, m, n);
    assert total == q * w + total % w;
    SamePlace(total, total % w, q * m, n);
  }

  /** Adding less than a word to a counter wraps it around at most once. */
  lemma AddWraps(total: nat, d: nat, w: nat)
    requires 0 < w && d < w
    ensures (total + d) % w == if total % w + d < w then total % w + d else total % w + d - w
  {
    var q, r := total / w, total % w;
    assert total == q * w + r;
    if r + d < w {
      Residue(q, r + d, w);
    } else {
      assert total + d == (q + 1) * w + (r + d - w);
      Residue(q + 1, r + d - w, w);
    }
  }

  /** Counters less than a word apart are equal as words only if they are equal. */
  lemma CountersMeet(a: nat, b: nat, w: nat)
    requires a <= b < a + w
    ensures a % w == b % w <==> a == b
  {
    AddWraps(a, b - a, w);
  }
}
