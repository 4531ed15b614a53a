/** Remainders, which spread hashes over the buckets of a table. */
module Division {

  /* Numbers have the same remainder if they differ by a multiple of the divisor. */
  lemma SameRemainder(x: nat, y: nat, k: int, n: nat)
    requires n > 0 && x - y == k * n
    ensures x % n == y % n
  {
    var a, b := x / n, y / n;
    Distribute(a, b, k, n);
    NoMultiple(a - b - k, n, y % n - x % n);
  }

  lemma Distribute(a: int, b: int, k: int, n: int)
    ensures (a - b - k) * n == a * n - b * n - k * n
  {
  }

  lemma NoMultiple(d: int, n: int, v: int)
    requires d * n == v && -n < v < n
    ensures v == 0
  {
    assert (-d) * n == -v;
    if d > 0 {
      AtLeastOnce(d, n);
    } else if d < 0 {
      AtLeastOnce(-d, n);
    }
  }

  lemma AtLeastOnce(d: nat, n: nat)
    requires d > 0
    ensures d * n >= n
  {
  }
}
