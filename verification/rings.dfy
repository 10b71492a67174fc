/** Positions on a ring of n slots, and the arithmetic of going around it. */
module Rings {
  /** Position i steps after start on a ring of n. */
  function At(start: nat, i: nat, n: nat): (j: nat)
    requires n > 0
    ensures j < n
  {
    (start + i) % n
  }

  lemma RingIsCovered(start: nat, n: nat, j: nat)
    requires j < n
    ensures exists i: nat :: i < n && At(start, i, n) == j
  {
    var i := (j + n - start % n) % n;
    assert At(start, i, n) == j by {
      RingStep(start, i, n, j);
    }
  }

  lemma RingStep(start: nat, i: nat, n: nat, j: nat)
    requires j < n && i == (j + n - start % n) % n
    ensures (start + i) % n == j
  {
    var s, q := start % n, start / n;
    assert start == q * n + s;
    if j >= s {
      assert i == j - s by {
        ModSmall(j - s, n, 1);
      }
      ModSmall(j, n, q);
    } else {
      assert i == j + n - s by {
        ModSmall(j + n - s, n, 0);
      }
      assert start + i == (q + 1) * n + j;
      ModSmall(j, n, q + 1);
    }
  }

  lemma ModSmall(r: nat, n: nat, q: nat)
    requires r < n
    ensures (r + q * n) % n == r && (q * n + r) % n == r
  {
    ModUnique(r + q * n, n, q, r);
  }

  lemma ModUnique(x: int, n: nat, q: int, r: nat)
    requires r < n && x == q * n + r
    ensures x % n == r
  {
    var d := x / n - q;
    assert x == (x / n) * n + x % n;
    assert d * n == r - x % n by {
      assert (x / n - q) * n == (x / n) * n - q * n;
    }
  }

  lemma RingIsInjective(start: nat, n: nat, a: nat, b: nat)
    requires a < n && b < n && a != b
    ensures At(start, a, n) != At(start, b, n)
  {
    var x, y := start + a, start + b;
    if x % n == y % n {
      assert x - y == (x / n - y / n) * n by {
        assert x == (x / n) * n + x % n && y == (y / n) * n + y % n;
        assert (x / n - y / n) * n == (x / n) * n - (y / n) * n;
      }
      NoSmallMultiple(x - y, x / n - y / n, n);
    }
  }

  lemma NoSmallMultiple(d: int, q: int, n: nat)
    requires d == q * n && d < n && -d < n
    ensures d == 0
  {
  }

  lemma StartWraps(cursor: nat, i: nat, n: nat)
    requires n > 0
    ensures (cursor % n + i) % n == At(cursor, i, n)
  {
    var s, q := cursor % n, cursor / n;
    assert cursor == q * n + s;
    var x, y := s + i, cursor + i;
    assert y == (q + x / n) * n + x % n by {
      assert x == (x / n) * n + x % n;
      assert (q + x / n) * n == q * n + (x / n) * n;
    }
    ModUnique(y, n, q + x / n, x % n);
  }

  lemma NextSlot(k: nat, n: nat)
    requires n > 0
    ensures (k % n + 1) % n == (k + 1) % n
  {
    StartWraps(k, 1, n);
  }

  /** k and m are less than a round apart. */
  lemma SlotsDiffer(k: nat, m: nat, n: nat)
    requires n > 0 && m - n < k < m
    ensures k % n != m % n
  {
    RingIsInjective(k, n, 0, m - k);
  }
}
