/** Positions of a ring: slots repeat every lap, and within one lap they differ. */
module Laps {
  import opened Domain

  lemma MulBound(k: int, n: nat)
    ensures k >= 1 ==> k * n >= n
    ensures k <= -1 ==> k * n <= -(n as int)
  {
  }

  /** Quotient and remainder are unique. */
  lemma ModOf(q: int, n: nat, r: nat)
    requires r < n
    ensures (q * n + r) % n == r
  {
    var x := q * n + r;
    assert x == (x / n) * n + x % n;
    assert (q - x / n) * n == x % n - r;
    MulBound(q - x / n, n);
  }

  lemma NextLap(a: int, n: nat)
    requires n > 0
    ensures (a + n) % n == a % n
  {
    assert a + n == (a / n + 1) * n + a % n;
    ModOf(a / n + 1, n, a % n);
  }

  lemma SameSlot(a: int, b: int, n: nat)
    requires n > 0 && a % n == b % n && a <= b < a + n
    ensures a == b
  {
    assert a == (a / n) * n + a % n && b == (b / n) * n + b % n;
    assert b - a == (b / n - a / n) * n;
    MulBound(b / n - a / n, n);
  }

  /** Every slot of the ring is met once in a lap that starts at `from`. */
  lemma SlotInLap(from: int, a: int, n: nat) returns (t: int)
    requires n > 0
    ensures from <= t < from + n && t % n == a % n
  {
    var d := (a - from) % n;
    t := from + d;
    assert a - from == ((a - from) / n) * n + d;
    assert a == ((a - from) / n) * n + t;
    assert a == (((a - from) / n) + t / n) * n + t % n by {
      assert t == (t / n) * n + t % n;
    }
    ModOf((a - from) / n + t / n, n, t % n);
  }

  // ----- 64-bit positions

  /** A power of two that an index can hold divides the index range. */
  ghost predicate Capacity(n: nat) {
    0 < n <= 0x8000_0000_0000_0000 && exists laps: nat :: laps * n == TWO_64
  }

  /** The masked slot of a wrapped index is the slot of the count. */
  lemma SlotOf(count: nat, n: nat)
    requires Capacity(n)
    ensures Wrap64(count) % n == count % n
  {
    var laps: nat :| laps * n == TWO_64;
    var q, r := count / TWO_64, count % TWO_64;
    assert count == q * TWO_64 + r;
    assert r == (r / n) * n + r % n;
    assert count == (q * laps + r / n) * n + r % n by {
      assert q * TWO_64 == (q * laps) * n;
    }
    ModOf(q * laps + r / n, n, r % n);
  }
}
