/** A fixed number of slots that holds the end of a growing log: entry k is in slot k mod m. */
module RingBuffer {

  /** Index of the oldest entry an m-slot ring still has of n entries. */
  function Oldest(n: nat, m: nat): (k: nat)
    ensures k <= n && k >= n - m
  {
    if n <= m then 0 else n - m
  }

  ghost predicate HoldsEnd<T>(ring: seq<T>, log: seq<T>) {
    && |ring| > 0
    && forall k {:trigger log[k]} :: Oldest(|log|, |ring|) <= k < |log| ==> ring[k % |ring|] == log[k]
  }

  lemma Scale(d: int, m: int)
    requires m > 0
    ensures (d >= 1 ==> d * m >= m) && (d <= -1 ==> d * m <= -m)
  {
  }

  lemma Unique(m: int, a: int, r: int, b: int, s: int)
    requires 0 <= r < m && 0 <= s < m
    requires a * m + r == b * m + s
    ensures r == s
  {
    assert (a - b) * m == a * m - b * m;
    Scale(a - b, m);
  }

  lemma Division(x: int, m: int)
    requires m > 0
    ensures x == x / m * m + x % m
  {
  }

  lemma ModShift(x: nat, m: nat, q: nat)
    requires x < m
    ensures (q * m + x) % m == x
  {
    var y := q * m + x;
    Division(y, m);
    Unique(m, y / m, y % m, q, x);
  }

  /** Two kept entries are in different slots. */
  lemma SlotsDiffer(m: nat, j: nat, k: nat)
    requires 0 < m && j < k < j + m
    ensures j % m != k % m
  {
    Division(j, m);
    Division(k, m);
    Gap(m, j / m, k / m, k - j);
  }

  lemma Gap(m: int, a: int, b: int, d: int)
    requires 0 < d < m
    ensures b * m - a * m != d
  {
    assert (b - a) * m == b * m - a * m;
    Scale(b - a, m);
  }

  lemma Append<T>(ring: seq<T>, log: seq<T>, x: T)
    requires HoldsEnd(ring, log)
    ensures HoldsEnd(ring[|log| % |ring| := x], log + [x])
  {
    var m, n := |ring|, |log|;
    forall k | Oldest(n + 1, m) <= k < n ensures ring[n % m := x][k % m] == (log + [x])[k] {
      SlotsDiffer(m, k, n);
      assert ring[k % m] == log[k];
    }
  }

  lemma Amend<T>(ring: seq<T>, log: seq<T>, i: nat, x: T)
    requires HoldsEnd(ring, log) && Oldest(|log|, |ring|) <= i < |log|
    ensures HoldsEnd(ring[i % |ring| := x], log[i := x])
  {
    var m := |ring|;
    forall k | Oldest(|log|, m) <= k < |log| ensures ring[i % m := x][k % m] == log[i := x][k] {
      if k < i {
        SlotsDiffer(m, k, i);
      } else if i < k {
        SlotsDiffer(m, i, k);
      }
      assert ring[k % m] == log[k];
    }
  }

  /** The entry in a filled slot. */
  function EntryAt(n: nat, m: nat, j: nat): (k: nat)
    requires j < m && j < n
    ensures Oldest(n, m) <= k < n && k % m == j
  {
    if n <= m then j else
      var k := (n - m) + (m + j - (n - m) % m) % m;
      EntrySlot(n - m, m, j);
      k
  }

  lemma EntrySlot(o: nat, m: nat, j: nat)
    requires j < m
    ensures var k := o + (m + j - o % m) % m; o <= k < o + m && k % m == j
  {
    var r := o % m;
    var q := o / m;
    assert o == q * m + r;
    if j >= r {
      assert (m + j - r) % m == j - r by { ModShift(j - r, m, 1); assert 1 * m + (j - r) == m + j - r; }
      ModShift(j, m, q);
    } else {
      assert (m + j - r) % m == m + j - r by { ModShift(m + j - r, m, 0); }
      ModShift(j, m, q + 1);
      assert (q + 1) * m + j == o + (m + j - r);
    }
  }

  /** Stepping the write position. */
  lemma NextSlot(n: nat, m: nat)
    requires 0 < m
    ensures (n % m + 1) % m == (n + 1) % m
  {
    var q, r := n / m, n % m;
    assert n == q * m + r;
    if r + 1 < m {
      ModShift(r + 1, m, q);
      ModShift(r + 1, m, 0);
    } else {
      ModShift(0, m, q + 1);
      ModShift(0, m, 1);
      assert (q + 1) * m == n + 1;
    }
  }
}
