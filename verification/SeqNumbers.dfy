/** Wire sequence numbers: unsigned words whose all-ones value is a sentinel, ordered modulo 2^bits - 1. */
module SeqNumbers {

  function Pow2(bits: nat): (r: nat)
    ensures r >= 1
  {
    if bits == 0 then 1 else 2 * Pow2(bits - 1)
  }

  /** The sentinel of a `bits`-wide domain; also the modulus of its ordering. */
  function Sentinel(bits: nat): nat {
    Pow2(bits) - 1
  }

  predicate Valid(m: nat, value: int) {
    0 <= value < m
  }

  function Next(m: nat, value: nat): nat
    requires Valid(m, value)
  {
    (value + 1) % m
  }

  function Distance(m: nat, newer: int, older: int): nat
    requires m > 0
  {
    (newer - older) % m
  }

  predicate IsNewer(m: nat, candidate: int, baseline: int)
    requires m > 0
  {
    0 < Distance(m, candidate, baseline) <= m / 2
  }

  predicate IsNewerOrEqual(m: nat, candidate: int, baseline: int)
    requires m > 0
  {
    candidate == baseline || IsNewer(m, candidate, baseline)
  }

  /** The comparison of the native reader, which avoids signed subtraction. */
  predicate NativeNewer(m: nat, a: nat, b: nat)
    requires Valid(m, a) && Valid(m, b)
  {
    var distance := if a >= b then a - b else m - b + a;
    distance != 0 && distance <= m / 2
  }

  /** Every domain of at least two bits has an odd modulus of at least three. */
  lemma {:induction false} SentinelIsOdd(bits: nat)
    requires bits >= 2
    ensures Sentinel(bits) % 2 == 1 && Sentinel(bits) >= 3
  {
    if bits > 2 {
      SentinelIsOdd(bits - 1);
    } else {
      assert Pow2(2) == 2 * Pow2(1) == 4 * Pow2(0);
    }
  }

  lemma Wrap(m: nat, x: int)
    requires 0 - m < x < m
    ensures x % m == if x >= 0 then x else x + m
  {
    if x < 0 {
      assert x + m == (x + m) % m;
      assert (x + m) % m == x % m by { AddModulus(m, x); }
    }
  }

  lemma AddModulus(m: nat, x: int)
    requires m > 0
    ensures (x + m) % m == x % m
  {
    var q, r := x / m, x % m;
    assert x + m == (q + 1) * m + r;
    SameResidue(m, x + m, q + 1, r);
  }

  lemma SameResidue(m: nat, x: int, q: int, r: nat)
    requires 0 <= r < m && x == q * m + r
    ensures x % m == r && x / m == q
  {
    var p, k := x / m, x / m - q;
    assert x == p * m + x % m;
    assert k * m == p * m - q * m;
    OnlyZero(k, m);
  }

  /** Of the multiples of m only zero lies within m of zero. */
  lemma OnlyZero(k: int, m: nat)
    requires 0 - m < k * m < m
    ensures k == 0
  {
    if k > 0 { TimesGrows(1, k, m); }
    if k < 0 { TimesGrows(k, -1, m); }
  }

  lemma TimesGrows(a: int, b: int, m: nat)
    requires a <= b
    ensures a * m <= b * m
  {
    assert b * m == a * m + (b - a) * m;
  }

  /** The native comparison is the published one on every pair of valid words. */
  lemma NativeNewerIsNewer(m: nat, a: nat, b: nat)
    requires Valid(m, a) && Valid(m, b)
    ensures NativeNewer(m, a, b) <==> IsNewer(m, a, b)
  {
    Wrap(m, a - b);
  }

  /** With an odd modulus two different words are always ordered, and only one way round. */
  lemma Trichotomy(m: nat, a: nat, b: nat)
    requires m % 2 == 1 && Valid(m, a) && Valid(m, b)
    ensures a != b ==> (IsNewer(m, a, b) <==> !IsNewer(m, b, a))
    ensures a == b ==> !IsNewer(m, a, b)
  {
    Wrap(m, a - b);
    Wrap(m, b - a);
  }

  /** `Next` never produces the sentinel and always advances. */
  lemma NextAdvances(m: nat, a: nat)
    requires m >= 3 && Valid(m, a)
    ensures Valid(m, Next(m, a)) && IsNewer(m, Next(m, a), a)
  {
    if a + 1 < m {
      Wrap(m, a + 1);
      Wrap(m, 1);
    } else {
      SameResidue(m, a + 1, 1, 0);
      Wrap(m, 0 - a);
    }
  }

  /**
   * Unbounded publication positions p and q, of which the wire carries only the residues, are compared
   * correctly whenever they lie within half the range of each other.
   */
  lemma WindowOrder(m: nat, p: int, q: int)
    requires m % 2 == 1 && m >= 3 && 0 - m / 2 <= p - q <= m / 2
    ensures IsNewer(m, p % m, q % m) <==> p > q
    ensures p % m == q % m <==> p == q
  {
    var half := m / 2;
    assert 2 * half + 1 == m;
    ResidueDistance(m, p, q);
    Wrap(m, p - q);
    var d := Distance(m, p % m, q % m);
    assert d == (p - q) % m;
    assert d == if p >= q then p - q else p - q + m;
    if p % m == q % m {
      Wrap(m, 0);
    }
  }

  lemma ResidueDistance(m: nat, p: int, q: int)
    requires m > 0
    ensures (p % m - q % m) % m == (p - q) % m
  {
    var k := p / m - q / m;
    var d := (p - q) % m;
    assert p - q == (p / m) * m + p % m - (q / m) * m - q % m;
    assert (p / m) * m - (q / m) * m == k * m;
    assert p - q == k * m + (p % m - q % m);
    var e := (p - q) / m;
    assert p - q == e * m + d;
    assert (e - k) * m == e * m - k * m;
    SameResidue(m, p % m - q % m, e - k, d);
  }

  /** The order composes exactly while the two distances stay within half the range together. */
  lemma TransitiveExactly(m: nat, a: nat, b: nat, c: nat)
    requires m % 2 == 1 && m >= 3 && Valid(m, a) && Valid(m, b) && Valid(m, c)
    requires IsNewer(m, a, b) && IsNewer(m, b, c)
    ensures IsNewer(m, a, c) <==> Distance(m, a, b) + Distance(m, b, c) <= m / 2
  {
    Wrap(m, a - b);
    Wrap(m, b - c);
    Wrap(m, a - c);
  }

  /** Outside that window the order really does cycle, in every domain. */
  lemma OrderCycles(m: nat)
    requires m % 2 == 1 && m >= 3
    ensures exists a: nat, b: nat, c: nat ::
              Valid(m, a) && Valid(m, b) && Valid(m, c) && IsNewer(m, a, b) && IsNewer(m, b, c) && IsNewer(m, c, a)
  {
    var h := m / 2;
    Wrap(m, h);
    Wrap(m, 2 * h - h);
    Wrap(m, -2 * h);
    assert Valid(m, 2 * h) && Valid(m, h) && Valid(m, 0);
    assert IsNewer(m, h, 0) && IsNewer(m, 2 * h, h) && IsNewer(m, 0, 2 * h);
  }
}
