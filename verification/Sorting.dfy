/** Sequences as lists: stable sorting by a strict order, repetition, and taking elements out. */
module Sorting {

  function Insert<T>(x: T, sorted: seq<T>, before: (T, T) -> bool): (r: seq<T>)
    ensures multiset(r) == multiset{x} + multiset(sorted)
  {
    if sorted == [] || !before(sorted[0], x) then [x] + sorted
    else
      assert sorted == [sorted[0]] + sorted[1..];
      [sorted[0]] + Insert(x, sorted[1..], before)
  }

  function StableSort<T>(s: seq<T>, before: (T, T) -> bool): (r: seq<T>)
    ensures multiset(r) == multiset(s)
  {
    if s == [] then []
    else
      assert s == [s[0]] + s[1..];
      Insert(s[0], StableSort(s[1..], before), before)
  }

  predicate Before<T>(before: (T, T) -> bool, a: T, b: T) {
    before(a, b)
  }

  ghost predicate Ordered<T>(s: seq<T>, before: (T, T) -> bool) {
    forall i, j | 0 <= i < j < |s| :: !Before(before, s[j], s[i])
  }

  /** `before` compares some key of each element. */
  ghost predicate ByKey<T(!new)>(before: (T, T) -> bool) {
    && (forall a: T, b: T | Before(before, a, b) :: !Before(before, b, a))
    && (forall a: T, b: T, c: T | !Before(before, b, a) && !Before(before, c, b) :: !Before(before, c, a))
  }

  lemma {:induction false} InsertOrdered<T(!new)>(x: T, sorted: seq<T>, before: (T, T) -> bool)
    requires ByKey(before) && Ordered(sorted, before)
    ensures Ordered(Insert(x, sorted, before), before)
  {
    if sorted == [] {
    } else if Before(before, sorted[0], x) {
      var rest := sorted[1..];
      assert !Before(before, x, sorted[0]);
      InsertOrdered(x, rest, before);
      var r := Insert(x, rest, before);
      forall j | 0 <= j < |r| ensures !Before(before, r[j], sorted[0]) {
        assert r[j] in multiset(r);
        assert r[j] in multiset{x} + multiset(rest);
        if r[j] !in multiset{x} {
          assert r[j] in rest;
          var k :| 0 <= k < |rest| && rest[k] == r[j];
          assert !Before(before, sorted[k + 1], sorted[0]);
        }
      }
    } else {
      forall j | 0 <= j < |sorted| ensures !Before(before, sorted[j], x) {
        if j > 0 {
          assert !Before(before, sorted[j], sorted[0]) && !Before(before, sorted[0], x);
        }
      }
    }
  }

  /** The sort is a permutation in key order. */
  lemma {:induction false} StableSortOrdered<T(!new)>(s: seq<T>, before: (T, T) -> bool)
    requires ByKey(before)
    ensures Ordered(StableSort(s, before), before)
  {
    if s != [] {
      StableSortOrdered(s[1..], before);
      InsertOrdered(s[0], StableSort(s[1..], before), before);
    }
  }

  /** Nothing occurs twice. */
  ghost predicate NoDup<T>(s: seq<T>) {
    forall x | x in s :: multiset(s)[x] == 1
  }

  lemma CountedTwice<T>(s: seq<T>, i: nat, j: nat)
    requires i < j < |s|
    ensures s[i] == s[j] ==> multiset(s)[s[i]] >= 2
  {
    var x, a, b := s[j], s[..j], s[j..];
    assert s == a + b && a[i] == s[i] && b[0] == x;
    assert s[i] in multiset(a) && x in multiset(b);
    assert multiset(s)[x] == multiset(a)[x] + multiset(b)[x];
  }

  lemma NoDupAt<T>(s: seq<T>, i: nat, j: nat)
    requires NoDup(s) && i < j < |s|
    ensures s[i] != s[j]
  {
    CountedTwice(s, i, j);
    assert s[i] in s;
  }

  lemma NoDupSplit<T>(a: seq<T>, b: seq<T>)
    ensures NoDup(a + b) <==> NoDup(a) && NoDup(b) && forall x | x in a :: x !in b
  {
    var s := a + b;
    assert multiset(s) == multiset(a) + multiset(b);
    if NoDup(s) {
      forall x | x in a ensures multiset(a)[x] == 1 && x !in b { assert x in s; }
      forall x | x in b ensures multiset(b)[x] == 1 { assert x in s; }
    }
  }

  /** Without its last element, which is not in the rest. */
  lemma NoDupPop<T>(s: seq<T>)
    requires NoDup(s) && s != []
    ensures var n := |s| - 1; NoDup(s[..n]) && s[n] !in s[..n] && s[n] in s && forall x | x in s[..n] :: x in s
  {
    var n := |s| - 1;
    assert s == s[..n] + [s[n]] && s[n] in [s[n]];
    NoDupSplit(s[..n], [s[n]]);
  }

  // ---- Taking elements out ----

  function Kept<T(==)>(k: T, done: set<T>): seq<T> {
    if k in done then [] else [k]
  }

  /** The elements that are not done, in order. */
  function Without<T(==)>(q: seq<T>, done: set<T>): (r: seq<T>) {
    if q == [] then [] else Without(q[..|q| - 1], done) + Kept(q[|q| - 1], done)
  }

  lemma {:induction false} WithoutMembers<T>(q: seq<T>, done: set<T>)
    ensures forall k :: k in Without(q, done) <==> k in q && k !in done
  {
    if q != [] {
      var n := |q| - 1;
      assert q == q[..n] + [q[n]];
      WithoutMembers(q[..n], done);
    }
  }

  lemma {:induction false} WithoutNoDup<T>(q: seq<T>, done: set<T>)
    requires NoDup(q)
    ensures NoDup(Without(q, done))
  {
    if q != [] {
      var n := |q| - 1;
      assert q == q[..n] + [q[n]];
      NoDupSplit(q[..n], [q[n]]);
      WithoutNoDup(q[..n], done);
      WithoutMembers(q[..n], done);
      NoDupSplit(Without(q[..n], done), Kept(q[n], done));
    }
  }

  lemma WithoutMore<T>(q: seq<T>, k: T, done: set<T>)
    ensures Without(q + [k], done) == Without(q, done) + Kept(k, done)
  {
    assert (q + [k])[..|q|] == q;
  }

  lemma {:induction false} WithoutBoth<T>(a: seq<T>, b: seq<T>, done: set<T>)
    ensures Without(a + b, done) == Without(a, done) + Without(b, done)
  {
    if b == [] {
      assert a + b == a;
    } else {
      var n := |b| - 1;
      WithoutBoth(a, b[..n], done);
      WithoutMore(a + b[..n], b[n], done);
      assert a + b == a + b[..n] + [b[n]] && Without(b, done) == Without(b[..n], done) + Kept(b[n], done);
    }
  }

  lemma {:induction false} WithoutNothing<T>(q: seq<T>, done: set<T>)
    requires forall k | k in q :: k !in done
    ensures Without(q, done) == q
  {
    if q != [] {
      var n, k := |q| - 1, q[|q| - 1];
      WithoutNothing(q[..n], done);
      assert k in q && Kept(k, done) == [k] && q == q[..n] + [k];
    }
  }

  lemma {:induction false} WithoutTwice<T>(q: seq<T>, done: set<T>, more: set<T>)
    ensures Without(Without(q, done), more) == Without(q, done + more)
  {
    if q != [] {
      var n, k := |q| - 1, q[|q| - 1];
      WithoutTwice(q[..n], done, more);
      if k in done {
        assert Without(q, done) == Without(q[..n], done);
      } else {
        WithoutMore(Without(q[..n], done), k, more);
      }
    }
  }

  lemma {:induction false} WithoutShorter<T>(q: seq<T>, done: set<T>)
    ensures |Without(q, done)| <= |q| && ((exists k :: k in q && k in done) ==> |Without(q, done)| < |q|)
  {
    if q != [] {
      var n := |q| - 1;
      WithoutShorter(q[..n], done);
      assert q == q[..n] + [q[n]];
    }
  }
}
