/** The menu of partitions: three orders of the admitted slots, each cut under a few caps. */
module Menus {
  import opened Assignment
  import opened Sorting
  import opened Placement

  /** How many binary digits the number has. */
  function Bits(x: int): nat {
    if x <= 0 then 0 else 1 + Bits(x / 2)
  }

  function Arrival(p: Planner, s: Slot): seq<int> { [p.R(s).arrival, s] }

  function Shape(p: Planner, s: Slot): seq<int> { [Bits(p.R(s).prompt + p.R(s).output), p.R(s).depth] }

  predicate InputBefore(p: Planner, a: Slot, b: Slot) {
    p.time(a) < p.time(b) || (p.time(a) == p.time(b) && LexLess(Arrival(p, a), Arrival(p, b)))
  }

  predicate ShapeBefore(p: Planner, a: Slot, b: Slot) {
    LexLess(Shape(p, a), Shape(p, b)) || (Shape(p, a) == Shape(p, b) && InputBefore(p, a, b))
  }

  function InputOrder(p: Planner): (Slot, Slot) -> bool { (a, b) => InputBefore(p, a, b) }

  function ShapeOrder(p: Planner): (Slot, Slot) -> bool { (a, b) => ShapeBefore(p, a, b) }

  /** The admitted slots as seeded, by readiness, and by shape. */
  function Orders(p: Planner, admitted: Batch): (orders: seq<Batch>)
    ensures |orders| == 3 && forall k | 0 <= k < 3 :: multiset(orders[k]) == multiset(admitted)
  {
    [admitted, StableSort(admitted, InputOrder(p)), StableSort(admitted, ShapeOrder(p))]
  }

  /** The second order is by readiness and the third by shape. */
  lemma OrdersSorted(p: Planner, admitted: Batch)
    ensures Ordered(Orders(p, admitted)[1], InputOrder(p)) && Ordered(Orders(p, admitted)[2], ShapeOrder(p))
  {
    forall a, b, c: Slot ensures InputKey(p, a, b, c) && ShapeKey(p, a, b, c) {
      LexStrict(Arrival(p, a), Arrival(p, b));
      LexNotLess(Arrival(p, a), Arrival(p, b), Arrival(p, c));
      LexStrict(Shape(p, a), Shape(p, b));
      LexNotLess(Shape(p, a), Shape(p, b), Shape(p, c));
      LexTotal(Shape(p, a), Shape(p, b));
      LexTotal(Shape(p, b), Shape(p, c));
    }
    ByKeys(p);
    StableSortOrdered(admitted, InputOrder(p));
    StableSortOrdered(admitted, ShapeOrder(p));
  }

  ghost predicate InputKey(p: Planner, a: Slot, b: Slot, c: Slot) {
    && !(InputBefore(p, a, b) && InputBefore(p, b, a))
    && (!InputBefore(p, b, a) && !InputBefore(p, c, b) ==> !InputBefore(p, c, a))
  }

  ghost predicate ShapeKey(p: Planner, a: Slot, b: Slot, c: Slot) {
    && !(ShapeBefore(p, a, b) && ShapeBefore(p, b, a))
    && (!ShapeBefore(p, b, a) && !ShapeBefore(p, c, b) ==> !ShapeBefore(p, c, a))
  }

  lemma ByKeys(p: Planner)
    requires forall a, b, c: Slot :: InputKey(p, a, b, c) && ShapeKey(p, a, b, c)
    ensures ByKey(InputOrder(p)) && ByKey(ShapeOrder(p))
  {
    forall a: Slot, b: Slot, c: Slot
      ensures !(Before(InputOrder(p), a, b) && Before(InputOrder(p), b, a)) && !(Before(ShapeOrder(p), a, b) && Before(ShapeOrder(p), b, a))
      ensures !Before(InputOrder(p), b, a) && !Before(InputOrder(p), c, b) ==> !Before(InputOrder(p), c, a)
      ensures !Before(ShapeOrder(p), b, a) && !Before(ShapeOrder(p), c, b) ==> !Before(ShapeOrder(p), c, a)
    {
      assert InputKey(p, a, b, c) && ShapeKey(p, a, b, c);
    }
  }

  function Largest(workers: seq<Worker>): (n: int)
    ensures n >= 0 && forall w | w in workers :: w.maxBatch <= n
  {
    if workers == [] then 0
    else
      assert forall w | w in workers :: w in workers[..|workers| - 1] || w == workers[|workers| - 1];
      MaxInt(Largest(workers[..|workers| - 1]), workers[|workers| - 1].maxBatch)
  }

  function MaxInt(a: int, b: int): int { if a < b then b else a }

  function AddNew(caps: seq<int>, n: int): seq<int> {
    if n in caps then caps else caps + [n]
  }

  /** The full batch size, half of it, an even split over the workers, and single requests, each once. */
  function Caps(workers: seq<Worker>, slots: nat): (caps: seq<int>)
    requires workers != []
  {
    var n := Largest(workers);
    AddNew(AddNew(AddNew([n], MaxInt(1, n / 2)), MaxInt(1, (slots + |workers| - 1) / |workers|)), 1)
  }

  function CutRule(p: Planner, workers: seq<Worker>, cap: int, order: nat): Rule {
    Rule(p, workers, cap, order != 0)
  }

  function EntryAt(p: Planner, workers: seq<Worker>, admitted: Batch, k: nat, cap: int): Menu
    requires k < 3
  {
    GreedyCut(CutRule(p, workers, cap, k), Orders(p, admitted)[k])
  }

  /** The menu is a greedy cut of one of the orders under one of the caps and takes no more batches than workers. */
  ghost predicate Entry(p: Planner, workers: seq<Worker>, admitted: Batch, menu: Menu)
    requires workers != []
  {
    |menu| <= |workers| && exists k, c ::
      0 <= k < 3 && c in Caps(workers, |admitted|) && menu == EntryAt(p, workers, admitted, k, c)
  }

  /** Entries of the orders before k, and of order k under the first n caps. */
  ghost predicate EntryBefore(p: Planner, workers: seq<Worker>, admitted: Batch, k: nat, n: nat, menu: Menu)
    requires workers != [] && n <= |Caps(workers, |admitted|)|
  {
    |menu| <= |workers| && exists o, c ::
      && 0 <= o < 3 && 0 <= c < |Caps(workers, |admitted|)| && (o < k || (o == k && c < n))
      && menu == EntryAt(p, workers, admitted, o, Caps(workers, |admitted|)[c])
  }

  /** Planner::partitions returns exactly the entries, each once. */
  method Partitions(p: Planner, admitted: Batch, workers: seq<Worker>) returns (result: seq<Menu>)
    requires workers != []
    ensures forall m :: m in result <==> Entry(p, workers, admitted, m)
    ensures NoDup(result)
  {
    var orders, caps := Orders(p, admitted), Caps(workers, |admitted|);
    result := [];
    for k := 0 to 3
      invariant NoDup(result)
      invariant forall m :: m in result <==> EntryBefore(p, workers, admitted, k, 0, m)
    {
      for n := 0 to |caps|
        invariant NoDup(result)
        invariant forall m :: m in result <==> EntryBefore(p, workers, admitted, k, n, m)
      {
        var batches, complete := Cut(CutRule(p, workers, caps[n], k), orders[k]);
        ghost var before := result;
        if complete && batches !in result {
          NoDupSplit(result, [batches]);
          result := result + [batches];
        }
        forall m ensures m in result <==> EntryBefore(p, workers, admitted, k, n + 1, m) {
          NextEntry(p, workers, admitted, k, n, m);
        }
      }
      forall m ensures m in result <==> EntryBefore(p, workers, admitted, k + 1, 0, m) {
        assert EntryBefore(p, workers, admitted, k, |caps|, m) <==> EntryBefore(p, workers, admitted, k + 1, 0, m);
      }
    }
    forall m ensures m in result <==> Entry(p, workers, admitted, m) {
      EveryEntry(p, workers, admitted, m);
    }
  }

  lemma NextEntry(p: Planner, workers: seq<Worker>, admitted: Batch, k: nat, n: nat, menu: Menu)
    requires workers != [] && k < 3 && n < |Caps(workers, |admitted|)|
    ensures EntryBefore(p, workers, admitted, k, n + 1, menu)
            <==> EntryBefore(p, workers, admitted, k, n, menu)
                 || (|menu| <= |workers| && menu == EntryAt(p, workers, admitted, k, Caps(workers, |admitted|)[n]))
  {
  }

  lemma EveryEntry(p: Planner, workers: seq<Worker>, admitted: Batch, menu: Menu)
    requires workers != []
    ensures EntryBefore(p, workers, admitted, 3, 0, menu) <==> Entry(p, workers, admitted, menu)
  {
    var caps := Caps(workers, |admitted|);
    if Entry(p, workers, admitted, menu) {
      var k, c :| 0 <= k < 3 && c in caps && menu == EntryAt(p, workers, admitted, k, c);
      var n :| 0 <= n < |caps| && caps[n] == c;
    }
    if EntryBefore(p, workers, admitted, 3, 0, menu) {
      var k, n :| 0 <= k < 3 && 0 <= n < |caps| && menu == EntryAt(p, workers, admitted, k, caps[n]);
      assert caps[n] in caps;
    }
  }

  /** Every entry is a partition of the admitted slots into nonempty batches, cut in one of the orders. */
  lemma EntryPartitions(p: Planner, workers: seq<Worker>, admitted: Batch, menu: Menu)
    requires workers != [] && Entry(p, workers, admitted, menu)
    ensures multiset(Flatten(menu)) == multiset(admitted)
    ensures forall i | 0 <= i < |menu| :: menu[i] != []
  {
    var k, c :| 0 <= k < 3 && c in Caps(workers, |admitted|) && menu == EntryAt(p, workers, admitted, k, c);
    var rule := CutRule(p, workers, c, k);
    GreedyCutCuts(rule, Orders(p, admitted)[k]);
    forall i | 0 <= i < |menu| ensures menu[i] != [] { assert rule.Grown(menu[i]); }
  }

  /** No batch grows past its cap, and past the as-seeded order the members of a batch become ready together. */
  lemma EntryKeepsTogether(p: Planner, workers: seq<Worker>, admitted: Batch, k: nat, cap: int, i: nat)
    requires k < 3 && cap > 0
    requires i < |EntryAt(p, workers, admitted, k, cap)|
    ensures var b := EntryAt(p, workers, admitted, k, cap)[i];
            && 0 < |b| <= cap && (|b| > 1 ==> p.FitsSome(workers, b))
            && (k != 0 ==> forall s, t | s in b && t in b :: p.time(s) <= p.time(t) + SLACK)
  {
    var rule, order := CutRule(p, workers, cap, k), Orders(p, admitted)[k];
    GreedyCutCuts(rule, order);
    assert rule.Grown(GreedyCut(rule, order)[i]);
    GrownBatch(rule, GreedyCut(rule, order)[i]);
  }

  lemma GrownBatch(rule: Rule, b: Batch)
    requires rule.Grown(b) && rule.cap > 0
    ensures |b| <= rule.cap && (|b| > 1 ==> rule.p.FitsSome(rule.workers, b))
    ensures rule.timed ==> forall s, t | s in b && t in b :: rule.p.time(s) <= rule.p.time(t) + SLACK
  {
    if |b| > 1 {
      LongerThanCap(rule, b, |b| - 1);
      assert rule.Joins(b[..|b| - 1], b[|b| - 1]);
      assert b[..|b| - 1] + [b[|b| - 1]] == b;
    }
  }

  lemma {:induction false} LongerThanCap(rule: Rule, b: Batch, n: nat)
    requires rule.Grown(b) && 0 < n < |b| && rule.cap > 0
    ensures n < rule.cap
  {
    assert rule.Joins(b[..n], b[n]);
    if n > 1 { LongerThanCap(rule, b, n - 1); }
  }
}
