/** First-fit allocation of host extents: the free list is always the sorted list of maximal free runs. */
module HostAllocator {
  import opened Wrappers
  import opened Sorting
  import opened HostKv
  import SeqNumbers

  /** Modulus of slot and lease generations. */
  const GENERATIONS: nat := 0xFFFF_FFFF_FFFF_FFFF

  datatype Run = Run(offset: nat, length: nat) {
    function End(): nat { offset + length }
  }

  predicate In(r: Run, b: int) { r.offset <= b < r.End() }

  predicate Disjoint(r: Run, s: Run) { r.End() <= s.offset || s.End() <= r.offset }

  ghost predicate InSome(runs: seq<Run>, b: int) {
    exists r | r in runs :: In(r, b)
  }

  /** Nonempty runs in order, each ending at or before the next begins. */
  ghost predicate Rising(runs: seq<Run>) {
    && (forall i | 0 <= i < |runs| :: runs[i].length > 0)
    && forall i, j | 0 <= i < j < |runs| :: runs[i].End() <= runs[j].offset
  }

  /** No two runs touch, so each is as long as it can be. */
  ghost predicate Maximal(runs: seq<Run>) {
    Rising(runs) && forall i, j | 0 <= i < j < |runs| :: runs[i].End() < runs[j].offset
  }

  /** The block right after a maximal run is in no run. */
  lemma RunEnds(runs: seq<Run>, i: nat)
    requires Maximal(runs) && i < |runs|
    ensures !InSome(runs, runs[i].End())
  {
    forall r | r in runs ensures !In(r, runs[i].End()) {
      var j :| 0 <= j < |runs| && runs[j] == r;
    }
  }

  /** A stretch of blocks that are all in some run lies inside one run, when the runs are maximal. */
  lemma StretchInOneRun(runs: seq<Run>, x: nat, n: nat)
    requires Maximal(runs) && n > 0 && forall b | x <= b < x + n :: InSome(runs, b)
    ensures exists i | 0 <= i < |runs| :: runs[i].offset <= x && x + n <= runs[i].End()
  {
    assert InSome(runs, x);
    var r :| r in runs && In(r, x);
    var i :| 0 <= i < |runs| && runs[i] == r;
    RunEnds(runs, i);
    assert x <= r.End() < x + n ==> InSome(runs, r.End());
  }

  // ---- Coalescing ----

  function RunOrder(): (Run, Run) -> bool {
    (a: Run, b: Run) => a.offset < b.offset || (a.offset == b.offset && a.length < b.length)
  }

  lemma RunOrderByKey()
    ensures ByKey(RunOrder())
  {
  }

  ghost predicate PairwiseDisjoint(runs: seq<Run>) {
    && (forall i | 0 <= i < |runs| :: runs[i].length > 0)
    && forall i, j | 0 <= i < j < |runs| :: Disjoint(runs[i], runs[j])
  }

  lemma {:induction false} DisjointNoDup(runs: seq<Run>)
    requires PairwiseDisjoint(runs)
    ensures NoDup(runs)
  {
    if runs != [] {
      var n := |runs| - 1;
      DisjointNoDup(runs[..n]);
      assert runs == runs[..n] + [runs[n]];
      NoDupSplit(runs[..n], [runs[n]]);
      forall r | r in runs[..n] ensures r != runs[n] {
        var i :| 0 <= i < n && runs[..n][i] == r;
      }
    }
  }

  /** Sorting disjoint runs makes them rise. */
  lemma SortedRises(runs: seq<Run>)
    requires PairwiseDisjoint(runs)
    ensures var sorted := StableSort(runs, RunOrder());
            Rising(sorted) && forall r :: r in sorted <==> r in runs
  {
    var sorted := StableSort(runs, RunOrder());
    RunOrderByKey();
    StableSortOrdered(runs, RunOrder());
    DisjointNoDup(runs);
    forall r ensures r in sorted <==> r in runs {
      assert r in sorted <==> r in multiset(sorted);
      assert r in runs <==> r in multiset(runs);
    }
    forall r | r in sorted ensures multiset(sorted)[r] == 1 {}
    forall i | 0 <= i < |sorted| ensures sorted[i].length > 0 { assert sorted[i] in runs; }
    forall i, j | 0 <= i < j < |sorted| ensures sorted[i].End() <= sorted[j].offset {
      SortedApart(runs, sorted, i, j);
    }
  }

  lemma SortedApart(runs: seq<Run>, sorted: seq<Run>, i: nat, j: nat)
    requires PairwiseDisjoint(runs) && NoDup(sorted) && Ordered(sorted, RunOrder()) && i < j < |sorted|
    requires forall r :: r in sorted <==> r in runs
    ensures sorted[i].End() <= sorted[j].offset
  {
    NoDupAt(sorted, i, j);
    assert sorted[i] in runs && sorted[j] in runs;
    var a :| 0 <= a < |runs| && runs[a] == sorted[i];
    var b :| 0 <= b < |runs| && runs[b] == sorted[j];
    assert a < b || b < a;
    assert !Before(RunOrder(), sorted[j], sorted[i]);
  }

  /** The merging loop of recycle: touching runs are joined, and the same blocks are covered. */
  method Merge(sorted: seq<Run>) returns (merged: seq<Run>)
    requires Rising(sorted)
    ensures Maximal(merged) && forall b :: InSome(merged, b) <==> InSome(sorted, b)
  {
    merged := [];
    for i := 0 to |sorted|
      invariant Maximal(merged) && (merged == [] <==> i == 0)
      invariant i > 0 ==> merged[|merged| - 1].End() == sorted[i - 1].End()
      invariant forall b :: InSome(merged, b) <==> InSome(sorted[..i], b)
    {
      assert sorted[..i + 1] == sorted[..i] + [sorted[i]];
      ghost var before := merged;
      merged := MergeOne(merged, sorted[i]);
      MergedCovers(before, merged, sorted[..i], sorted[i]);
    }
    assert sorted[..|sorted|] == sorted;
  }

  /** The next run joins the last one if they touch. */
  method MergeOne(merged: seq<Run>, r: Run) returns (now: seq<Run>)
    requires Maximal(merged) && r.length > 0 && (merged != [] ==> merged[|merged| - 1].End() <= r.offset)
    ensures Maximal(now) && now != [] && now[|now| - 1].End() == r.End()
    ensures forall b :: InSome(now, b) <==> InSome(merged, b) || In(r, b)
  {
    if merged != [] && merged[|merged| - 1].End() == r.offset {
      var last := merged[|merged| - 1];
      now := merged[..|merged| - 1] + [Run(last.offset, last.length + r.length)];
      JoinedCovers(merged, r);
      JoinedMaximal(merged, r);
    } else {
      now := merged + [r];
      MoreCovers(merged, r);
      AddedMaximal(merged, r);
    }
  }

  lemma AddedMaximal(runs: seq<Run>, r: Run)
    requires Maximal(runs) && r.length > 0 && (runs != [] ==> runs[|runs| - 1].End() < r.offset)
    ensures Maximal(runs + [r])
  {
  }

  lemma JoinedMaximal(runs: seq<Run>, r: Run)
    requires Maximal(runs) && runs != [] && runs[|runs| - 1].End() == r.offset
    ensures var n := |runs| - 1; Maximal(runs[..n] + [Run(runs[n].offset, runs[n].length + r.length)])
  {
  }

  lemma JoinedCovers(runs: seq<Run>, r: Run)
    requires runs != [] && runs[|runs| - 1].End() == r.offset
    ensures var n := |runs| - 1;
            forall b :: InSome(runs[..n] + [Run(runs[n].offset, runs[n].length + r.length)], b) <==> InSome(runs, b) || In(r, b)
  {
    var n := |runs| - 1;
    var last := Run(runs[n].offset, runs[n].length + r.length);
    var joined := runs[..n] + [last];
    assert runs == runs[..n] + [runs[n]];
    forall b ensures InSome(joined, b) <==> InSome(runs, b) || In(r, b) {
      assert In(last, b) <==> In(runs[n], b) || In(r, b);
      assert last in joined && runs[n] in runs;
      if InSome(runs, b) {
        var s :| s in runs && In(s, b);
        assert s in runs[..n] || s == runs[n];
        assert s in runs[..n] ==> s in joined;
      }
      if InSome(joined, b) {
        var s :| s in joined && In(s, b);
        assert s in runs[..n] || s == last;
      }
    }
  }

  lemma MergedCovers(before: seq<Run>, merged: seq<Run>, done: seq<Run>, r: Run)
    requires forall b :: InSome(before, b) <==> InSome(done, b)
    requires forall b :: InSome(merged, b) <==> InSome(before, b) || In(r, b)
    ensures forall b :: InSome(merged, b) <==> InSome(done + [r], b)
  {
    MoreCovers(done, r);
  }

  lemma MoreCovers(runs: seq<Run>, r: Run)
    ensures forall b :: InSome(runs + [r], b) <==> InSome(runs, b) || In(r, b)
  {
    forall b ensures InSome(runs + [r], b) <==> InSome(runs, b) || In(r, b) {
      assert r in runs + [r];
      if InSome(runs, b) {
        var s :| s in runs && In(s, b);
        assert s in runs + [r];
      }
    }
  }

  // ---- The allocator ----

  datatype Allocation = Allocation(extent: Extent, readers: nat, writing: bool)

  function RunOf(e: Extent): Run { Run(e.offset, e.capacity) }

  /** The free runs are maximal, allocations lie apart from them and from each other, and together they are all blocks. */
  ghost predicate Partition(total: nat, free: seq<Run>, taken: map<nat, Allocation>) {
    && Maximal(free)
    && (forall s | s in taken :: Sound(total, free, taken, s))
    && (forall s, t | s in taken && t in taken && s != t :: Disjoint(RunOf(taken[s].extent), RunOf(taken[t].extent)))
    && (forall r | r in free :: r.End() <= total)
    && forall b | 0 <= b < total :: InSome(free, b) || Taken(taken, b)
  }

  ghost predicate Sound(total: nat, free: seq<Run>, taken: map<nat, Allocation>, s: nat)
    requires s in taken
  {
    var e := taken[s].extent;
    && e.slot == s && e.capacity > 0 && e.offset + e.capacity <= total && e.hostGeneration < GENERATIONS
    && forall r | r in free :: Disjoint(r, RunOf(e))
  }

  ghost predicate Taken(taken: map<nat, Allocation>, b: int) {
    exists s | s in taken :: In(RunOf(taken[s].extent), b)
  }

  /** Space for an allocation: a stretch of blocks that are in no allocation. */
  ghost predicate Space(total: nat, taken: map<nat, Allocation>, x: nat, n: nat) {
    x + n <= total && forall b | x <= b < x + n :: !Taken(taken, b)
  }

  /** There is a free run long enough exactly when there is space anywhere. */
  lemma RunIffSpace(total: nat, free: seq<Run>, taken: map<nat, Allocation>, n: nat)
    requires Partition(total, free, taken) && n > 0
    ensures (exists i | 0 <= i < |free| :: free[i].length >= n) <==> exists x :: Space(total, taken, x, n)
  {
    if exists i | 0 <= i < |free| :: free[i].length >= n {
      var i :| 0 <= i < |free| && free[i].length >= n;
      FreeIsSpace(total, free, taken, i, n);
    }
    if exists x :: Space(total, taken, x, n) {
      var x :| Space(total, taken, x, n);
      StretchInOneRun(free, x, n);
    }
  }

  /** The first free run that is long enough begins the lowest stretch with space. */
  lemma FirstIsLeast(total: nat, free: seq<Run>, taken: map<nat, Allocation>, i: nat, n: nat)
    requires Partition(total, free, taken) && i < |free| && 0 < n <= free[i].length && forall j | 0 <= j < i :: free[j].length < n
    ensures forall x: nat | x < free[i].offset :: !Space(total, taken, x, n)
  {
    forall x: nat | Space(total, taken, x, n) ensures free[i].offset <= x {
      StretchInOneRun(free, x, n);
      var k :| 0 <= k < |free| && free[k].offset <= x && x + n <= free[k].End();
      assert i <= k;
    }
  }

  lemma FreeIsSpace(total: nat, free: seq<Run>, taken: map<nat, Allocation>, i: nat, n: nat)
    requires Partition(total, free, taken) && i < |free| && n <= free[i].length
    ensures Space(total, taken, free[i].offset, n)
  {
    assert free[i] in free;
    forall b | free[i].offset <= b < free[i].offset + n ensures !Taken(taken, b) {
      forall s | s in taken ensures !In(RunOf(taken[s].extent), b) {
        assert Sound(total, free, taken, s);
      }
    }
  }

  /** The free list with the front of run i cut off. */
  function Cut(free: seq<Run>, i: nat, n: nat): seq<Run>
    requires i < |free| && n <= free[i].length
  {
    if free[i].length > n then free[i := Run(free[i].offset + n, free[i].length - n)] else free[..i] + free[i + 1..]
  }

  /** A run of the cut list is an old one other than run i, or what is left of run i. */
  lemma CutRuns(free: seq<Run>, i: nat, n: nat, r: Run) returns (j: nat)
    requires i < |free| && 0 < n <= free[i].length && r in Cut(free, i, n)
    ensures j < |free| && if j == i then r == Run(free[i].offset + n, free[i].length - n) && r.length > 0 else r == free[j]
  {
    var cut := Cut(free, i, n);
    var k :| 0 <= k < |cut| && cut[k] == r;
    j := if free[i].length > n || k < i then k else k + 1;
  }

  lemma CutKeeps(free: seq<Run>, i: nat, n: nat, j: nat)
    requires i < |free| && 0 < n <= free[i].length && j < |free|
    ensures j != i ==> free[j] in Cut(free, i, n)
    ensures j == i && free[i].length > n ==> Run(free[i].offset + n, free[i].length - n) in Cut(free, i, n)
  {
    var cut := Cut(free, i, n);
    if j != i {
      assert cut[if free[i].length > n || j < i then j else j - 1] == free[j];
    } else if free[i].length > n {
      assert cut[i] == Run(free[i].offset + n, free[i].length - n);
    }
  }

  lemma CutMaximal(free: seq<Run>, i: nat, n: nat)
    requires Maximal(free) && i < |free| && 0 < n <= free[i].length
    ensures Maximal(Cut(free, i, n))
  {
    var cut := Cut(free, i, n);
    forall a, b | 0 <= a < b < |cut| ensures cut[a].End() < cut[b].offset {
      CutAt(free, i, n, a);
      CutAt(free, i, n, b);
    }
    forall a | 0 <= a < |cut| ensures cut[a].length > 0 { CutAt(free, i, n, a); }
  }

  /** A run of the cut list ends where an old one ends, and begins no earlier. */
  lemma CutAt(free: seq<Run>, i: nat, n: nat, k: nat)
    requires i < |free| && 0 < n <= free[i].length && k < |Cut(free, i, n)| && forall j | 0 <= j < |free| :: free[j].length > 0
    ensures var j := if free[i].length > n || k < i then k else k + 1;
            j < |free| && Cut(free, i, n)[k].End() == free[j].End() && Cut(free, i, n)[k].offset >= free[j].offset && Cut(free, i, n)[k].length > 0
  {
  }

  lemma CutCovers(free: seq<Run>, i: nat, n: nat, b: int)
    requires Maximal(free) && i < |free| && 0 < n <= free[i].length
    ensures InSome(free, b) ==> InSome(Cut(free, i, n), b) || In(Run(free[i].offset, n), b)
  {
    if InSome(free, b) {
      var r :| r in free && In(r, b);
      var j :| 0 <= j < |free| && free[j] == r;
      CutKeeps(free, i, n, j);
      if j == i && !In(Run(free[i].offset, n), b) {
        assert In(Run(free[i].offset + n, free[i].length - n), b);
      }
    }
  }

  lemma WholeFree(total: nat)
    requires total > 0
    ensures Partition(total, [Run(0, total)], map[])
  {
    var r := Run(0, total);
    forall b | 0 <= b < total ensures InSome([r], b) {
      assert r in [r] && In(r, b);
    }
  }

  class HostAllocator {
    const total: nat
    const arenaGeneration: nat
    var free: seq<Run>
    var taken: map<nat, Allocation>
    var generations: map<nat, nat>

    ghost predicate Valid()
      reads this
    {
      Partition(total, free, taken) && forall s | s in generations :: generations[s] < GENERATIONS
    }

    constructor (total: nat, arenaGeneration: nat)
      requires total > 0
      ensures Valid() && this.total == total && taken == map[] && free == [Run(0, total)]
    {
      this.total, this.arenaGeneration := total, arenaGeneration;
      free, taken, generations := [Run(0, total)], map[], map[];
      WholeFree(total);
    }

    function GenerationOf(slot: nat): nat
      reads this
    {
      if slot in generations then generations[slot] else 1
    }

    /**
     * First fit. It fails for space exactly when no stretch of the blocks in no allocation is long enough; otherwise it
     * takes the lowest such stretch, and the new extent carries the slot's current generation.
     */
    method Allocate(slot: nat, epoch: nat, n: int) returns (r: Result<Extent>)
      requires Valid()
      modifies `free, `taken
      ensures Valid()
      ensures r.Ok? <==> slot !in old(taken) && n > 0 && exists x :: Space(total, old(taken), x, n)
      ensures r.Err? ==> free == old(free) && taken == old(taken)
      ensures r.Ok? ==>
                && taken == old(taken)[slot := Allocation(r.value, 0, false)]
                && r.value.slot == slot && r.value.epoch == epoch && r.value.capacity == n && r.value.hostGeneration == GenerationOf(slot)
                && r.value.lease == r.value.hostGeneration && r.value.committed == 0
                && Space(total, old(taken), r.value.offset, n)
                && forall x: nat | x < r.value.offset :: !Space(total, old(taken), x, n)
    {
      if slot in taken { return Err("request already has a HostKV allocation"); }
      if n <= 0 { return Err("HostKV capacity must be positive"); }
      RunIffSpace(total, free, taken, n);
      for i := 0 to |free|
        invariant forall j | 0 <= j < i :: free[j].length < n
        invariant free == old(free) && taken == old(taken)
      {
        if free[i].length >= n {
          var g := GenerationOf(slot);
          var e := Extent(slot, epoch, slot, g, g, free[i].offset, n, arenaGeneration, n, 0, 0);
          FreeIsSpace(total, free, taken, i, n);
          FirstIsLeast(total, free, taken, i, n);
          AllocateKeeps(total, free, taken, i, e);
          free := Cut(free, i, n);
          taken := taken[slot := Allocation(e, 0, false)];
          return Ok(e);
        }
      }
      r := Err("HostKV arena capacity exhausted");
    }

    /** require. */
    function Require(slot: nat, epoch: nat): (r: Result<Extent>)
      reads this
      ensures r.Ok? ==> slot in taken && r.value == taken[slot].extent && r.value.epoch == epoch
    {
      if slot in taken && taken[slot].extent.epoch == epoch then Ok(taken[slot].extent)
      else Err("stale or missing HostKV request allocation")
    }

    /** Pin for a reader or the writer: a writer excludes everyone, readers exclude a writer, stale extents are errors. */
    method Pin(e: Extent, write: bool) returns (r: Result<bool>)
      requires Valid()
      modifies `taken
      ensures Valid()
      ensures r.Ok? <==> e.slot in old(taken) && old(taken)[e.slot].extent == e
      ensures r.Ok? ==>
                var a := old(taken)[e.slot];
                && r.value == !(a.writing || (write && a.readers > 0))
                && taken == if r.value then old(taken)[e.slot := if write then a.(writing := true) else a.(readers := a.readers + 1)] else old(taken)
      ensures r.Err? ==> taken == old(taken)
    {
      var current := Require(e.slot, e.epoch);
      if current.Err? { return Err(current.reason); }
      if current.value != e { return Err("stale HostKV extent/slot/writer lease"); }
      var a := taken[e.slot];
      if a.writing || (write && a.readers > 0) { return Ok(false); }
      var b := if write then a.(writing := true) else a.(readers := a.readers + 1);
      SameExtents(total, free, taken, e.slot, b);
      taken := taken[e.slot := b];
      r := Ok(true);
    }

    method Unpin(e: Extent, write: bool) returns (ok: bool)
      requires Valid()
      modifies `taken
      ensures Valid()
      ensures ok <==> e.slot in old(taken) && old(taken)[e.slot].extent == e
                      && if write then old(taken)[e.slot].writing else old(taken)[e.slot].readers > 0
      ensures taken == if !ok then old(taken)
                       else var a := old(taken)[e.slot]; old(taken)[e.slot := if write then a.(writing := false) else a.(readers := a.readers - 1)]
    {
      var current := Require(e.slot, e.epoch);
      if current.Err? || current.value != e { return false; }
      var a := taken[e.slot];
      if (write && !a.writing) || (!write && a.readers == 0) { return false; }
      var b := if write then a.(writing := false) else a.(readers := a.readers - 1);
      SameExtents(total, free, taken, e.slot, b);
      taken := taken[e.slot := b];
      ok := true;
    }

    /**
     * Recycle an allocation that nobody holds. Its blocks rejoin the free runs around them, and the slot's generation
     * moves on, so the old extent is stale for good until generations come around.
     */
    method Recycle(slot: nat, epoch: nat, quiescent: bool) returns (ok: bool)
      requires Valid()
      modifies this
      ensures Valid()
      ensures ok <==> slot in old(taken) && old(taken)[slot].extent.epoch == epoch
                      && quiescent && !old(taken)[slot].writing && old(taken)[slot].readers == 0
      ensures !ok ==> free == old(free) && taken == old(taken) && generations == old(generations)
      ensures ok ==> taken == old(taken) - {slot} && GenerationOf(slot) == SeqNumbers.Next(GENERATIONS, old(taken)[slot].extent.hostGeneration)
      ensures ok ==> forall s | s != slot :: GenerationOf(s) == old(GenerationOf(s))
    {
      var current := Require(slot, epoch);
      if current.Err? { return false; }
      var a := taken[slot];
      if !quiescent || a.writing || a.readers > 0 { return false; }
      assert Sound(total, free, taken, slot);
      free := Rejoin(slot);
      generations := generations[slot := SeqNumbers.Next(GENERATIONS, a.extent.hostGeneration)];
      taken := taken - {slot};
      ok := true;
    }

    /** The free runs with the blocks of a slot among them, sorted and merged. */
    method Rejoin(slot: nat) returns (merged: seq<Run>)
      requires Partition(total, free, taken) && slot in taken
      ensures Partition(total, merged, taken - {slot})
    {
      var run := RunOf(taken[slot].extent);
      RecycleDisjoint(total, free, taken, slot);
      SortedRises(free + [run]);
      merged := Merge(StableSort(free + [run], RunOrder()));
      RecycleKeeps(total, free, taken, slot, merged);
    }
  }

  lemma SameExtents(total: nat, free: seq<Run>, taken: map<nat, Allocation>, s: nat, b: Allocation)
    requires Partition(total, free, taken) && s in taken && b.extent == taken[s].extent
    ensures Partition(total, free, taken[s := b])
  {
    var now := taken[s := b];
    forall t | t in now ensures Sound(total, free, now, t) { assert Sound(total, free, taken, t); }
    forall x | 0 <= x < total ensures InSome(free, x) || Taken(now, x) {
      if Taken(taken, x) {
        var t :| t in taken && In(RunOf(taken[t].extent), x);
        assert t in now && In(RunOf(now[t].extent), x);
      }
    }
  }

  lemma AllocateKeeps(total: nat, free: seq<Run>, taken: map<nat, Allocation>, i: nat, e: Extent)
    requires Partition(total, free, taken) && i < |free| && 0 < e.capacity <= free[i].length && e.offset == free[i].offset
    requires e.slot !in taken && e.hostGeneration < GENERATIONS
    ensures Partition(total, Cut(free, i, e.capacity), taken[e.slot := Allocation(e, 0, false)])
  {
    var cut, now := Cut(free, i, e.capacity), taken[e.slot := Allocation(e, 0, false)];
    CutMaximal(free, i, e.capacity);
    assert free[i] in free;
    forall t | t in now ensures Sound(total, cut, now, t) {
      if t != e.slot { assert Sound(total, free, taken, t); }
      forall r | r in cut ensures Disjoint(r, RunOf(now[t].extent)) {
        CutDisjoint(total, free, taken, i, e, r, t);
      }
    }
    forall r | r in cut ensures r.End() <= total {
      var j := CutRuns(free, i, e.capacity, r);
      assert free[j] in free;
    }
    forall s, t | s in now && t in now && s != t ensures Disjoint(RunOf(now[s].extent), RunOf(now[t].extent)) {
      if s == e.slot { assert Sound(total, free, taken, t) && Disjoint(free[i], RunOf(taken[t].extent)); }
      if t == e.slot { assert Sound(total, free, taken, s) && Disjoint(free[i], RunOf(taken[s].extent)); }
    }
    forall b | 0 <= b < total ensures InSome(cut, b) || Taken(now, b) {
      CutCovers(free, i, e.capacity, b);
      assert In(Run(free[i].offset, e.capacity), b) ==> In(RunOf(now[e.slot].extent), b);
      if Taken(taken, b) {
        var s :| s in taken && In(RunOf(taken[s].extent), b);
        assert s in now && In(RunOf(now[s].extent), b);
      }
    }
  }

  lemma CutDisjoint(total: nat, free: seq<Run>, taken: map<nat, Allocation>, i: nat, e: Extent, r: Run, t: nat)
    requires Partition(total, free, taken) && i < |free| && 0 < e.capacity <= free[i].length && e.offset == free[i].offset
    requires r in Cut(free, i, e.capacity) && e.slot !in taken && (t == e.slot || t in taken)
    ensures Disjoint(r, if t == e.slot then RunOf(e) else RunOf(taken[t].extent))
  {
    var j := CutRuns(free, i, e.capacity, r);
    if t == e.slot {
      assert j < i || i < j || i == j;
    } else {
      assert Sound(total, free, taken, t) && free[j] in free && Disjoint(free[j], RunOf(taken[t].extent));
    }
  }

  lemma RecycleDisjoint(total: nat, free: seq<Run>, taken: map<nat, Allocation>, s: nat)
    requires Partition(total, free, taken) && s in taken
    ensures PairwiseDisjoint(free + [RunOf(taken[s].extent)])
  {
    assert Sound(total, free, taken, s);
    var all := free + [RunOf(taken[s].extent)];
    forall i, j | 0 <= i < j < |all| ensures Disjoint(all[i], all[j]) {
      if j == |free| { assert free[i] in free; }
    }
  }

  lemma RecycleKeeps(total: nat, free: seq<Run>, taken: map<nat, Allocation>, s: nat, merged: seq<Run>)
    requires Partition(total, free, taken) && s in taken && Maximal(merged)
    requires forall b :: InSome(merged, b) <==> InSome(StableSort(free + [RunOf(taken[s].extent)], RunOrder()), b)
    requires forall r :: r in StableSort(free + [RunOf(taken[s].extent)], RunOrder()) <==> r in free + [RunOf(taken[s].extent)]
    ensures Partition(total, merged, taken - {s})
  {
    var r, now := RunOf(taken[s].extent), taken - {s};
    var sorted := StableSort(free + [r], RunOrder());
    assert Sound(total, free, taken, s);
    MoreCovers(free, r);
    forall b ensures InSome(merged, b) <==> InSome(free, b) || In(r, b) {
      SameCover(sorted, free + [r], b);
    }
    forall t | t in now ensures Sound(total, merged, now, t) {
      assert Sound(total, free, taken, t);
      forall m | m in merged ensures Disjoint(m, RunOf(now[t].extent)) {
        MergedApart(total, free, taken, s, t, merged, m);
      }
    }
    forall m | m in merged ensures m.End() <= total {
      MergedInside(total, free, taken, s, merged, m);
    }
    forall b | 0 <= b < total ensures InSome(merged, b) || Taken(now, b) {
      if Taken(taken, b) {
        var t :| t in taken && In(RunOf(taken[t].extent), b);
        if t != s { assert t in now && In(RunOf(now[t].extent), b); }
      }
    }
  }

  lemma SameCover(a: seq<Run>, b: seq<Run>, x: int)
    requires forall r :: r in a <==> r in b
    ensures InSome(a, x) <==> InSome(b, x)
  {
  }

  lemma MergedApart(total: nat, free: seq<Run>, taken: map<nat, Allocation>, s: nat, t: nat, merged: seq<Run>, m: Run)
    requires Partition(total, free, taken) && s in taken && t in taken && s != t && m in merged && Maximal(merged)
    requires forall b :: InSome(merged, b) <==> InSome(free, b) || In(RunOf(taken[s].extent), b)
    ensures Disjoint(m, RunOf(taken[t].extent))
  {
    var e := RunOf(taken[t].extent);
    assert Sound(total, free, taken, t);
    var k :| 0 <= k < |merged| && merged[k] == m;
    forall b | In(m, b) ensures !In(e, b) {
      assert InSome(merged, b);
      if InSome(free, b) {
        var r :| r in free && In(r, b);
        assert Disjoint(r, e);
      } else {
        assert Disjoint(RunOf(taken[s].extent), e);
      }
    }
    assert !In(e, m.offset) && !In(e, m.End() - 1) by { assert In(m, m.offset) && In(m, m.End() - 1); }
    assert In(m, e.offset) ==> !In(e, e.offset);
  }

  lemma MergedInside(total: nat, free: seq<Run>, taken: map<nat, Allocation>, s: nat, merged: seq<Run>, m: Run)
    requires Partition(total, free, taken) && s in taken && m in merged && Maximal(merged)
    requires forall b :: InSome(merged, b) <==> InSome(free, b) || In(RunOf(taken[s].extent), b)
    ensures m.End() <= total
  {
    assert Sound(total, free, taken, s);
    var k :| 0 <= k < |merged| && merged[k] == m;
    assert In(m, m.End() - 1) && InSome(merged, m.End() - 1);
    if InSome(free, m.End() - 1) {
      var r :| r in free && In(r, m.End() - 1);
    }
  }

  /** With nothing allocated the free list is one run of all blocks. */
  lemma AllFree(total: nat, free: seq<Run>, taken: map<nat, Allocation>)
    requires Partition(total, free, taken) && taken == map[] && total > 0
    ensures free == [Run(0, total)]
  {
    forall b | 0 <= b < total ensures InSome(free, b) { assert !Taken(taken, b); }
    StretchInOneRun(free, 0, total);
    var i :| 0 <= i < |free| && free[i].offset <= 0 && total <= free[i].End();
    assert free[i] in free && free[0] in free && free[|free| - 1] in free;
  }
}
