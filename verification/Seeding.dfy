/** The greedy seed: workers in the order they become free each take the requests that could start first. */
module Seeding {
  import opened Assignment
  import opened Sorting
  import opened Placement

  datatype Seat = Seat(worker: Worker, batch: Batch)

  /** When the slot could start on a worker free from `available` on. */
  function Ready(p: Planner, available: real, s: Slot): real {
    Max(available, p.time(s))
  }

  function Age(p: Planner, s: Slot): seq<int> {
    [p.R(s).Since(), p.R(s).arrival, s]
  }

  predicate SeedBefore(p: Planner, available: real, a: Slot, b: Slot) {
    Ready(p, available, a) < Ready(p, available, b)
    || (Ready(p, available, a) == Ready(p, available, b) && LexLess(Age(p, a), Age(p, b)))
  }

  function SeedOrder(p: Planner, available: real): (Slot, Slot) -> bool {
    (a, b) => SeedBefore(p, available, a, b)
  }

  /** Everything a batch filled greedily from `order` keeps. */
  ghost predicate Filled(p: Planner, w: Worker, order: Batch, b: Batch) {
    && NoDup(b) && (forall s | s in b :: s in order)
    && (b != [] ==> p.Fits(w, b))
    && (forall s | s in b :: Ready(p, p.free(w), b[0]) <= Ready(p, p.free(w), s) <= Ready(p, p.free(w), b[0]) + SLACK)
    && (w.maxBatch > 0 ==> |b| <= w.maxBatch)
  }

  /** Why a slot of the order was left out of the batch. */
  ghost predicate LeftOut(p: Planner, w: Worker, b: Batch, s: Slot) {
    || (b != [] && |b| == w.maxBatch)
    || (b != [] && Ready(p, p.free(w), s) > Ready(p, p.free(w), b[0]) + SLACK)
    || exists k | 0 <= k <= |b| :: !p.Fits(w, b[..k] + [s])
  }

  /** The first n slots of the order have been looked at and the batch is still open. */
  ghost predicate Filling(p: Planner, w: Worker, order: Batch, n: nat, b: Batch)
    requires n <= |order|
  {
    && Filled(p, w, order[..n], b) && (b != [] ==> |b| != w.maxBatch)
    && forall s | s in order[..n] && s !in b :: LeftOut(p, w, b, s)
  }

  ghost predicate Waiting(p: Planner, w: Worker, order: Batch) {
    NoDup(order) && Ordered(order, SeedOrder(p, p.free(w)))
  }

  /** Fill one worker from the waiting slots, earliest start first. */
  method Fill(p: Planner, w: Worker, order: Batch) returns (batch: Batch)
    requires Waiting(p, w, order)
    ensures Filled(p, w, order, batch)
    ensures forall s | s in order && s !in batch :: LeftOut(p, w, batch, s)
  {
    batch := [];
    var available := p.free(w);
    var high := 0.0;
    for i := 0 to |order|
      invariant Filling(p, w, order, i, batch)
      invariant batch != [] ==> high == Ready(p, available, batch[0]) + SLACK
    {
      var s := order[i];
      var ready := Ready(p, available, s);
      if batch != [] && ready > high {
        TooLate(p, w, order, i, batch);
        return;
      }
      var next := batch + [s];
      var fits := p.ComputeFits(w, next);
      ghost var last := batch;
      if fits {
        if batch == [] { high := ready + SLACK; }
        batch := next;
        Taken(p, w, order, i, last);
        if |batch| == w.maxBatch {
          return;
        }
      } else {
        Skipped(p, w, order, i, last);
      }
    }
    assert order[..|order|] == order;
  }

  lemma Sooner(p: Planner, w: Worker, order: Batch, i: nat, j: nat)
    requires Waiting(p, w, order) && i <= j < |order|
    ensures Ready(p, p.free(w), order[i]) <= Ready(p, p.free(w), order[j])
  {
    assert i < j ==> !Before(SeedOrder(p, p.free(w)), order[j], order[i]);
  }

  lemma TooLate(p: Planner, w: Worker, order: Batch, i: nat, b: Batch)
    requires Waiting(p, w, order) && i < |order| && Filling(p, w, order, i, b)
    requires b != [] && Ready(p, p.free(w), order[i]) > Ready(p, p.free(w), b[0]) + SLACK
    ensures Filled(p, w, order, b)
    ensures forall s | s in order && s !in b :: LeftOut(p, w, b, s)
  {
    forall s | s in order && s !in b ensures LeftOut(p, w, b, s) {
      var j :| 0 <= j < |order| && order[j] == s;
      if j < i {
        assert s == order[..i][j];
      } else {
        Sooner(p, w, order, i, j);
      }
    }
  }

  lemma Taken(p: Planner, w: Worker, order: Batch, i: nat, b: Batch)
    requires Waiting(p, w, order) && i < |order| && Filling(p, w, order, i, b)
    requires p.Fits(w, b + [order[i]])
    requires b != [] ==> Ready(p, p.free(w), order[i]) <= Ready(p, p.free(w), b[0]) + SLACK
    ensures Filled(p, w, order[..i + 1], b + [order[i]])
    ensures if |b| + 1 == w.maxBatch
            then Filled(p, w, order, b + [order[i]]) && forall s | s in order && s !in b + [order[i]] :: LeftOut(p, w, b + [order[i]], s)
            else Filling(p, w, order, i + 1, b + [order[i]])
  {
    var s, next := order[i], b + [order[i]];
    assert order[..i + 1] == order[..i] + [s];
    if s in order[..i] {
      var j :| 0 <= j < i && order[..i][j] == s;
      NoDupAt(order, j, i);
    }
    NoDupSplit(b, [s]);
    forall t | t in next
      ensures Ready(p, p.free(w), next[0]) <= Ready(p, p.free(w), t) <= Ready(p, p.free(w), next[0]) + SLACK
    {
      if b != [] && t == s {
        assert b[0] in order[..i];
        var j :| 0 <= j < i && order[..i][j] == b[0];
        Sooner(p, w, order, j, i);
      }
    }
    if |b| + 1 != w.maxBatch {
      forall t | t in order[..i + 1] && t !in next ensures LeftOut(p, w, next, t) {
        LeftOutStays(p, w, b, s, t);
      }
    }
  }

  lemma LeftOutStays(p: Planner, w: Worker, b: Batch, s: Slot, t: Slot)
    requires LeftOut(p, w, b, t) && (b != [] ==> |b| != w.maxBatch)
    ensures LeftOut(p, w, b + [s], t)
  {
    if exists k | 0 <= k <= |b| :: !p.Fits(w, b[..k] + [t]) {
      var k :| 0 <= k <= |b| && !p.Fits(w, b[..k] + [t]);
      assert (b + [s])[..k] == b[..k];
    }
  }

  lemma Skipped(p: Planner, w: Worker, order: Batch, i: nat, b: Batch)
    requires i < |order| && Filling(p, w, order, i, b) && !p.Fits(w, b + [order[i]])
    ensures Filling(p, w, order, i + 1, b)
  {
    assert order[..i + 1] == order[..i] + [order[i]];
    assert b[..|b|] == b;
    assert LeftOut(p, w, b, order[i]);
  }

  lemma SeedOrderByKey(p: Planner, available: real)
    ensures ByKey(SeedOrder(p, available))
  {
    var o := SeedOrder(p, available);
    forall a: Slot, b: Slot | Before(o, a, b) ensures !Before(o, b, a) {
      LexStrict(Age(p, a), Age(p, b));
    }
    forall a: Slot, b: Slot, c: Slot | !Before(o, b, a) && !Before(o, c, b) ensures !Before(o, c, a) {
      LexNotLess(Age(p, a), Age(p, b), Age(p, c));
    }
  }

  function Batches(seed: seq<Seat>): (menu: Menu)
    ensures |menu| == |seed| && forall k | 0 <= k < |seed| :: menu[k] == seed[k].batch
  {
    seq(|seed|, k requires 0 <= k < |seed| => seed[k].batch)
  }

  ghost predicate DistinctIds(workers: seq<Worker>) {
    forall i, j | 0 <= i < j < |workers| :: workers[i].id != workers[j].id
  }

  /** Each seat is a nonempty batch that fits its worker; no worker and no slot is used twice. */
  ghost predicate Seated(p: Planner, candidates: Batch, workers: seq<Worker>, seed: seq<Seat>) {
    && (forall k | 0 <= k < |seed| :: seed[k].worker in workers && seed[k].batch != [] && p.Fits(seed[k].worker, seed[k].batch))
    && (forall j, k | 0 <= j < k < |seed| :: seed[j].worker.id != seed[k].worker.id)
    && NoDup(Flatten(Batches(seed)))
    && forall s | s in Flatten(Batches(seed)) :: s in candidates
  }

  /** The batch is filled from the candidates that are not used yet, in the order in which the worker could start them. */
  ghost predicate FilledFrom(p: Planner, candidates: Batch, used: Batch, w: Worker, b: Batch) {
    exists order | Waiting(p, w, order) && forall s :: s in order <==> s in candidates && s !in used ::
      Filled(p, w, order, b) && forall s | s in order && s !in b :: LeftOut(p, w, b, s)
  }

  /** Each worker in turn is filled from what those before it have left; it may find nothing that fits. */
  ghost predicate Turns(p: Planner, candidates: Batch, workers: seq<Worker>, turns: Menu) {
    |turns| == |workers| && forall i | 0 <= i < |turns| :: TurnAt(p, candidates, workers, turns, i)
  }

  ghost predicate TurnAt(p: Planner, candidates: Batch, workers: seq<Worker>, turns: Menu, i: nat)
    requires i < |turns| == |workers|
  {
    FilledFrom(p, candidates, Flatten(turns[..i]), workers[i], turns[i])
  }

  /** Those that found something have a seat. */
  function SeatsOf(workers: seq<Worker>, turns: Menu): seq<Seat>
    requires |turns| == |workers|
  {
    if turns == [] then []
    else
      var n := |turns| - 1;
      SeatsOf(workers[..n], turns[..n]) + if turns[n] == [] then [] else [Seat(workers[n], turns[n])]
  }

  ghost predicate SeatsInTurn(p: Planner, candidates: Batch, workers: seq<Worker>, seed: seq<Seat>) {
    exists turns: Menu | Turns(p, candidates, workers, turns) :: seed == SeatsOf(workers, turns)
  }

  lemma NextTurn(p: Planner, candidates: Batch, workers: seq<Worker>, i: nat, turns: Menu, batch: Batch)
    requires i < |workers| && Turns(p, candidates, workers[..i], turns)
    requires FilledFrom(p, candidates, Flatten(turns), workers[i], batch)
    ensures Turns(p, candidates, workers[..i + 1], turns + [batch])
    ensures SeatsOf(workers[..i + 1], turns + [batch])
            == SeatsOf(workers[..i], turns) + if batch == [] then [] else [Seat(workers[i], batch)]
    ensures Flatten(turns + [batch]) == Flatten(turns) + batch
  {
    var next, some := turns + [batch], workers[..i + 1];
    assert next[..i] == turns && some[..i] == workers[..i];
    forall j | 0 <= j < |next| ensures TurnAt(p, candidates, some, next, j) {
      if j < i {
        assert TurnAt(p, candidates, workers[..i], turns, j);
        assert next[..j] == turns[..j];
      }
    }
  }

  lemma OfferFills(p: Planner, candidates: Batch, used: Batch, w: Worker, batch: Batch, order: Batch)
    requires Offer(p, candidates, used, w, batch, order)
    ensures FilledFrom(p, candidates, used, w, batch)
  {
  }

  /** The seeding loop of Planner::once. It admits nothing only when no candidate fits any worker by itself. */
  method Seed(p: Planner, candidates: Batch, ordered: seq<Worker>) returns (seed: seq<Seat>)
    requires NoDup(candidates) && DistinctIds(ordered)
    ensures Seated(p, candidates, ordered, seed) && SeatsInTurn(p, candidates, ordered, seed)
    ensures seed == [] ==> forall w, s | w in ordered && s in candidates :: !p.Fits(w, [s])
  {
    seed := [];
    var admitted: Batch, used: set<Slot> := [], {};
    ghost var turns: Menu := [];
    for i := 0 to |ordered|
      invariant SeedOk(p, candidates, ordered[..i], seed)
      invariant Turns(p, candidates, ordered[..i], turns) && seed == SeatsOf(ordered[..i], turns) && Flatten(turns) == admitted
      invariant admitted == Flatten(Batches(seed)) && forall s :: s in used <==> s in admitted
    {
      seed, admitted, used, turns := SeedNext(p, candidates, ordered, i, seed, admitted, used, turns);
    }
    assert ordered[..|ordered|] == ordered;
  }

  ghost predicate SeedOk(p: Planner, candidates: Batch, workers: seq<Worker>, seed: seq<Seat>) {
    && Seated(p, candidates, workers, seed)
    && (seed == [] ==> forall w, s | w in workers && s in candidates :: !p.Fits(w, [s]))
  }

  /** One round of the loop. */
  method SeedNext(p: Planner, candidates: Batch, ordered: seq<Worker>, i: nat, seed: seq<Seat>, admitted: Batch, used: set<Slot>, ghost turns: Menu)
    returns (next: seq<Seat>, nowAdmitted: Batch, nowUsed: set<Slot>, ghost nowTurns: Menu)
    requires NoDup(candidates) && DistinctIds(ordered) && i < |ordered|
    requires SeedOk(p, candidates, ordered[..i], seed) && admitted == Flatten(Batches(seed)) && forall s :: s in used <==> s in admitted
    requires Turns(p, candidates, ordered[..i], turns) && seed == SeatsOf(ordered[..i], turns) && Flatten(turns) == admitted
    ensures SeedOk(p, candidates, ordered[..i + 1], next) && nowAdmitted == Flatten(Batches(next)) && forall s :: s in nowUsed <==> s in nowAdmitted
    ensures Turns(p, candidates, ordered[..i + 1], nowTurns) && next == SeatsOf(ordered[..i + 1], nowTurns) && Flatten(nowTurns) == nowAdmitted
  {
    var w := ordered[i];
    var order := SeedQueue(p, candidates, used, w);
    var batch := Fill(p, w, order);
    OfferFills(p, candidates, admitted, w, batch, order);
    SeatDecided(p, candidates, ordered, i, seed, batch, order);
    NextTurn(p, candidates, ordered, i, turns, batch);
    next, nowAdmitted, nowUsed, nowTurns := seed, admitted, used, turns + [batch];
    if batch != [] {
      next, nowAdmitted, nowUsed := seed + [Seat(w, batch)], admitted + batch, used + set s | s in batch;
    }
  }

  /** The queue holds what is not used, and the batch is filled from it. */
  ghost predicate Offer(p: Planner, candidates: Batch, used: Batch, w: Worker, batch: Batch, order: Batch) {
    && Waiting(p, w, order) && (forall s :: s in order <==> s in candidates && s !in used)
    && Filled(p, w, order, batch) && forall s | s in order && s !in batch :: LeftOut(p, w, batch, s)
  }

  lemma SeatDecided(p: Planner, candidates: Batch, ordered: seq<Worker>, i: nat, seed: seq<Seat>, batch: Batch, order: Batch)
    requires DistinctIds(ordered) && i < |ordered| && SeedOk(p, candidates, ordered[..i], seed)
    requires Offer(p, candidates, Flatten(Batches(seed)), ordered[i], batch, order)
    ensures var next := if batch == [] then seed else seed + [Seat(ordered[i], batch)];
            SeedOk(p, candidates, ordered[..i + 1], next) && Flatten(Batches(next)) == Flatten(Batches(seed)) + batch
  {
    if batch != [] {
      SeatAdded(p, candidates, ordered, i, seed, batch, order);
    } else {
      NothingFits(p, candidates, ordered, i, seed, order);
    }
  }

  /** The slots not used yet, in the order in which the worker would start them. */
  method SeedQueue(p: Planner, candidates: Batch, used: set<Slot>, w: Worker) returns (order: Batch)
    requires NoDup(candidates)
    ensures Waiting(p, w, order) && forall s :: s in order <==> s in candidates && s !in used
  {
    var left := Without(candidates, used);
    order := StableSort(left, SeedOrder(p, p.free(w)));
    WithoutMembers(candidates, used);
    WithoutNoDup(candidates, used);
    SeedOrderByKey(p, p.free(w));
    StableSortOrdered(left, SeedOrder(p, p.free(w)));
    SameElements(order, left);
  }

  lemma SameElements(a: Batch, b: Batch)
    requires multiset(a) == multiset(b)
    ensures forall s :: s in a <==> s in b
    ensures NoDup(b) ==> NoDup(a)
  {
    forall s ensures s in a <==> s in b {
      assert s in a <==> s in multiset(a);
      assert s in b <==> s in multiset(b);
    }
  }

  lemma SeatAdded(p: Planner, candidates: Batch, ordered: seq<Worker>, i: nat, seed: seq<Seat>, batch: Batch, order: Batch)
    requires DistinctIds(ordered) && i < |ordered| && Seated(p, candidates, ordered[..i], seed)
    requires forall s | s in order :: s in candidates && s !in Flatten(Batches(seed))
    requires batch != [] && Filled(p, ordered[i], order, batch)
    ensures var next := seed + [Seat(ordered[i], batch)];
            Flatten(Batches(next)) == Flatten(Batches(seed)) + batch && Seated(p, candidates, ordered[..i + 1], next)
  {
    var w, next := ordered[i], seed + [Seat(ordered[i], batch)];
    assert Batches(next)[..|seed|] == Batches(seed);
    NoDupSplit(Flatten(Batches(seed)), batch);
    assert ordered[..i + 1] == ordered[..i] + [w];
    forall j, k | 0 <= j < k < |next| ensures next[j].worker.id != next[k].worker.id {
      if k == |seed| {
        assert seed[j].worker in ordered[..i];
      }
    }
  }

  lemma NothingFits(p: Planner, candidates: Batch, ordered: seq<Worker>, i: nat, seed: seq<Seat>, order: Batch)
    requires i < |ordered| && Seated(p, candidates, ordered[..i], seed)
    requires forall s | s in order :: LeftOut(p, ordered[i], [], s)
    requires forall s :: s in order <==> s in candidates && s !in Flatten(Batches(seed))
    requires seed == [] ==> forall w, s | w in ordered[..i] && s in candidates :: !p.Fits(w, [s])
    ensures Seated(p, candidates, ordered[..i + 1], seed)
    ensures seed == [] ==> forall w, s | w in ordered[..i + 1] && s in candidates :: !p.Fits(w, [s])
  {
    assert ordered[..i + 1] == ordered[..i] + [ordered[i]];
    if seed == [] {
      forall s | s in candidates ensures !p.Fits(ordered[i], [s]) {
        assert s in order && LeftOut(p, ordered[i], [], s);
        var empty: Batch := [];
        assert empty[..0] + [s] == [s];
      }
    }
  }
}
