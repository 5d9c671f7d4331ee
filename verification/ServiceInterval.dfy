/**
 * The service-interval policy: each worker takes the requests that finished their last stage longest ago, then keeps
 * only those that can start by a deadline derived from that finish.
 */
module ServiceInterval {
  import opened Assignment
  import opened Sorting
  import opened Placement
  import opened Seeding
  import opened Planning

  /** Slack of the deadline comparison, in seconds. */
  const TOLERANCE: real := 0.000000001

  /** When the request's last compute stage ended, when that was observed for its current round. */
  datatype Finish = Observed(endNs: nat) | Unobserved(input: real)

  datatype Service = Service(base: Planner, now: real, gap: real, delay: real, finish: Slot -> Finish)
  {
    function End(s: Slot): real {
      match finish(s)
      case Observed(ns) => ns as real / 1000000000.0
      case Unobserved(input) => input
    }

    /** The planner whose readiness times are the finishes, but no earlier than now. */
    function P(): Planner { base.(time := s => Max(now, End(s))) }

    function Start(w: Worker, b: Batch): real { P().predict(w, Count(b)).start }

    /** The latest start the request tolerates before the delay is added. */
    function Bound(w: Worker, s: Slot): real { Max(End(s) + gap, Start(w, [s])) }

    /** Requests with an observed finish come first, the earliest finish first. */
    function AgeGroup(s: Slot): seq<int> {
      match finish(s)
      case Observed(ns) => [0, ns]
      case Unobserved(_) => [1, 0]
    }

    function Wait(w: Worker, s: Slot): real { Max(0.0, Start(w, [s]) - P().free(w)) }

    function Rank(s: Slot): seq<int> { [base.R(s).Since(), base.R(s).arrival, s] }

    predicate RankedBefore(w: Worker, a: Slot, b: Slot) {
      LexLess(AgeGroup(a), AgeGroup(b))
      || (AgeGroup(a) == AgeGroup(b)
          && (Wait(w, a) < Wait(w, b) || (Wait(w, a) == Wait(w, b) && LexLess(Rank(a), Rank(b)))))
    }

    function RankOrder(w: Worker): (Slot, Slot) -> bool { (a, b) => RankedBefore(w, a, b) }

    function DeadlinesOf(w: Worker): Deadlines {
      Deadlines(b => Start(w, b), s => Bound(w, s), delay)
    }
  }

  /** When a batch would start, the latest start each request tolerates, and the delay allowed on top. */
  datatype Deadlines = Deadlines(start: Batch -> real, bound: Slot -> real, delay: real) {

    /** Every member of the batch can start by its bound plus the delay. */
    ghost predicate OnTime(b: Batch) {
      forall s | s in b :: start(b) <= bound(s) + delay + TOLERANCE
    }

    /** The least bound plus delay over the batch. */
    function Limit(b: Batch): (limit: real)
      requires b != []
      ensures forall s | s in b :: limit <= bound(s) + delay
    {
      var n, last := |b| - 1, bound(b[|b| - 1]) + delay;
      assert b == b[..n] + [b[n]] && b[n] in b;
      if n == 0 then last else Min(Limit(b[..n]), last)
    }

    lemma {:induction false} LimitReached(b: Batch) returns (s: Slot)
      requires b != []
      ensures s in b && Limit(b) == bound(s) + delay
    {
      var n := |b| - 1;
      s := b[n];
      if n > 0 && Limit(b[..n]) < bound(s) + delay {
        s := LimitReached(b[..n]);
      }
    }

    /** Adding the slot when its turn came would have started the batch too late for one of its members. */
    ghost predicate MakesLate(kept: Batch, s: Slot) {
      exists k | 0 < k <= |kept| :: !OnTime(kept[..k] + [s])
    }

    /**
     * The kept batch is what remains when every slot that would make some member late is passed over. The first slot is
     * kept unasked; with more than it, every member is on time.
     */
    ghost predicate Filtered(batch: Batch, kept: Batch) {
      && batch != [] && kept != [] && kept[0] == batch[0] && Within(kept, batch)
      && (forall s | s in kept :: s in batch) && NoDup(kept)
      && (OnTime(kept) || kept == [batch[0]])
      && forall s | s in batch && s !in kept :: MakesLate(kept, s)
    }

    /** Starting by the limit is starting on time for every member. */
    lemma OnTimeByLimit(b: Batch)
      requires b != []
      ensures OnTime(b) <==> start(b) <= Limit(b) + TOLERANCE
    {
      var s := LimitReached(b);
    }

    lemma FilterStep(batch: Batch, i: nat, kept: Batch)
      requires 0 < i < |batch| && NoDup(batch) && Filtered(batch[..i], kept)
      ensures Limit(kept + [batch[i]]) == Min(Limit(kept), bound(batch[i]) + delay)
      ensures Filtered(batch[..i + 1],
                       if start(kept + [batch[i]]) <= Limit(kept + [batch[i]]) + TOLERANCE then kept + [batch[i]] else kept)
    {
      var s, trial := batch[i], kept + [batch[i]];
      assert trial[..|kept|] == kept && kept[..|kept|] == kept;
      assert batch[..i + 1] == batch[..i] + [s] && batch[..i + 1][0] == batch[..i][0];
      OnTimeByLimit(trial);
      if start(trial) <= Limit(trial) + TOLERANCE {
        NewSlot(batch, i);
        NoDupSplit(kept, [s]);
        WithinStep(kept, batch[..i], s);
        forall t | t in batch[..i + 1] && t !in trial ensures MakesLate(trial, t) {
          var k :| 0 < k <= |kept| && !OnTime(kept[..k] + [t]);
          assert trial[..k] == kept[..k];
        }
      } else {
        WithinStep(kept, batch[..i], s);
        assert MakesLate(kept, s);
      }
    }

    /** The filter loop of ServiceIntervalPlanner::run. */
    method Filter(batch: Batch) returns (kept: Batch)
      requires batch != [] && NoDup(batch)
      ensures Filtered(batch, kept)
    {
      kept := [batch[0]];
      var limit := bound(batch[0]) + delay;
      assert batch[..1] == [batch[0]];
      WithinItself(kept);
      for i := 1 to |batch|
        invariant Filtered(batch[..i], kept) && limit == Limit(kept)
      {
        var s := batch[i];
        var nextLimit := Min(limit, bound(s) + delay);
        var trial := kept + [s];
        FilterStep(batch, i, kept);
        if start(trial) <= nextLimit + TOLERANCE {
          kept, limit := trial, nextLimit;
        }
      }
      assert batch[..|batch|] == batch;
    }
  }

  /** The slots of `a` occur in `b` in the same order. */
  predicate Within(a: Batch, b: Batch) {
    || a == []
    || (b != [] && (Within(a, b[..|b| - 1]) || (a[|a| - 1] == b[|b| - 1] && Within(a[..|a| - 1], b[..|b| - 1]))))
  }

  lemma {:induction false} WithinItself(a: Batch)
    ensures Within(a, a)
  {
    if a != [] { WithinItself(a[..|a| - 1]); }
  }

  lemma WithinStep(a: Batch, b: Batch, s: Slot)
    requires Within(a, b)
    ensures Within(a, b + [s]) && Within(a + [s], b + [s])
  {
    assert (b + [s])[..|b|] == b && (a + [s])[..|a|] == a;
  }

  /** A batch without some of its members is no heavier, so it still fits. */
  lemma WithinFits(p: Planner, w: Worker, a: Batch, b: Batch)
    requires Within(a, b) && p.Nonneg(w) && p.Fits(w, b)
    ensures p.Fits(w, a)
  {
    WithinShorter(a, b);
    WithinLighter(p, w, a, b);
  }

  lemma {:induction false} WithinLighter(p: Planner, w: Worker, a: Batch, b: Batch)
    requires Within(a, b) && p.Nonneg(w)
    ensures p.TotalBlocks(a) <= p.TotalBlocks(b) && p.TotalTokens(w, a) <= p.TotalTokens(w, b)
    decreases |b|
  {
    if b != [] {
      var rest := b[..|b| - 1];
      if Within(a, rest) {
        WithinLighter(p, w, a, rest);
      } else {
        WithinLighter(p, w, a[..|a| - 1], rest);
      }
    }
  }

  lemma {:induction false} WithinShorter(a: Batch, b: Batch)
    requires Within(a, b)
    ensures |a| <= |b|
    decreases |b|
  {
    if b != [] {
      var rest := b[..|b| - 1];
      if Within(a, rest) {
        WithinShorter(a, rest);
      } else {
        WithinShorter(a[..|a| - 1], rest);
      }
    }
  }

  lemma NewSlot(batch: Batch, i: nat)
    requires i < |batch| && NoDup(batch)
    ensures batch[i] !in batch[..i]
  {
    forall j | 0 <= j < i ensures batch[..i][j] != batch[i] { NoDupAt(batch, j, i); }
  }

  // ---- First fit ----

  function Eligible(v: Service, w: Worker, candidates: Batch, used: set<Slot>): (r: Batch)
    ensures forall s :: s in r <==> s in candidates && s !in used && v.P().Fits(w, [s])
    ensures NoDup(candidates) ==> NoDup(r)
  {
    if candidates == [] then []
    else
      var n, s := |candidates| - 1, candidates[|candidates| - 1];
      assert candidates == candidates[..n] + [s];
      NoDupSplit(candidates[..n], [s]);
      var rest := Eligible(v, w, candidates[..n], used);
      NoDupSplit(rest, [s]);
      rest + if s in used || !v.P().Fits(w, [s]) then [] else [s]
  }

  /** The batch took slots of the order as long as they fitted. */
  ghost predicate Fitted(p: Planner, w: Worker, order: Batch, b: Batch) {
    && NoDup(b) && (forall s | s in b :: s in order) && (w.maxBatch > 0 ==> |b| <= w.maxBatch)
    && (b == [] <==> order == []) && (b != [] ==> b[0] == order[0] && p.Fits(w, b))
    && forall s | s in order && s !in b :: |b| == w.maxBatch || exists k | 0 <= k <= |b| :: !p.Fits(w, b[..k] + [s])
  }

  /** The inner loops of ServiceIntervalPlanner::run over one worker's ranked slots. */
  method FirstFit(p: Planner, w: Worker, order: Batch) returns (batch: Batch)
    requires NoDup(order) && forall s | s in order :: p.Fits(w, [s])
    ensures Fitted(p, w, order, batch)
  {
    batch := [];
    for i := 0 to |order|
      invariant Fitted(p, w, order[..i], batch) && (w.maxBatch > 0 ==> |batch| < w.maxBatch)
    {
      var next := batch + [order[i]];
      var fits := p.ComputeFits(w, next);
      FitsAlone(p, w, order, i);
      FitStep(p, w, order, i, batch);
      if fits { batch := next; }
      if |batch| == w.maxBatch {
        return;
      }
    }
    assert order[..|order|] == order;
  }

  lemma FitsAlone(p: Planner, w: Worker, order: Batch, i: nat)
    requires i < |order| && forall s | s in order :: p.Fits(w, [s])
    ensures p.Fits(w, [order[i]])
  {
    var s := order[i];
    assert s in order && p.Fits(w, [s]);
  }

  lemma FitStep(p: Planner, w: Worker, order: Batch, i: nat, b: Batch)
    requires NoDup(order) && i < |order| && Fitted(p, w, order[..i], b) && (w.maxBatch > 0 ==> |b| < w.maxBatch)
    requires p.Fits(w, [order[i]])
    ensures var next := if p.Fits(w, b + [order[i]]) then b + [order[i]] else b;
            Fitted(p, w, if |next| == w.maxBatch then order else order[..i + 1], next)
  {
    var s := order[i];
    assert order[..i + 1] == order[..i] + [s];
    if b == [] {
      assert b + [s] == [s];
    }
    if p.Fits(w, b + [s]) {
      var next := b + [s];
      if s in order[..i] {
        var j :| 0 <= j < i && order[..i][j] == s;
        NoDupAt(order, j, i);
      }
      NoDupSplit(b, [s]);
      forall t | t in order[..i + 1] && t !in next ensures exists k | 0 <= k <= |next| :: !p.Fits(w, next[..k] + [t]) {
        var k :| 0 <= k <= |b| && !p.Fits(w, b[..k] + [t]);
        assert next[..k] == b[..k];
      }
    } else {
      assert b[..|b|] == b;
    }
  }

  // ---- One worker, then all of them ----

  /** What a worker is given, when it is given anything. */
  ghost predicate Serves(v: Service, w: Worker, candidates: Batch, b: Batch) {
    && b != [] && NoDup(b) && (forall s | s in b :: s in candidates) && (w.maxBatch > 0 ==> |b| <= w.maxBatch)
    && (v.DeadlinesOf(w).OnTime(b) || (|b| == 1 && v.delay < 0.0))
    && (v.P().Nonneg(w) ==> v.P().Fits(w, b))
  }

  /** The batch is led by the highest ranked slot that is still free and fits the worker by itself. */
  ghost predicate LedByFirst(v: Service, w: Worker, candidates: Batch, used: set<Slot>, b: Batch) {
    && (b == [] <==> forall s | s in candidates && s !in used :: !v.P().Fits(w, [s]))
    && (b != [] ==>
          && b[0] !in used && v.P().Fits(w, [b[0]])
          && forall s | s in candidates && s !in used && v.P().Fits(w, [s]) :: !v.RankedBefore(w, s, b[0]))
  }

  /** The free slots that fit the worker by themselves, best ranked first. */
  ghost predicate Ranked(v: Service, w: Worker, candidates: Batch, used: set<Slot>, order: Batch) {
    && NoDup(order) && (forall s :: s in order <==> s in candidates && s !in used && v.P().Fits(w, [s]))
    && forall i, j | 0 <= i < j < |order| :: !v.RankedBefore(w, order[j], order[i])
  }

  /** The batch is what the deadlines leave of a first fit over those slots. */
  ghost predicate ServedAs(v: Service, w: Worker, candidates: Batch, used: set<Slot>, kept: Batch) {
    exists order, batch | Ranked(v, w, candidates, used, order) && Fitted(v.P(), w, order, batch) ::
      if batch == [] then kept == [] else v.DeadlinesOf(w).Filtered(batch, kept)
  }

  method ServeWorker(v: Service, w: Worker, candidates: Batch, used: set<Slot>) returns (kept: Batch)
    requires NoDup(candidates)
    ensures ServedAs(v, w, candidates, used, kept)
    ensures kept != [] ==> Serves(v, w, candidates, kept) && forall s | s in kept :: s !in used
    ensures LedByFirst(v, w, candidates, used, kept)
  {
    var eligible := Eligible(v, w, candidates, used);
    var order := StableSort(eligible, v.RankOrder(w));
    SameElements(order, eligible);
    RankFirst(v, w, eligible);
    RankAll(v, w, candidates, used);
    var batch := FirstFit(v.P(), w, order);
    if batch == [] { return []; }
    if v.delay >= 0.0 { FirstOnTime(v, w, batch[0]); }
    kept := v.DeadlinesOf(w).Filter(batch);
    KeptServes(v, w, candidates, order, batch, kept);
    assert kept[0] == order[0] && order[0] in order;
  }

  lemma KeptServes(v: Service, w: Worker, candidates: Batch, order: Batch, batch: Batch, kept: Batch)
    requires (forall s | s in order :: s in candidates) && Fitted(v.P(), w, order, batch)
    requires v.DeadlinesOf(w).Filtered(batch, kept) && (v.delay >= 0.0 ==> v.DeadlinesOf(w).OnTime([batch[0]]))
    ensures Serves(v, w, candidates, kept)
    ensures kept[0] == order[0] && forall s | s in kept :: s in order
  {
    WithinShorter(kept, batch);
    if v.P().Nonneg(w) { WithinFits(v.P(), w, kept, batch); }
  }

  lemma FirstOnTime(v: Service, w: Worker, s: Slot)
    requires v.delay >= 0.0
    ensures v.DeadlinesOf(w).OnTime([s])
  {
  }

  lemma RankFirst(v: Service, w: Worker, eligible: Batch)
    ensures var order := StableSort(eligible, v.RankOrder(w));
            order != [] ==> forall s | s in eligible :: !v.RankedBefore(w, s, order[0])
  {
    var before := v.RankOrder(w);
    RankByKey(v, w);
    StableSortOrdered(eligible, before);
    var order := StableSort(eligible, before);
    forall s | s in eligible && order != [] ensures !v.RankedBefore(w, s, order[0]) {
      assert s in multiset(eligible) && s in multiset(order);
      var j :| 0 <= j < |order| && order[j] == s;
      if j > 0 {
        assert !Before(before, order[j], order[0]);
      } else {
        RankStrict(v, w, s, s);
      }
    }
  }

  lemma RankAll(v: Service, w: Worker, candidates: Batch, used: set<Slot>)
    requires NoDup(candidates)
    ensures Ranked(v, w, candidates, used, StableSort(Eligible(v, w, candidates, used), v.RankOrder(w)))
  {
    var eligible := Eligible(v, w, candidates, used);
    var order := StableSort(eligible, v.RankOrder(w));
    RankByKey(v, w);
    StableSortOrdered(eligible, v.RankOrder(w));
    SameElements(order, eligible);
    forall i, j | 0 <= i < j < |order| ensures !v.RankedBefore(w, order[j], order[i]) {
      assert !Before(v.RankOrder(w), order[j], order[i]);
    }
  }

  lemma RankStrict(v: Service, w: Worker, a: Slot, b: Slot)
    ensures !(v.RankedBefore(w, a, b) && v.RankedBefore(w, b, a))
  {
    LexStrict(v.AgeGroup(a), v.AgeGroup(b));
    LexStrict(v.Rank(a), v.Rank(b));
  }

  lemma RankTransitive(v: Service, w: Worker, a: Slot, b: Slot, c: Slot)
    ensures !v.RankedBefore(w, b, a) && !v.RankedBefore(w, c, b) ==> !v.RankedBefore(w, c, a)
  {
    LexNotLess(v.AgeGroup(a), v.AgeGroup(b), v.AgeGroup(c));
    LexNotLess(v.Rank(a), v.Rank(b), v.Rank(c));
    LexTotal(v.AgeGroup(a), v.AgeGroup(b));
    LexTotal(v.AgeGroup(b), v.AgeGroup(c));
    LexStrict(v.AgeGroup(a), v.AgeGroup(a));
  }

  lemma RankByKey(v: Service, w: Worker)
    ensures ByKey(v.RankOrder(w))
  {
    var o := v.RankOrder(w);
    forall a: Slot, b: Slot | Before(o, a, b) ensures !Before(o, b, a) {
      RankStrict(v, w, a, b);
    }
    forall a: Slot, b: Slot, c: Slot | !Before(o, b, a) && !Before(o, c, b) ensures !Before(o, c, a) {
      RankTransitive(v, w, a, b, c);
    }
  }

  /** Every group serves its worker on time, and no request is in two groups. */
  ghost predicate GoodGroups(v: Service, candidates: Batch, workers: seq<Worker>, groups: Groups) {
    && (forall id | id in groups :: exists w | w in workers :: w.id == id && Serves(v, w, candidates, groups[id]))
    && forall a, b, s | a in groups && b in groups && s in groups[a] && s in groups[b] :: a == b
  }

  /**
   * ServiceIntervalPlanner::run. No request goes to two workers; every batch starts no later than each member's bound
   * plus the delay, unless the delay is negative and the batch is a single request, and a worker is left idle only when no request left over fits it by itself.
   */
  method Run(v: Service, candidates: Batch, workers: seq<Worker>) returns (groups: Groups)
    requires NoDup(candidates) && DistinctIds(workers)
    ensures GoodGroups(v, candidates, workers, groups)
    ensures IdleForAReason(v, candidates, workers, groups)
    ensures InTurn(v, candidates, workers, groups)
  {
    var byId := ById(workers);
    groups := map[];
    var used: set<Slot> := {};
    SameWorkers(workers, byId);
    IdsRise(workers);
    for i := 0 to |byId|
      invariant used == Slots(groups) && Served(v, candidates, byId[..i], groups)
    {
      groups, used := ServeNext(v, candidates, byId, i, groups, used);
    }
    assert byId[..|byId|] == byId;
    SameServed(v, candidates, byId, workers, groups);
  }

  /** What the workers with a lesser id have been given. */
  ghost function TakenBefore(groups: Groups, id: int): (taken: set<Slot>)
    ensures forall s :: s in taken <==> exists j | j in groups :: j < id && s in groups[j]
  {
    set j, s | j in groups && j < id && s in groups[j] :: s
  }

  /** The workers are served by increasing id, each from what those before it have left. */
  ghost predicate InTurn(v: Service, candidates: Batch, workers: seq<Worker>, groups: Groups) {
    forall w | w in workers :: TurnOf(v, candidates, w, groups)
  }

  ghost predicate TurnOf(v: Service, candidates: Batch, w: Worker, groups: Groups) {
    var b, taken := if w.id in groups then groups[w.id] else [], TakenBefore(groups, w.id);
    LedByFirst(v, w, candidates, taken, b) && ServedAs(v, w, candidates, taken, b)
  }

  lemma IdsRise(workers: seq<Worker>)
    requires DistinctIds(workers)
    ensures forall i, j | 0 <= i < j < |ById(workers)| :: ById(workers)[i].id < ById(workers)[j].id
  {
    var before := (a: Worker, b: Worker) => a.id < b.id;
    var sorted := StableSort(workers, before);
    assert ByKey(before) by {
      forall a: Worker, b: Worker | Before(before, a, b) ensures !Before(before, b, a) {}
      forall a: Worker, b: Worker, c: Worker | !Before(before, b, a) && !Before(before, c, b) ensures !Before(before, c, a) {}
    }
    StableSortOrdered(workers, before);
    assert sorted == ById(workers);
    SameWorkers(workers, sorted);
    forall i, j | 0 <= i < j < |sorted| ensures sorted[i].id < sorted[j].id {
      assert !Before(before, sorted[j], sorted[i]);
    }
  }

  lemma StillInTurn(v: Service, candidates: Batch, workers: seq<Worker>, i: nat, groups: Groups, batch: Batch)
    requires i < |workers| && GoodGroups(v, candidates, workers[..i], groups) && InTurn(v, candidates, workers[..i], groups)
    requires forall j, k | 0 <= j < k < |workers| :: workers[j].id < workers[k].id
    requires LedByFirst(v, workers[i], candidates, Slots(groups), batch) && ServedAs(v, workers[i], candidates, Slots(groups), batch)
    ensures InTurn(v, candidates, workers[..i + 1], if batch == [] then groups else groups[workers[i].id := batch])
  {
    var next := if batch == [] then groups else groups[workers[i].id := batch];
    var id := workers[i].id;
    forall j | j in groups ensures j < id {
      var w :| w in workers[..i] && w.id == j;
    }
    TakenByAll(groups, id, batch);
    forall w | w in workers[..i + 1] ensures TurnOf(v, candidates, w, next) {
      if w == workers[i] {
        TurnTaken(v, candidates, w, next, Slots(groups), batch);
      } else {
        assert w in workers[..i] && TurnOf(v, candidates, w, groups);
        TakenByFewer(groups, id, batch, w.id);
        TurnKept(v, candidates, w, groups, next);
      }
    }
  }

  lemma TakenByFewer(groups: Groups, id: int, batch: Batch, lesser: int)
    requires id !in groups && lesser < id
    ensures TakenBefore(groups[id := batch], lesser) == TakenBefore(groups, lesser)
  {
    var next := groups[id := batch];
    forall s ensures s in TakenBefore(next, lesser) <==> s in TakenBefore(groups, lesser) {
      assert forall j | j < lesser :: (j in next <==> j in groups) && (j in groups ==> next[j] == groups[j]);
    }
  }

  lemma TakenByAll(groups: Groups, id: int, batch: Batch)
    requires forall j | j in groups :: j < id
    ensures TakenBefore(groups, id) == Slots(groups) == TakenBefore(groups[id := batch], id)
  {
    var next := groups[id := batch];
    forall s ensures s in TakenBefore(groups, id) <==> s in Slots(groups) {
      if Placed(groups, s) { var j :| j in groups && s in groups[j]; }
    }
    forall s ensures s in TakenBefore(next, id) <==> s in Slots(groups) {
      if Placed(groups, s) { var j :| j in groups && s in groups[j]; assert j in next && s in next[j]; }
    }
  }

  lemma SlotsMore(groups: Groups, id: int, batch: Batch)
    requires id !in groups
    ensures Slots(groups[id := batch]) == Slots(groups) + set s | s in batch
  {
    forall s ensures s in Slots(groups[id := batch]) <==> s in Slots(groups) || s in batch { StillPlaced(groups, id, batch, s); }
  }

  lemma TurnTaken(v: Service, candidates: Batch, w: Worker, groups: Groups, used: set<Slot>, batch: Batch)
    requires LedByFirst(v, w, candidates, used, batch) && ServedAs(v, w, candidates, used, batch)
    requires TakenBefore(groups, w.id) == used && batch == if w.id in groups then groups[w.id] else []
    ensures TurnOf(v, candidates, w, groups)
  {
  }

  lemma TurnKept(v: Service, candidates: Batch, w: Worker, groups: Groups, next: Groups)
    requires TurnOf(v, candidates, w, groups) && TakenBefore(next, w.id) == TakenBefore(groups, w.id)
    requires (w.id in next <==> w.id in groups) && (w.id in groups ==> next[w.id] == groups[w.id])
    ensures TurnOf(v, candidates, w, next)
  {
  }

  ghost predicate Served(v: Service, candidates: Batch, workers: seq<Worker>, groups: Groups) {
    && GoodGroups(v, candidates, workers, groups) && IdleForAReason(v, candidates, workers, groups)
    && InTurn(v, candidates, workers, groups)
  }

  lemma SameServed(v: Service, candidates: Batch, a: seq<Worker>, b: seq<Worker>, groups: Groups)
    requires Served(v, candidates, a, groups) && forall w :: w in a <==> w in b
    ensures Served(v, candidates, b, groups)
  {
    forall id | id in groups ensures exists w | w in b :: w.id == id && Serves(v, w, candidates, groups[id]) {
      var w :| w in a && w.id == id && Serves(v, w, candidates, groups[id]);
      assert w in b;
    }
  }

  /** One round of the worker loop. */
  method ServeNext(v: Service, candidates: Batch, workers: seq<Worker>, i: nat, groups: Groups, used: set<Slot>)
    returns (next: Groups, nowUsed: set<Slot>)
    requires NoDup(candidates) && DistinctIds(workers) && i < |workers|
    requires used == Slots(groups) && Served(v, candidates, workers[..i], groups)
    requires forall j, k | 0 <= j < k < |workers| :: workers[j].id < workers[k].id
    ensures nowUsed == Slots(next) && Served(v, candidates, workers[..i + 1], next)
  {
    var w := workers[i];
    var batch := ServeWorker(v, w, candidates, used);
    next, nowUsed := groups, used;
    NextServed(v, candidates, workers, i, groups, batch);
    if batch != [] {
      next := groups[w.id := batch];
      nowUsed := used + set s | s in batch;
    }
  }

  lemma NextServed(v: Service, candidates: Batch, workers: seq<Worker>, i: nat, groups: Groups, batch: Batch)
    requires DistinctIds(workers) && i < |workers| && Served(v, candidates, workers[..i], groups)
    requires forall j, k | 0 <= j < k < |workers| :: workers[j].id < workers[k].id
    requires batch != [] ==> Serves(v, workers[i], candidates, batch) && forall s | s in batch :: s !in Slots(groups)
    requires LedByFirst(v, workers[i], candidates, Slots(groups), batch) && ServedAs(v, workers[i], candidates, Slots(groups), batch)
    ensures Served(v, candidates, workers[..i + 1], if batch == [] then groups else groups[workers[i].id := batch])
    ensures batch != [] ==> Slots(groups[workers[i].id := batch]) == Slots(groups) + set s | s in batch
  {
    FreshId(v, candidates, workers, i, groups);
    StillIdle(v, candidates, workers, i, groups, batch);
    StillInTurn(v, candidates, workers, i, groups, batch);
    if batch != [] {
      GroupAdded(v, candidates, workers, i, groups, batch);
      SlotsMore(groups, workers[i].id, batch);
    } else {
      NothingAdded(v, candidates, workers, i, groups);
    }
  }

  lemma FreshId(v: Service, candidates: Batch, workers: seq<Worker>, i: nat, groups: Groups)
    requires DistinctIds(workers) && i < |workers| && GoodGroups(v, candidates, workers[..i], groups)
    ensures workers[i].id !in groups
  {
  }

  lemma NothingAdded(v: Service, candidates: Batch, workers: seq<Worker>, i: nat, groups: Groups)
    requires i < |workers| && GoodGroups(v, candidates, workers[..i], groups)
    ensures GoodGroups(v, candidates, workers[..i + 1], groups)
  {
    assert workers[..i + 1] == workers[..i] + [workers[i]];
    forall id | id in groups
      ensures exists w | w in workers[..i + 1] :: w.id == id && Serves(v, w, candidates, groups[id])
    {
      var w :| w in workers[..i] && w.id == id && Serves(v, w, candidates, groups[id]);
      assert w in workers[..i + 1];
    }
  }

  /** Every worker passed over so far fits no request that is still free. */
  ghost predicate IdleForAReason(v: Service, candidates: Batch, workers: seq<Worker>, groups: Groups) {
    forall w, s | w in workers && w.id !in groups && s in candidates && !Placed(groups, s) :: !v.P().Fits(w, [s])
  }

  lemma StillPlaced(groups: Groups, id: int, batch: Batch, s: Slot)
    requires id !in groups
    ensures Placed(groups[id := batch], s) <==> Placed(groups, s) || s in batch
  {
    var next := groups[id := batch];
    if s in batch { assert s in next[id]; }
    if Placed(groups, s) {
      var i :| i in groups && s in groups[i];
      assert i in next && s in next[i];
    }
  }

  lemma StillIdle(v: Service, candidates: Batch, workers: seq<Worker>, i: nat, groups: Groups, batch: Batch)
    requires i < |workers| && IdleForAReason(v, candidates, workers[..i], groups)
    requires LedByFirst(v, workers[i], candidates, Slots(groups), batch)
    requires workers[i].id !in groups
    ensures IdleForAReason(v, candidates, workers[..i + 1], if batch == [] then groups else groups[workers[i].id := batch])
  {
    var next := if batch == [] then groups else groups[workers[i].id := batch];
    assert workers[..i + 1] == workers[..i] + [workers[i]];
    forall w, s | w in workers[..i + 1] && w.id !in next && s in candidates && !Placed(next, s)
      ensures !v.P().Fits(w, [s])
    {
      StillPlaced(groups, workers[i].id, batch, s);
      assert s !in Slots(groups);
    }
  }

  lemma GroupAdded(v: Service, candidates: Batch, workers: seq<Worker>, i: nat, groups: Groups, batch: Batch)
    requires DistinctIds(workers) && i < |workers| && GoodGroups(v, candidates, workers[..i], groups)
    requires Serves(v, workers[i], candidates, batch) && forall s | s in batch :: !Placed(groups, s)
    ensures GoodGroups(v, candidates, workers[..i + 1], groups[workers[i].id := batch])
    ensures forall s :: Placed(groups[workers[i].id := batch], s) <==> Placed(groups, s) || s in batch
  {
    var w, next := workers[i], groups[workers[i].id := batch];
    assert workers[..i + 1] == workers[..i] + [w];
    assert w.id !in groups;
    forall s ensures Placed(next, s) <==> Placed(groups, s) || s in batch { StillPlaced(groups, w.id, batch, s); }
    forall id | id in next ensures exists x | x in workers[..i + 1] :: x.id == id && Serves(v, x, candidates, next[id]) {
      if id == w.id {
        assert w in workers[..i + 1];
      } else {
        var x :| x in workers[..i] && x.id == id && Serves(v, x, candidates, groups[id]);
        assert x in workers[..i + 1];
      }
    }
  }
}
