/** Placement of ready requests on workers: greedy seeding, a menu of partitions, and the cheapest assignment. */
module Placement {
  import opened Assignment
  import opened Sorting

  type Slot = int
  type Batch = seq<Slot>
  type Menu = seq<Batch>
  type Groups = map<int, Batch>

  /** How far apart the readiness times of one batch may lie, in seconds. */
  const SLACK: real := 0.002

  datatype Request = Request(blocks: int, prompt: int, output: int, depth: int, maximum: int,
                             arrival: int, ready: int, admitted: int)
  {
    /** When the request began to wait: its ready time when it has one, else its admission time. */
    function Since(): int { if ready != 0 then ready else admitted }
  }

  datatype Limits = Limits(rows: int, blocks: int, tokens: int)

  datatype Worker = Worker(id: int, draft: bool, maxBatch: int, initial: Limits, prepare: Limits)

  datatype Prediction = Prediction(start: real, compute: real, cost: real)

  function Max(a: real, b: real): real { if a < b then b else a }

  function Min(a: real, b: real): real { if b < a then b else a }

  function MinInt(a: int, b: int): int { if a < b then a else b }

  function Count(b: Batch): multiset<Slot> { multiset(b) }

  /** Everything one planning call reads: requests, clocks, readiness times and the cost model. */
  datatype Planner = Planner(
    initial: bool, weight: real, nowNs: int,
    requests: map<Slot, Request>,
    time: Slot -> real,
    free: Worker -> real,
    predict: (Worker, multiset<Slot>) -> Prediction)
  {
    function R(s: Slot): Request {
      if s in requests then requests[s] else Request(0, 0, 0, 0, 0, 0, 0, 0)
    }

    function Tokens(w: Worker, s: Slot): int {
      var r := R(s);
      if !initial then r.depth + 1
      else if w.draft then r.prompt + r.output + MinInt(r.depth, r.maximum - r.output)
      else r.prompt
    }

    function TotalBlocks(b: Batch): int {
      if b == [] then 0 else TotalBlocks(b[..|b| - 1]) + R(b[|b| - 1]).blocks
    }

    function TotalTokens(w: Worker, b: Batch): int {
      if b == [] then 0 else TotalTokens(w, b[..|b| - 1]) + Tokens(w, b[|b| - 1])
    }

    /** No request has negative blocks or tokens. */
    ghost predicate Nonneg(w: Worker) {
      forall s :: R(s).blocks >= 0 && Tokens(w, s) >= 0
    }

    function LimitsOf(w: Worker): Limits { if initial then w.initial else w.prepare }

    /** The batch is within the worker's row, block and token limits for this stage. */
    predicate Fits(w: Worker, b: Batch) {
      |b| <= LimitsOf(w).rows && TotalBlocks(b) <= LimitsOf(w).blocks && TotalTokens(w, b) <= LimitsOf(w).tokens
    }

    predicate FitsSome(workers: seq<Worker>, b: Batch) {
      exists i | 0 <= i < |workers| :: Fits(workers[i], b)
    }

    /** The batch fits, no member would hold up an idle worker, and it is full or its oldest member's time has come. */
    predicate MayRun(w: Worker, b: Batch) {
      && (forall s, t | s in b && t in b :: time(s) <= Max(free(w), time(t)) + SLACK)
      && Fits(w, b)
      && (|b| == w.maxBatch || exists s | s in b :: R(s).Since() <= nowNs)
    }

    function Price(w: Worker, b: Batch): Cost {
      if MayRun(w, b) then
        var p := predict(w, Count(b));
        Allowed(p.cost + weight * p.compute)
      else Forbidden
    }

    function PriceRow(workers: seq<Worker>, b: Batch): (r: seq<Cost>)
      ensures |r| == |workers| && forall i | 0 <= i < |r| :: r[i] == Price(workers[i], b)
    {
      seq(|workers|, i requires 0 <= i < |workers| => Price(workers[i], b))
    }

    function PriceTable(workers: seq<Worker>, menu: Menu): (r: seq<seq<Cost>>)
      ensures |r| == |menu| && forall k | 0 <= k < |r| :: r[k] == PriceRow(workers, menu[k])
    {
      seq(|menu|, k requires 0 <= k < |menu| => PriceRow(workers, menu[k]))
    }

    /** The loop of Planner::fits. */
    method ComputeFits(w: Worker, b: Batch) returns (ok: bool)
      ensures ok == Fits(w, b)
    {
      var blocks, tokens := 0, 0;
      for i := 0 to |b|
        invariant blocks == TotalBlocks(b[..i]) && tokens == TotalTokens(w, b[..i])
      {
        assert b[..i + 1][..i] == b[..i];
        blocks, tokens := blocks + R(b[i]).blocks, tokens + Tokens(w, b[i]);
      }
      assert b[..|b|] == b;
      ok := |b| <= LimitsOf(w).rows && blocks <= LimitsOf(w).blocks && tokens <= LimitsOf(w).tokens;
    }

    /** The loop of Planner::allowed: earliest and latest readiness and the longest wait decide. */
    method ComputeMayRun(w: Worker, b: Batch) returns (ok: bool)
      requires b != []
      ensures ok == MayRun(w, b)
    {
      var lo, hi, oldest := time(b[0]), time(b[0]), R(b[0]).Since();
      for i := 1 to |b|
        invariant (forall j | 0 <= j < i :: lo <= time(b[j]) <= hi && oldest <= R(b[j]).Since())
        invariant (exists j | 0 <= j < i :: time(b[j]) == lo) && (exists j | 0 <= j < i :: time(b[j]) == hi)
        invariant exists j | 0 <= j < i :: R(b[j]).Since() == oldest
      {
        if time(b[i]) < lo { lo := time(b[i]); }
        if time(b[i]) > hi { hi := time(b[i]); }
        oldest := MinInt(oldest, R(b[i]).Since());
      }
      var fits := ComputeFits(w, b);
      ok := hi <= Max(free(w), lo) + SLACK && fits && (|b| == w.maxBatch || nowNs >= oldest);
    }
  }

  /**
   * What a request counts for on a worker. Setting up a draft worker takes the prompt with all of the output there can be
   * after this proposal, which is never beyond the request's maximum; setting up a target takes the prompt alone; a later
   * round takes the proposal and the token before it.
   */
  lemma TokensByRole(p: Planner, w: Worker, s: Slot)
    ensures p.initial && w.draft ==> p.Tokens(w, s) == p.R(s).prompt + MinInt(p.R(s).output + p.R(s).depth, p.R(s).maximum)
    ensures p.initial && !w.draft ==> p.Tokens(w, s) == p.R(s).prompt
    ensures !p.initial ==> p.Tokens(w, s) - 1 == p.R(s).depth
  {
  }

  // ---- Order-preserving partitions ----

  function Flatten(menu: Menu): Batch {
    if menu == [] then [] else Flatten(menu[..|menu| - 1]) + menu[|menu| - 1]
  }

  /** What lets a slot join an open batch: room under the cap, close readiness when that counts, and some worker for it. */
  datatype Rule = Rule(p: Planner, workers: seq<Worker>, cap: int, timed: bool) {
    predicate Compatible(b: Batch, s: Slot) {
      !timed || forall t, u | t in b + [s] && u in b + [s] :: p.time(t) <= p.time(u) + SLACK
    }

    predicate Joins(b: Batch, s: Slot) {
      |b| != cap && Compatible(b, s) && p.FitsSome(workers, b + [s])
    }

    /** Every member after the first was allowed to join those before it. */
    ghost predicate Grown(b: Batch) {
      b != [] && forall k | 0 < k < |b| :: Joins(b[..k], b[k])
    }

    /** The batches cut `order` into consecutive runs, each as long as the rule allows. */
    ghost predicate Cuts(menu: Menu, order: Batch) {
      && Flatten(menu) == order
      && (forall k | 0 <= k < |menu| :: Grown(menu[k]))
      && forall k | 0 < k < |menu| :: !Joins(menu[k - 1], menu[k][0])
    }
  }

  /** The next slot joins the last batch when it may, and opens a batch of its own when it may not. */
  function Place(rule: Rule, menu: Menu, s: Slot): (r: Menu)
    ensures r != [] && |menu| <= |r|
  {
    if menu != [] && rule.Joins(menu[|menu| - 1], s)
    then menu[..|menu| - 1] + [menu[|menu| - 1] + [s]]
    else menu + [[s]]
  }

  /** The greedy cut, slot by slot. */
  function GreedyCut(rule: Rule, order: Batch): (menu: Menu)
    ensures menu == [] <==> order == []
    decreases |order|
  {
    if order == [] then [] else Place(rule, GreedyCut(rule, order[..|order| - 1]), order[|order| - 1])
  }

  /**
   * The batching loop of Planner::partitions. It returns the greedy cut of the whole order, or gives up, and it
   * gives up only when the greedy cut needs more batches than there are workers.
   */
  method Cut(rule: Rule, order: Batch) returns (menu: Menu, complete: bool)
    requires rule.workers != []
    ensures complete <==> |GreedyCut(rule, order)| <= |rule.workers|
    ensures complete ==> menu == GreedyCut(rule, order)
  {
    menu, complete := [], true;
    var batch: Batch := [];
    var lo, hi := 0.0, 0.0;
    for i := 0 to |order|
      invariant OpenCut(rule, order, i, menu, batch, lo, hi)
    {
      complete, menu, batch, lo, hi := CutOne(rule, order, i, menu, batch, lo, hi);
      if !complete { return; }
    }
    WholeOrder(order);
    if batch != [] { menu := menu + [batch]; }
  }

  lemma WholeOrder(order: Batch)
    ensures order[..|order|] == order
  {
  }

  /** The closed batches and the open one, with its extremes, are the greedy cut of the slots so far. */
  ghost predicate OpenCut(rule: Rule, order: Batch, i: nat, menu: Menu, batch: Batch, lo: real, hi: real) {
    && i <= |order| && (batch == [] <==> i == 0) && (batch == [] ==> menu == [])
    && (batch != [] ==> |menu| < |rule.workers| && GreedyCut(rule, order[..i]) == menu + [batch] && Spans(rule.p, batch, lo, hi))
  }

  /** One slot of the loop; it gives up when the batches closed are as many as the workers. */
  method CutOne(rule: Rule, order: Batch, i: nat, menu: Menu, batch: Batch, lo: real, hi: real)
    returns (ok: bool, menu': Menu, next: Batch, low: real, high: real)
    requires rule.workers != [] && i < |order| && OpenCut(rule, order, i, menu, batch, lo, hi)
    ensures ok ==> OpenCut(rule, order, i + 1, menu', next, low, high)
    ensures !ok ==> |GreedyCut(rule, order)| > |rule.workers|
  {
    var joins;
    joins, next, low, high := Advance(rule, order, i, menu, batch, lo, hi);
    ok, menu' := true, menu;
    if !joins && batch != [] {
      menu' := menu + [batch];
      ok := |menu'| < |rule.workers|;
      GreedyCutGrows(rule, order, i + 1);
    }
  }

  /** One round of the loop: does the slot join the open batch, and what readiness does the batch then span? */
  method Advance(rule: Rule, order: Batch, i: nat, menu: Menu, batch: Batch, lo: real, hi: real)
    returns (joins: bool, next: Batch, low: real, high: real)
    requires i < |order| && GreedyCut(rule, order[..i]) == if batch == [] then [] else menu + [batch]
    requires batch != [] ==> Spans(rule.p, batch, lo, hi)
    ensures (joins ==> batch != []) && next != []
    ensures GreedyCut(rule, order[..i + 1]) == if batch == [] then [next] else if joins then menu + [next] else menu + [batch] + [next]
    ensures Spans(rule.p, next, low, high)
  {
    var s, t := order[i], rule.p.time(order[i]);
    CutStep(rule, order, i, menu, batch);
    joins, low, high := TryJoin(rule, batch, s, lo, hi);
    next := if joins then batch + [s] else [s];
    if !joins {
      low, high := t, t;
      assert s in [s];
    }
  }

  /** May the slot join the open batch, and what readiness would the batch then span? */
  method TryJoin(rule: Rule, batch: Batch, s: Slot, lo: real, hi: real) returns (joins: bool, low: real, high: real)
    requires batch != [] ==> Spans(rule.p, batch, lo, hi)
    ensures joins <==> batch != [] && rule.Joins(batch, s)
    ensures joins ==> Spans(rule.p, batch + [s], low, high)
  {
    var t := rule.p.time(s);
    low, high := Min(lo, t), Max(hi, t);
    var fits := FitsAny(rule.p, rule.workers, batch + [s]);
    if batch == [] { return false, low, high; }
    SpansDecide(rule, batch, s, lo, hi);
    var compatible := !rule.timed || high - low <= SLACK;
    joins := !(|batch| == rule.cap || !compatible || !fits);
  }

  lemma CutStep(rule: Rule, order: Batch, i: nat, menu: Menu, batch: Batch)
    requires i < |order| && GreedyCut(rule, order[..i]) == if batch == [] then [] else menu + [batch]
    ensures GreedyCut(rule, order[..i + 1]) ==
            if batch == [] then [[order[i]]]
            else if rule.Joins(batch, order[i]) then menu + [batch + [order[i]]]
            else menu + [batch] + [[order[i]]]
  {
    assert order[..i + 1][..i] == order[..i] && order[..i + 1][i] == order[i];
    assert batch != [] ==> (menu + [batch])[..|menu|] == menu;
  }

  method FitsAny(p: Planner, workers: seq<Worker>, b: Batch) returns (any: bool)
    ensures any == p.FitsSome(workers, b)
  {
    any := false;
    for i := 0 to |workers|
      invariant !any && forall j | 0 <= j < i :: !p.Fits(workers[j], b)
    {
      var fits := p.ComputeFits(workers[i], b);
      if fits { return true; }
    }
  }

  /** `lo` and `hi` are the earliest and the latest readiness in the batch. */
  ghost predicate Spans(p: Planner, b: Batch, lo: real, hi: real) {
    && (forall t | t in b :: lo <= p.time(t) <= hi)
    && (exists t | t in b :: p.time(t) == lo) && exists t | t in b :: p.time(t) == hi
  }

  /** The two extremes decide whether a slot is close enough to every member. */
  lemma SpansDecide(rule: Rule, b: Batch, s: Slot, lo: real, hi: real)
    requires Spans(rule.p, b, lo, hi)
    ensures var t := rule.p.time(s);
            && rule.Compatible(b, s) == (!rule.timed || Max(hi, t) - Min(lo, t) <= SLACK)
            && Spans(rule.p, b + [s], Min(lo, t), Max(hi, t))
  {
    var p, all := rule.p, b + [s];
    var low :| low in b && p.time(low) == lo;
    var high :| high in b && p.time(high) == hi;
    assert s in all && low in all && high in all;
    var first := if p.time(s) < lo then s else low;
    var last := if hi < p.time(s) then s else high;
    assert p.time(first) == Min(lo, p.time(s)) && p.time(last) == Max(hi, p.time(s));
  }

  /** Cutting more of an order never takes fewer batches. */
  lemma {:induction false} GreedyCutGrows(rule: Rule, order: Batch, n: nat)
    requires n <= |order|
    ensures |GreedyCut(rule, order[..n])| <= |GreedyCut(rule, order)|
    decreases |order|
  {
    if n == |order| {
      assert order[..n] == order;
    } else {
      var shorter := order[..|order| - 1];
      assert shorter[..n] == order[..n];
      GreedyCutGrows(rule, shorter, n);
    }
  }

  lemma GrowCut(rule: Rule, menu: Menu, batch: Batch, s: Slot, order: Batch)
    requires batch != [] && rule.Cuts(menu + [batch], order) && rule.Joins(batch, s)
    ensures rule.Cuts(menu + [batch + [s]], order + [s])
  {
    var old', now, grown := menu + [batch], menu + [batch + [s]], batch + [s];
    assert old'[..|menu|] == menu && now[..|menu|] == menu;
    assert Flatten(now) == order + [s];
    assert rule.Grown(old'[|menu|]);
    forall k | 0 < k < |grown| ensures rule.Joins(grown[..k], grown[k]) {
      assert grown[..k] == batch[..k];
      if k == |batch| {
        assert batch[..k] == batch;
      }
    }
    forall k | 0 <= k < |now| ensures rule.Grown(now[k]) { assert rule.Grown(old'[k]); }
    forall k | 0 < k < |now| ensures !rule.Joins(now[k - 1], now[k][0]) {
      assert rule.Grown(old'[k]) && !rule.Joins(old'[k - 1], old'[k][0]);
    }
  }

  lemma NextCut(rule: Rule, menu: Menu, s: Slot, order: Batch)
    requires rule.Cuts(menu, order) && (menu == [] || !rule.Joins(menu[|menu| - 1], s))
    ensures rule.Cuts(menu + [[s]], order + [s])
  {
    assert (menu + [[s]])[..|menu|] == menu;
  }

  /** The greedy cut is a cut of its order into runs that are as long as the rule allows. */
  lemma {:induction false} GreedyCutCuts(rule: Rule, order: Batch)
    ensures rule.Cuts(GreedyCut(rule, order), order)
    decreases |order|
  {
    if order != [] {
      var shorter, s := order[..|order| - 1], order[|order| - 1];
      assert order == shorter + [s];
      GreedyCutCuts(rule, shorter);
      var rest := GreedyCut(rule, shorter);
      if rest != [] && rule.Joins(rest[|rest| - 1], s) {
        assert rest == rest[..|rest| - 1] + [rest[|rest| - 1]] && rule.Grown(rest[|rest| - 1]);
        GrowCut(rule, rest[..|rest| - 1], rest[|rest| - 1], s, shorter);
      } else {
        NextCut(rule, rest, s, shorter);
      }
    }
  }

  lemma CutEnds(rule: Rule, menu: Menu, order: Batch)
    requires rule.Cuts(menu, order)
    ensures menu == [] <==> order == []
    ensures menu != [] ==>
              var head, last := menu[..|menu| - 1], menu[|menu| - 1];
              && last != [] && order[|order| - 1] == last[|last| - 1]
              && order[..|order| - 1] == Flatten(head) + last[..|last| - 1]
  {
    if menu != [] {
      var head, last := menu[..|menu| - 1], menu[|menu| - 1];
      assert rule.Grown(last) && order == Flatten(head) + last;
    }
  }

  lemma CutHead(rule: Rule, menu: Menu, order: Batch)
    requires menu != [] && rule.Cuts(menu, order)
    ensures rule.Cuts(menu[..|menu| - 1], Flatten(menu[..|menu| - 1]))
  {
    var head := menu[..|menu| - 1];
    forall k | 0 <= k < |head| ensures rule.Grown(head[k]) { assert rule.Grown(menu[k]); }
    forall k | 0 < k < |head| ensures !rule.Joins(head[k - 1], head[k][0]) {
      assert rule.Grown(menu[k]) && !rule.Joins(menu[k - 1], menu[k][0]);
    }
  }

  lemma CutShorter(rule: Rule, head: Menu, last: Batch, order: Batch)
    requires |last| > 1 && rule.Cuts(head + [last], order)
    ensures rule.Cuts(head + [last[..|last| - 1]], Flatten(head) + last[..|last| - 1])
    ensures rule.Joins(last[..|last| - 1], last[|last| - 1])
  {
    var n, short, menu := |last| - 1, last[..|last| - 1], head + [last];
    var rest := head + [short];
    assert rule.Grown(menu[|head|]) && rest[..|head|] == head;
    forall k | 0 < k < |short| ensures rule.Joins(short[..k], short[k]) {
      assert short[..k] == last[..k];
    }
    forall k | 0 <= k < |rest| ensures rule.Grown(rest[k]) { assert rule.Grown(menu[k]); }
    forall k | 0 < k < |rest| ensures !rule.Joins(rest[k - 1], rest[k][0]) {
      assert rule.Grown(menu[k]) && !rule.Joins(menu[k - 1], menu[k][0]);
    }
  }

  /** Every cut arises by placing the last slot on a cut of the slots before it. */
  lemma Unplace(rule: Rule, menu: Menu, order: Batch) returns (rest: Menu)
    requires rule.Cuts(menu, order) && order != []
    ensures rule.Cuts(rest, order[..|order| - 1]) && menu == Place(rule, rest, order[|order| - 1])
  {
    CutEnds(rule, menu, order);
    var m := |menu| - 1;
    var head, last := menu[..m], menu[m];
    if |last| == 1 {
      CutHead(rule, menu, order);
      rest := head;
      assert last[..0] == [] && last == [order[|order| - 1]] && order[..|order| - 1] == Flatten(head);
      assert m > 0 ==> !rule.Joins(menu[m - 1], menu[m][0]);
    } else {
      assert menu == head + [last];
      CutShorter(rule, head, last, order);
      var short := last[..|last| - 1];
      rest := head + [short];
      assert rest[..m] == head && last == short + [order[|order| - 1]];
    }
  }

  /** It is the only such cut. */
  lemma {:induction false} OnlyCut(rule: Rule, menu: Menu, order: Batch)
    requires rule.Cuts(menu, order)
    ensures menu == GreedyCut(rule, order)
    decreases |order|
  {
    CutEnds(rule, menu, order);
    if order != [] {
      var rest := Unplace(rule, menu, order);
      OnlyCut(rule, rest, order[..|order| - 1]);
    }
  }
}
