/** The strict first-come-first-served scheduler: prefill, preemption and swap-in over three queues. */
module FcfsScheduler {
  import opened Wrappers
  import opened Sorting
  import opened BlockMath

  datatype Proposal = NoProposal | Linear(width: nat) | Block(width: nat)

  datatype Req = Req(prompt: nat, output: nat, finished: bool, proposal: Proposal, id: int) {
    predicate Prefilling() { output == 0 }

    /** The blocks that the request needs for its next iteration. A block proposal's width is not counted. */
    function Needed(size: nat): nat
      requires size > 0
    {
      Blocks(prompt + output + if proposal.Linear? then proposal.width else 0, size)
    }

    function Width(): nat {
      if Prefilling() then prompt else if proposal.Linear? then 1 + proposal.width else 1
    }

    function Rows(): (n: nat)
      ensures n >= 1
    {
      if Prefilling() then 1 else if proposal.Linear? then 1 + proposal.width else 1
    }
  }

  /**
   * The three measures of an iteration agree. A decoding request runs one row for each token of its width, the first of
   * which is its last output token; its blocks reach the last of these positions and no block further. A prefill is one
   * row as wide as the prompt, and its blocks reach that far and through a linear proposal that comes with it.
   */
  lemma IterationFits(r: Req, size: nat)
    requires size > 0
    ensures !r.Prefilling() ==> r.Rows() == r.Width()
    ensures !r.Prefilling() ==> r.prompt + r.output - 1 + r.Width() <= Span(r.Needed(size), size) < r.prompt + r.output - 1 + r.Width() + size
    ensures r.Prefilling() ==> r.Rows() == 1 && r.Width() <= Span(r.Needed(size), size)
    ensures r.Prefilling() && !r.proposal.Linear? ==> Span(r.Needed(size), size) < r.Width() + size
    ensures r.proposal.Linear? ==> r.prompt + r.output + r.proposal.width <= Span(r.Needed(size), size) < r.prompt + r.output + r.proposal.width + size
  {
    BlocksCover(r.prompt + r.output + if r.proposal.Linear? then r.proposal.width else 0, size);
  }

  type Key = int

  function Total(w: Key -> nat, q: seq<Key>): nat {
    if q == [] then 0 else Total(w, q[..|q| - 1]) + w(q[|q| - 1])
  }

  lemma TotalMore(w: Key -> nat, q: seq<Key>, k: Key)
    ensures Total(w, q + [k]) == Total(w, q) + w(k)
  {
    assert (q + [k])[..|q|] == q;
  }

  lemma {:induction false} TotalBoth(w: Key -> nat, a: seq<Key>, b: seq<Key>)
    ensures Total(w, a + b) == Total(w, a) + Total(w, b)
  {
    if b == [] {
      assert a + b == a;
    } else {
      TotalBoth(w, a, b[..|b| - 1]);
      assert (a + b)[..|a + b| - 1] == a + b[..|b| - 1];
    }
  }

  lemma {:induction false} TotalAtLeast(w: Key -> nat, q: seq<Key>)
    requires forall k | k in q :: w(k) >= 1
    ensures Total(w, q) >= |q|
  {
    if q != [] {
      var n, k := |q| - 1, q[|q| - 1];
      assert k in q && w(k) >= 1;
      TotalAtLeast(w, q[..n]);
      assert Total(w, q) == Total(w, q[..n]) + w(k);
    }
  }

  lemma {:induction false} TotalSame(v: Key -> nat, w: Key -> nat, q: seq<Key>)
    requires forall k | k in q :: v(k) == w(k)
    ensures Total(v, q) == Total(w, q)
  {
    if q != [] {
      var n, k := |q| - 1, q[|q| - 1];
      assert k in q && v(k) == w(k);
      TotalSame(v, w, q[..n]);
      assert Total(v, q) == Total(v, q[..n]) + v(k) && Total(w, q) == Total(w, q[..n]) + w(k);
    }
  }

  /** Of two weights of which one is nowhere smaller, the totals agree only if the weights do. */
  lemma {:induction false} TotalNoMore(v: Key -> nat, w: Key -> nat, q: seq<Key>)
    requires forall k | k in q :: v(k) <= w(k)
    ensures Total(v, q) <= Total(w, q) && (Total(v, q) == Total(w, q) <==> forall k | k in q :: v(k) == w(k))
  {
    if q != [] {
      var n, k := |q| - 1, q[|q| - 1];
      assert k in q && v(k) <= w(k) && q == q[..n] + [k];
      TotalNoMore(v, w, q[..n]);
      assert Total(v, q) == Total(v, q[..n]) + v(k) && Total(w, q) == Total(w, q[..n]) + w(k);
    }
  }

  lemma {:induction false} TotalWithout(w: Key -> nat, q: seq<Key>, done: set<Key>)
    ensures Total(w, Without(q, done)) <= Total(w, q)
  {
    if q != [] {
      var n, k := |q| - 1, q[|q| - 1];
      TotalWithout(w, q[..n], done);
      if k in done {
        assert Without(q, done) == Without(q[..n], done);
      } else {
        TotalMore(w, Without(q[..n], done), k);
      }
    }
  }

  function RowsIn(reqs: map<Key, Req>): Key -> nat {
    k => if k in reqs then reqs[k].Rows() else 1
  }

  function WidthIn(reqs: map<Key, Req>): Key -> nat {
    k => if k in reqs then reqs[k].Width() else 0
  }

  function NeededIn(reqs: map<Key, Req>, size: nat): Key -> nat
    requires size > 0
  {
    k => if k in reqs && size > 0 then reqs[k].Needed(size) else 0
  }

  function HeldIn(held: map<Key, nat>): Key -> nat {
    k => if k in held then held[k] else 0
  }

  /** Every live request has a row id of its own, and the other ids are free. */
  ghost predicate IdsOk(ids: map<Key, int>, free: seq<int>, live: seq<Key>, maxSeqs: nat) {
    && |free| + |live| == maxSeqs && NoDup(free)
    && (forall x | x in free :: 0 <= x < maxSeqs)
    && (forall k | k in live :: k in ids && 0 <= ids[k] < maxSeqs && ids[k] !in free)
    && forall i, j | 0 <= i < j < |live| :: ids[live[i]] != ids[live[j]]
  }

  lemma GiveId(ids: map<Key, int>, free: seq<int>, live: seq<Key>, maxSeqs: nat, k: Key)
    requires IdsOk(ids, free, live, maxSeqs) && free != [] && k !in live
    ensures IdsOk(ids[k := free[|free| - 1]], free[..|free| - 1], live + [k], maxSeqs)
  {
    var n := |free| - 1;
    assert free == free[..n] + [free[n]] && free[n] in free;
    NoDupSplit(free[..n], [free[n]]);
    var now, all := ids[k := free[n]], live + [k];
    assert NoDup(free[..n]) && free[n] !in free[..n] by { assert free[n] in [free[n]]; }
    forall x | x in free[..n] ensures 0 <= x < maxSeqs { assert x in free; }
    forall x | x in all ensures x in now && 0 <= now[x] < maxSeqs && now[x] !in free[..n] {
      if x != k {
        assert x in live && ids[x] !in free;
        assert forall y | y in free[..n] :: y in free;
      }
    }
    forall i, j | 0 <= i < j < |all| ensures now[all[i]] != now[all[j]] {
      assert all[i] == live[i] && live[i] in live;
      if j < |live| {
        assert all[j] == live[j] && live[j] in live && ids[live[i]] != ids[live[j]];
      } else {
        assert all[j] == k && ids[live[i]] !in free;
      }
    }
  }

  lemma TakeIdBack(ids: map<Key, int>, free: seq<int>, before: seq<Key>, k: Key, after: seq<Key>, maxSeqs: nat)
    requires IdsOk(ids, free, before + [k] + after, maxSeqs)
    ensures ids[k] !in free && 0 <= ids[k] < maxSeqs && IdsOk(ids, free + [ids[k]], before + after, maxSeqs)
  {
    var live, rest := before + [k] + after, before + after;
    assert live[|before|] == k && k in live;
    NoDupSplit(free, [ids[k]]);
    forall x | x in rest ensures x in ids && 0 <= ids[x] < maxSeqs && ids[x] !in free + [ids[k]] {
      var i :| 0 <= i < |rest| && rest[i] == x;
      var j := if i < |before| then i else i + 1;
      assert live[j] == x && j != |before|;
      assert x in live;
      assert j < |before| || |before| < j;
    }
    forall i, j | 0 <= i < j < |rest| ensures ids[rest[i]] != ids[rest[j]] {
      var x := if i < |before| then i else i + 1;
      var y := if j < |before| then j else j + 1;
      assert live[x] == rest[i] && live[y] == rest[j] && x < y;
    }
  }

  /** No request is lost or duplicated, and the three queues together are in arrival order. */
  ghost predicate InOrder(running: seq<Key>, swapped: seq<Key>, waiting: seq<Key>, arrived: seq<Key>, done: set<Key>) {
    NoDup(arrived) && running + swapped + waiting == Without(arrived, done)
  }

  ghost predicate Known(keys: seq<Key>, reqs: map<Key, Req>) {
    forall k | k in keys :: k in reqs
  }

  class Scheduler {
    const gpuBlocks: nat
    const blockSize: nat
    const maxBatch: nat
    const maxTokens: nat
    const maxSeqs: nat
    var reqs: map<Key, Req>
    var waiting: seq<Key>
    var running: seq<Key>
    var swapped: seq<Key>
    var numDecoding: int
    var ids: map<Key, int>
    var freeIds: seq<int>
    ghost var arrived: seq<Key>
    ghost var done: set<Key>
    /** Blocks that a request was counted with when it was last launched. */
    ghost var held: map<Key, nat>
    /** Blocks still counted for requests that have finished since the count was last taken. */
    ghost var left: int

    ghost predicate Valid()
      reads this
    {
      && blockSize > 0 && InOrder(running, swapped, waiting, arrived, done) && Known(arrived, reqs)
      && Total(HeldIn(held), running) + left == numDecoding && left >= 0
      && IdsOk(ids, freeIds, running + swapped, maxSeqs)
    }

    constructor (gpuBlocks: nat, blockSize: nat, maxBatch: nat, maxTokens: nat, maxSeqs: nat, free: seq<int>)
      requires blockSize > 0 && |free| == maxSeqs && NoDup(free) && forall x | x in free :: 0 <= x < maxSeqs
      ensures Valid() && running == swapped == waiting == arrived == [] && done == {} && numDecoding == 0 && freeIds == free && reqs == map[]
      ensures this.gpuBlocks == gpuBlocks && this.blockSize == blockSize && this.maxBatch == maxBatch
      ensures this.maxTokens == maxTokens && this.maxSeqs == maxSeqs
    {
      this.gpuBlocks, this.blockSize, this.maxBatch, this.maxTokens, this.maxSeqs := gpuBlocks, blockSize, maxBatch, maxTokens, maxSeqs;
      reqs, waiting, running, swapped, numDecoding := map[], [], [], [], 0;
      ids, freeIds, arrived, done, held, left := map[], free, [], {}, map[], 0;
    }

    /** on_requests_arrival. */
    method Arrive(keys: seq<Key>, news: map<Key, Req>)
      requires Valid() && NoDup(arrived + keys) && Known(keys, news) && forall k | k in keys :: k !in done
      modifies `reqs, `waiting, `arrived
      ensures Valid() && waiting == old(waiting) + keys && arrived == old(arrived) + keys && reqs == old(reqs) + news
    {
      ArriveOrder(running, swapped, waiting, arrived, keys, done);
      ArriveKnown(arrived, keys, reqs, news);
      Enqueue(reqs + news, waiting + keys, arrived + keys);
    }

    method Enqueue(all: map<Key, Req>, queue: seq<Key>, ghost known: seq<Key>)
      requires blockSize > 0 && InOrder(running, swapped, queue, known, done) && Known(known, all)
      requires Total(HeldIn(held), running) + left == numDecoding && left >= 0 && IdsOk(ids, freeIds, running + swapped, maxSeqs)
      modifies `reqs, `waiting, `arrived
      ensures Valid() && reqs == all && waiting == queue && arrived == known
    {
      reqs, waiting, arrived := all, queue, known;
    }

    /** Whatever an iteration does to the requests, the queues do not notice. */
    method Iterate(now: map<Key, Req>)
      requires Valid() && now.Keys == reqs.Keys
      modifies `reqs
      ensures Valid() && reqs == now
    {
      reqs := now;
    }

    // ---- The block count between launches ----

    /** Every running request needs at least the blocks that it was counted with. */
    ghost predicate OnlyGrown()
      reads this
      requires blockSize > 0
    {
      forall k | k in running :: HeldIn(held)(k) <= NeededIn(reqs, blockSize)(k)
    }

    /**
     * When the stored count is the sum over the running requests, as its comment says that it always is. It is exactly when
     * what the running requests have grown by makes up for what finished ones are still counted with; when nothing has
     * finished since the count was taken, exactly when no running request has grown into another block.
     */
    lemma CountIsSum()
      requires Valid() && OnlyGrown()
      ensures numDecoding == Total(NeededIn(reqs, blockSize), running)
              <==> Total(NeededIn(reqs, blockSize), running) - Total(HeldIn(held), running) == left
      ensures left == 0 ==>
                (numDecoding == Total(NeededIn(reqs, blockSize), running)
                 <==> forall k | k in running :: NeededIn(reqs, blockSize)(k) == HeldIn(held)(k))
    {
      TotalNoMore(HeldIn(held), NeededIn(reqs, blockSize), running);
    }

    /** The limits on one prefill batch beside what is running. */
    ghost predicate PrefillFits(batch: seq<Key>)
      reads this`reqs, this`running, this`numDecoding
      requires blockSize > 0
    {
      && Total(RowsIn(reqs), running) + Total(RowsIn(reqs), batch) <= maxBatch
      && Total(NeededIn(reqs, blockSize), batch) + numDecoding <= gpuBlocks
      && Total(WidthIn(reqs), batch) <= maxTokens
    }

    /** How many requests at the front of the queue a prefill batch takes, when it has the first n. */
    ghost function Front(queue: seq<Key>, n: nat): (size: nat)
      reads this`reqs, this`running, this`numDecoding
      requires blockSize > 0 && n <= |queue|
      ensures n <= size <= |queue|
      decreases |queue| - n
    {
      if n < |queue| && PrefillFits(queue[..n + 1]) then Front(queue, n + 1) else n
    }

    method SumOver(w: Key -> nat) returns (n: nat)
      ensures n == Total(w, running)
    {
      n := 0;
      for i := 0 to |running|
        invariant n == Total(w, running[..i])
      {
        TotalMore(w, running[..i], running[i]);
        assert running[..i + 1] == running[..i] + [running[i]];
        n := n + w(running[i]);
      }
      assert running[..|running|] == running;
    }

    ghost predicate Tallied(batch: seq<Key>, blocks: nat, width: nat, rows: nat)
      reads this`reqs
      requires blockSize > 0
    {
      && blocks == Total(NeededIn(reqs, blockSize), batch) && width == Total(WidthIn(reqs), batch) && rows == Total(RowsIn(reqs), batch)
    }

    /** The prefill loop: the longest prefix of the waiting queue that fits. */
    method TakePrefill() returns (batch: seq<Key>, blocks: nat)
      requires Valid() && swapped == []
      modifies `waiting
      ensures batch + waiting == old(waiting) && blocks == Total(NeededIn(reqs, blockSize), batch)
      ensures (batch != [] ==> PrefillFits(batch)) && |batch| == Front(old(waiting), 0)
    {
      batch, blocks := [], 0;
      var width, rows, more := 0, 0, true;
      ghost var queue := waiting;
      while more && waiting != []
        invariant Taking(queue, batch, blocks, width, rows, more)
        decreases |waiting|, more
      {
        more, batch, blocks, width, rows := TakeNext(queue, batch, blocks, width, rows);
      }
    }

    /** In the middle of the prefill loop: the batch and the queue behind it, and how far the batch can go. */
    ghost predicate Taking(queue: seq<Key>, batch: seq<Key>, blocks: nat, width: nat, rows: nat, more: bool)
      reads this`reqs, this`running, this`numDecoding, this`waiting
      requires blockSize > 0
    {
      && batch + waiting == queue && Tallied(batch, blocks, width, rows) && (batch != [] ==> PrefillFits(batch))
      && Front(queue, 0) == if more then Front(queue, |batch|) else |batch|
    }

    method TakeNext(ghost queue: seq<Key>, batch: seq<Key>, blocks: nat, width: nat, rows: nat)
      returns (more: bool, next: seq<Key>, blocks': nat, width': nat, rows': nat)
      requires blockSize > 0 && waiting != [] && Taking(queue, batch, blocks, width, rows, true)
      modifies `waiting
      ensures Taking(queue, next, blocks', width', rows', more)
      ensures if more then |waiting| < |old(waiting)| else waiting == old(waiting)
    {
      FrontStep(queue, batch, waiting);
      more, blocks', width', rows' := TakeOne(batch, blocks, width, rows);
      next := batch;
      if more {
        MoveHead(batch, waiting);
        next, waiting := batch + [waiting[0]], waiting[1..];
      }
    }

    lemma FrontStep(queue: seq<Key>, batch: seq<Key>, rest: seq<Key>)
      requires blockSize > 0 && queue == batch + rest && rest != []
      ensures Front(queue, |batch|) == if PrefillFits(batch + [rest[0]]) then Front(queue, |batch| + 1) else |batch|
    {
      assert queue[..|batch| + 1] == batch + [rest[0]];
    }

    /** Whether the next waiting request fits behind the batch, and the tallies with it. */
    method TakeOne(batch: seq<Key>, blocks: nat, width: nat, rows: nat) returns (ok: bool, blocks': nat, width': nat, rows': nat)
      requires blockSize > 0 && waiting != [] && Tallied(batch, blocks, width, rows)
      ensures ok == PrefillFits(batch + [waiting[0]])
      ensures if ok then Tallied(batch + [waiting[0]], blocks', width', rows') else Tallied(batch, blocks', width', rows')
    {
      var k := waiting[0];
      var ahead := SumOver(RowsIn(reqs));
      var n, r, w := NeededIn(reqs, blockSize)(k), RowsIn(reqs)(k), WidthIn(reqs)(k);
      TotalMore(NeededIn(reqs, blockSize), batch, k);
      TotalMore(RowsIn(reqs), batch, k);
      TotalMore(WidthIn(reqs), batch, k);
      ok := rows + r <= maxBatch && ahead + rows + r <= maxBatch && blocks + n + numDecoding <= gpuBlocks && width + w <= maxTokens;
      blocks', width', rows' := if ok then blocks + n else blocks, if ok then width + w else width, if ok then rows + r else rows;
    }

    /** Row ids for the batch; it stops at the first request for which none is left. */
    method GiveIds(batch: seq<Key>) returns (ok: bool)
      requires IdsOk(ids, freeIds, running + swapped, maxSeqs) && NoDup(running + swapped + batch)
      modifies `ids, `freeIds
      ensures ok <==> |batch| <= old(|freeIds|)
      ensures ok ==> IdsOk(ids, freeIds, running + swapped + batch, maxSeqs)
    {
      var live := running + swapped;
      for i := 0 to |batch|
        invariant IdsOk(ids, freeIds, live + batch[..i], maxSeqs) && i <= old(|freeIds|)
        invariant |freeIds| == old(|freeIds|) - i
      {
        if freeIds == [] { return false; }
        NewKey(live, batch, i);
        GiveId(ids, freeIds, live + batch[..i], maxSeqs, batch[i]);
        assert live + batch[..i + 1] == live + batch[..i] + [batch[i]];
        ids, freeIds := ids[batch[i] := freeIds[|freeIds| - 1]], freeIds[..|freeIds| - 1];
      }
      assert batch[..|batch|] == batch;
      ok := true;
    }

    /** Launch a prefill batch. It fails when there are fewer free ids than requests in it. */
    method LaunchPrefill(batch: seq<Key>, blocks: nat) returns (ok: bool)
      requires blockSize > 0 && swapped == [] && batch != [] && PrefillFits(batch) && blocks == Total(NeededIn(reqs, blockSize), batch)
      requires InOrder(running, swapped, batch + waiting, arrived, done) && Known(arrived, reqs)
      requires Total(HeldIn(held), running) + left == numDecoding && left >= 0 && IdsOk(ids, freeIds, running + swapped, maxSeqs)
      modifies `ids, `freeIds, `running, `numDecoding, `held
      ensures ok <==> |batch| <= old(|freeIds|)
      ensures !ok ==> running == old(running) && maxSeqs < maxBatch
      ensures ok ==> Valid() && running == old(running) + batch && numDecoding == old(numDecoding) + blocks <= gpuBlocks
      ensures ok ==> Total(RowsIn(reqs), running) <= maxBatch
    {
      assert running + swapped == running && running + swapped + batch == running + batch;
      PrefillApart(running, batch, waiting, arrived, done);
      EnoughIds(reqs, running, batch, |freeIds|, maxSeqs, maxBatch);
      ok := GiveIds(batch);
      if ok {
        TotalBoth(RowsIn(reqs), running, batch);
        Append(batch, blocks);
      }
    }

    method Append(batch: seq<Key>, blocks: nat)
      requires blockSize > 0 && swapped == [] && NoDup(running + batch) && blocks == Total(NeededIn(reqs, blockSize), batch)
      requires InOrder(running + batch, [], waiting, arrived, done) && Known(arrived, reqs)
      requires Total(HeldIn(held), running) + left == numDecoding && left >= 0 && IdsOk(ids, freeIds, running + batch, maxSeqs)
      modifies `running, `numDecoding, `held
      ensures Valid() && running == old(running) + batch && numDecoding == old(numDecoding) + blocks
    {
      ghost var w := NeededIn(reqs, blockSize);
      ghost var more := map k | k in batch :: w(k);
      HeldMore(held, more, running, batch, w);
      Enlist(running + batch, numDecoding + blocks, held + more);
    }

    method Enlist(now: seq<Key>, count: int, ghost counted: map<Key, nat>)
      requires blockSize > 0 && swapped == [] && InOrder(now, [], waiting, arrived, done) && Known(arrived, reqs)
      requires Total(HeldIn(counted), now) + left == count && left >= 0 && IdsOk(ids, freeIds, now, maxSeqs)
      modifies `running, `numDecoding, `held
      ensures Valid() && running == now && numDecoding == count
    {
      running, numDecoding, held := now, count, counted;
      assert running + swapped == running;
    }

    ghost predicate WithinLimits()
      reads this
      requires blockSize > 0
    {
      && Total(RowsIn(reqs), running) <= maxBatch && Total(WidthIn(reqs), running) <= maxTokens
      && numDecoding == Total(NeededIn(reqs, blockSize), running) <= gpuBlocks
    }

    /** The limits on what may run together in one decoding iteration. */
    ghost predicate MayRun(q: seq<Key>)
      reads this
      requires blockSize > 0
    {
      Total(RowsIn(reqs), q) <= maxBatch && Total(WidthIn(reqs), q) <= maxTokens && Total(NeededIn(reqs, blockSize), q) <= gpuBlocks
    }

    /** The newest running request leaves the device. */
    method Evict() returns (victim: Key)
      requires blockSize > 0 && running != [] && numDecoding == Total(NeededIn(reqs, blockSize), running)
      modifies `running, `numDecoding
      ensures running + [victim] == old(running) && numDecoding == Total(NeededIn(reqs, blockSize), running)
    {
      var n := |running| - 1;
      victim := running[n];
      TotalMore(NeededIn(reqs, blockSize), running[..n], victim);
      assert running == running[..n] + [victim];
      running, numDecoding := running[..n], numDecoding - NeededIn(reqs, blockSize)(victim);
    }

    method OverLimits() returns (over: bool)
      requires blockSize > 0 && numDecoding == Total(NeededIn(reqs, blockSize), running)
      ensures over <==> !MayRun(running)
    {
      var rows := SumOver(RowsIn(reqs));
      var width := SumOver(WidthIn(reqs));
      over := rows > maxBatch || width > maxTokens || numDecoding > gpuBlocks;
    }

    /** Preempt from the newest running request back until the rest is within the limits. */
    method Preempt() returns (out: seq<Key>)
      requires blockSize > 0
      modifies `running, `numDecoding
      ensures running + out == old(running) && WithinLimits()
      ensures out != [] ==> !MayRun(running + [out[0]])
    {
      out := [];
      numDecoding := SumOver(NeededIn(reqs, blockSize));
      var over := OverLimits();
      while over
        invariant running + out == old(running) && numDecoding == Total(NeededIn(reqs, blockSize), running)
        invariant over <==> !MayRun(running)
        invariant out != [] ==> !MayRun(running + [out[0]])
        decreases |running|
      {
        var victim := Evict();
        Regroup(running, [victim], out);
        out := [victim] + out;
        over := OverLimits();
      }
    }

    /** Swap one request back in if it fits. */
    method SwapOne() returns (ok: bool)
      requires blockSize > 0 && WithinLimits() && swapped != []
      modifies `running, `swapped, `numDecoding
      ensures WithinLimits()
      ensures if ok then running == old(running) + [old(swapped)[0]] && swapped == old(swapped)[1..]
              else running == old(running) && swapped == old(swapped)
      ensures ok <==> old(MayRun(running + [swapped[0]]))
    {
      var k := swapped[0];
      TotalMore(RowsIn(reqs), running, k);
      TotalMore(WidthIn(reqs), running, k);
      TotalMore(NeededIn(reqs, blockSize), running, k);
      var rows := SumOver(RowsIn(reqs));
      var width := SumOver(WidthIn(reqs));
      var n := NeededIn(reqs, blockSize)(k);
      ok := rows + RowsIn(reqs)(k) <= maxBatch && width + WidthIn(reqs)(k) <= maxTokens && numDecoding + n <= gpuBlocks;
      if ok { running, numDecoding, swapped := running + [k], numDecoding + n, swapped[1..]; }
    }

    /** Swap requests back in, oldest first, while they fit. */
    method SwapIn() returns (back: seq<Key>)
      requires blockSize > 0 && WithinLimits()
      modifies `running, `swapped, `numDecoding
      ensures running == old(running) + back && back + swapped == old(swapped) && WithinLimits()
      ensures swapped != [] ==> !MayRun(running + [swapped[0]])
    {
      back := [];
      ghost var start, queue := running, swapped;
      var more := true;
      while more && swapped != []
        invariant back + swapped == queue && running == start + back && WithinLimits()
        invariant !more ==> swapped != [] && !MayRun(running + [swapped[0]])
        decreases |swapped|, more
      {
        var k := swapped[0];
        SwapStep(start, back, swapped);
        more := SwapOne();
        if more { back := back + [k]; }
      }
    }

    /** Preempt what does not fit, or else swap back in what does. */
    method Rebalance() returns (back: seq<Key>, out: seq<Key>)
      requires blockSize > 0
      modifies `running, `swapped, `numDecoding
      ensures WithinLimits() && running + swapped == old(running) + old(swapped) && (out == [] || back == [])
      ensures old(running) + back == running + out
      ensures swapped != [] ==> !MayRun(running + [swapped[0]])
    {
      out := Preempt();
      back := [];
      if out != [] {
        Regroup(running, out, swapped);
        swapped := out + swapped;
        assert swapped[0] == out[0];
      } else {
        ghost var front := running;
        back := SwapIn();
        Regroup(front, back, swapped);
      }
    }

    /** Launch a decoding iteration. */
    method LaunchDecode() returns (back: seq<Key>, out: seq<Key>)
      requires Valid()
      modifies `running, `swapped, `numDecoding, `held, `left
      ensures Valid() && WithinLimits() && left == 0
      ensures running + swapped == old(running) + old(swapped) && (out == [] || back == [])
      ensures old(running) + back == running + out
      ensures swapped != [] ==> !MayRun(running + [swapped[0]])
    {
      ghost var front, behind := running, swapped;
      back, out := Rebalance();
      SameOrder(front, behind, running, swapped, waiting, arrived, done);
      Recount();
    }

    /** The count was taken just now. */
    method Recount()
      requires InOrder(running, swapped, waiting, arrived, done) && Known(arrived, reqs) && IdsOk(ids, freeIds, running + swapped, maxSeqs)
      requires blockSize > 0 && numDecoding == Total(NeededIn(reqs, blockSize), running)
      modifies `held, `left
      ensures Valid() && left == 0
    {
      ghost var w := NeededIn(reqs, blockSize);
      held := map k | k in running :: w(k);
      left := 0;
      HeldNow(held, running, w);
    }

    /** The prefill half of get_next_batch: an empty batch means that the oldest waiting request does not fit, or none waits. */
    method TryPrefill() returns (r: Result<seq<Key>>)
      requires Valid() && swapped == []
      modifies `waiting, `running, `numDecoding, `held, `ids, `freeIds
      ensures r.Err? <==> old(Front(waiting, 0) > |freeIds|)
      ensures r.Err? ==> maxSeqs < maxBatch && running == old(running) && waiting == old(waiting[Front(waiting, 0)..])
      ensures r.Ok? ==> Valid() && running == old(running) + r.value && r.value == old(waiting[..Front(waiting, 0)]) && running + waiting == old(running) + old(waiting)
      ensures r.Ok? && r.value == [] ==> waiting == old(waiting)
      ensures r.Ok? && r.value != [] ==>
                && Total(RowsIn(reqs), running) <= maxBatch && Total(WidthIn(reqs), r.value) <= maxTokens
                && numDecoding == old(numDecoding) + Total(NeededIn(reqs, blockSize), r.value) <= gpuBlocks
    {
      ghost var queue, front := waiting, running;
      var batch, blocks := TakePrefill();
      if batch == [] {
        assert queue == waiting && running + [] == running;
        return Ok([]);
      }
      var ok := LaunchPrefill(batch, blocks);
      Regroup(front, batch, waiting);
      r := if ok then Ok(batch) else Err("No more available request ids");
    }

    /**
     * get_next_batch. It fails exactly when nothing is swapped out and the prefill batch has more requests than there are
     * free row ids; then the batch is in no queue any more. With at least as many ids as batch rows that cannot be. Otherwise
     * no request changes its place in the order, what is returned is within the limits, and nothing new starts while anything
     * is swapped out.
     */
    method GetNextBatch() returns (r: Result<Launch>)
      requires Valid()
      modifies `waiting, `running, `swapped, `numDecoding, `held, `left, `ids, `freeIds
      ensures r.Err? <==> old(swapped == [] && Front(waiting, 0) > |freeIds|)
      ensures r.Err? ==> maxSeqs < maxBatch && running == old(running) && swapped == [] && waiting == old(waiting[Front(waiting, 0)..])
      ensures r.Ok? ==> (r.value.prefill <==> old(swapped == [] && Front(waiting, 0) > 0))
      ensures r.Ok? ==> Valid() && numDecoding <= gpuBlocks && Total(HeldIn(held), running) <= gpuBlocks
      ensures r.Ok? ==> running + swapped + waiting == old(running) + old(swapped) + old(waiting)
      ensures r.Ok? && r.value.prefill ==>
                && r.value.batch == old(waiting[..Front(waiting, 0)]) && running == old(running) + r.value.batch
                && Total(RowsIn(reqs), running) <= maxBatch && Total(WidthIn(reqs), r.value.batch) <= maxTokens
                && numDecoding == old(numDecoding) + Total(NeededIn(reqs, blockSize), r.value.batch)
      ensures r.Ok? && !r.value.prefill ==>
                && r.value.batch == running && WithinLimits() && waiting == old(waiting) && left == 0
                && old(running) + r.value.back == running + r.value.out
                && (swapped != [] ==> !MayRun(running + [swapped[0]]))
    {
      if swapped == [] {
        assert running + swapped == running;
        var p := TryPrefill();
        if p.Err? { return Err(p.reason); }
        if p.value != [] {
          assert running + swapped == running;
          return Ok(Launch(true, p.value, [], []));
        }
        assert running + p.value == running;
      }
      var back, out := LaunchDecode();
      r := Ok(Launch(false, running, back, out));
    }

    /**
     * on_batch_finish. Every finished request leaves the running queue, but only those in the batch give their row ids back:
     * no id is lost exactly when the batch holds every running request that finished.
     */
    method FinishBatch(batch: seq<Key>)
      requires Valid() && NoDup(batch) && forall k | k in batch :: k in running
      modifies `freeIds, `running, `done, `left
      ensures Valid() <==> forall k | k in FinishedIn(old(running), reqs) :: k in batch
      ensures done == old(done) + FinishedIn(old(running), reqs) && running == Without(old(running), FinishedIn(old(running), reqs))
      ensures |freeIds| + |Without(old(running), FinishedIn(batch, reqs))| + |swapped| == maxSeqs
    {
      ghost var gone, back := FinishedIn(running, reqs), FinishedIn(batch, reqs);
      SameFinished(running, batch, reqs);
      InFront(running, swapped, waiting, arrived, done);
      ReturnIds(batch, back);
      Leave(gone, back);
    }

    /** The finished requests leave the running queue; their blocks stay in the count until it is taken again. */
    method Leave(ghost gone: set<Key>, ghost back: set<Key>)
      requires blockSize > 0 && InOrder(running, swapped, waiting, arrived, done) && Known(arrived, reqs)
      requires Total(HeldIn(held), running) + left == numDecoding && left >= 0
      requires IdsOk(ids, freeIds, Without(running, back) + swapped, maxSeqs) && gone == FinishedIn(running, reqs) && back <= gone
      modifies `running, `done, `left
      ensures running == Without(old(running), gone) && done == old(done) + gone && (Valid() <==> back == gone)
    {
      FinishKeeps(running, swapped, waiting, arrived, done, gone, held, numDecoding);
      IdsExactly(ids, freeIds, running, swapped, gone, back, maxSeqs);
      Drop(Without(running, FinishedIn(running, reqs)), gone);
    }

    method Drop(rest: seq<Key>, ghost gone: set<Key>)
      requires blockSize > 0 && InOrder(rest, swapped, waiting, arrived, done + gone) && Known(arrived, reqs)
      requires Total(HeldIn(held), rest) <= numDecoding
      modifies `running, `done, `left
      ensures running == rest && done == old(done) + gone
      ensures Valid() <==> IdsOk(ids, freeIds, rest + swapped, maxSeqs)
    {
      running, done, left := rest, done + gone, numDecoding - Total(HeldIn(held), rest);
    }

    /** The row ids of finished requests go back to the free list. */
    method ReturnIds(batch: seq<Key>, ghost gone: set<Key>)
      requires NoDup(batch) && NoDup(running) && (forall k | k in batch :: k in running) && IdsOk(ids, freeIds, running + swapped, maxSeqs)
      requires gone == FinishedIn(batch, reqs)
      modifies `freeIds
      ensures IdsOk(ids, freeIds, Without(running, gone) + swapped, maxSeqs)
    {
      WithoutNothing(running, {});
      assert FinishedIn([], reqs) == {} && batch[..0] == [];
      for i := 0 to |batch|
        invariant IdsOk(ids, freeIds, Without(running, FinishedIn(batch[..i], reqs)) + swapped, maxSeqs)
      {
        FinishedMore(batch, i, reqs);
        if batch[i] in reqs && reqs[batch[i]].finished {
          ReturnId(batch[i], FinishedIn(batch[..i], reqs));
        }
      }
      assert batch[..|batch|] == batch;
    }

    /** free_id: the id is in range and not free, so it is taken back. */
    method ReturnId(k: Key, ghost gone: set<Key>)
      requires IdsOk(ids, freeIds, Without(running, gone) + swapped, maxSeqs) && NoDup(running) && k in running && k !in gone
      modifies `freeIds
      ensures IdsOk(ids, freeIds, Without(running, gone + {k}) + swapped, maxSeqs)
    {
      GiveBack(ids, freeIds, running, swapped, gone, k, maxSeqs);
      freeIds := freeIds + [ids[k]];
    }
  }

  datatype Launch = Launch(prefill: bool, batch: seq<Key>, back: seq<Key>, out: seq<Key>)

  function FinishedIn(q: seq<Key>, reqs: map<Key, Req>): set<Key> {
    set k | k in q && k in reqs && reqs[k].finished
  }

  lemma SameOrder(r: seq<Key>, s: seq<Key>, running: seq<Key>, swapped: seq<Key>, waiting: seq<Key>, arrived: seq<Key>, done: set<Key>)
    requires InOrder(r, s, waiting, arrived, done) && running + swapped == r + s
    ensures InOrder(running, swapped, waiting, arrived, done)
  {
  }

  lemma PrefillApart(running: seq<Key>, batch: seq<Key>, waiting: seq<Key>, arrived: seq<Key>, done: set<Key>)
    requires InOrder(running, [], batch + waiting, arrived, done)
    ensures NoDup(running + batch) && InOrder(running + batch, [], waiting, arrived, done)
  {
    WithoutNoDup(arrived, done);
    var all := running + [] + (batch + waiting);
    assert all == running + batch + [] + waiting && all == (running + batch) + waiting;
    NoDupSplit(running + batch, waiting);
  }

  lemma HeldMore(held: map<Key, nat>, more: map<Key, nat>, running: seq<Key>, batch: seq<Key>, w: Key -> nat)
    requires NoDup(running + batch) && (forall k :: k in more <==> k in batch) && forall k | k in batch :: more[k] == w(k)
    ensures Total(HeldIn(held + more), running + batch) == Total(HeldIn(held), running) + Total(w, batch)
  {
    NoDupSplit(running, batch);
    TotalBoth(HeldIn(held + more), running, batch);
    TotalSame(HeldIn(held + more), HeldIn(held), running);
    TotalSame(HeldIn(held + more), w, batch);
  }

  lemma HeldNow(held: map<Key, nat>, running: seq<Key>, w: Key -> nat)
    requires (forall k :: k in held <==> k in running) && forall k | k in running :: held[k] == w(k)
    ensures Total(HeldIn(held), running) == Total(w, running)
  {
    TotalSame(HeldIn(held), w, running);
  }

  /** A prefill batch that is within the row limit has ids enough when there are as many ids as rows. */
  lemma EnoughIds(reqs: map<Key, Req>, running: seq<Key>, batch: seq<Key>, free: nat, maxSeqs: nat, maxBatch: nat)
    requires free + |running| == maxSeqs && Total(RowsIn(reqs), running) + Total(RowsIn(reqs), batch) <= maxBatch
    ensures |batch| > free ==> maxSeqs < maxBatch
  {
    TotalAtLeast(RowsIn(reqs), running);
    TotalAtLeast(RowsIn(reqs), batch);
  }

  lemma FrontNoDup(running: seq<Key>, swapped: seq<Key>, waiting: seq<Key>, arrived: seq<Key>, done: set<Key>)
    requires InOrder(running, swapped, waiting, arrived, done)
    ensures NoDup(running) && (forall k | k in running :: k !in swapped && k !in waiting && k in arrived)
  {
    WithoutNoDup(arrived, done);
    WithoutMembers(arrived, done);
    NoDupSplit(running + swapped, waiting);
    NoDupSplit(running, swapped);
    forall k | k in running ensures k !in waiting && k in arrived {
      assert k in running + swapped;
      assert k in running + swapped + waiting;
    }
  }

  lemma InFront(running: seq<Key>, swapped: seq<Key>, waiting: seq<Key>, arrived: seq<Key>, done: set<Key>)
    requires InOrder(running, swapped, waiting, arrived, done)
    ensures NoDup(running)
  {
    FrontNoDup(running, swapped, waiting, arrived, done);
  }

  lemma SwapStep(start: seq<Key>, back: seq<Key>, swapped: seq<Key>)
    requires swapped != []
    ensures back + swapped == back + [swapped[0]] + swapped[1..]
    ensures start + back + [swapped[0]] == start + (back + [swapped[0]])
  {
  }

  lemma FinishKeeps(running: seq<Key>, swapped: seq<Key>, waiting: seq<Key>, arrived: seq<Key>, done: set<Key>, gone: set<Key>,
                    held: map<Key, nat>, blocks: int)
    requires InOrder(running, swapped, waiting, arrived, done) && Total(HeldIn(held), running) <= blocks
    requires forall k | k in gone :: k in running
    ensures NoDup(running) && InOrder(Without(running, gone), swapped, waiting, arrived, done + gone)
    ensures Total(HeldIn(held), Without(running, gone)) <= blocks
  {
    FrontNoDup(running, swapped, waiting, arrived, done);
    FinishOrder(running, swapped, waiting, arrived, done, gone);
    TotalWithout(HeldIn(held), running, gone);
  }

  lemma SameFinished(running: seq<Key>, batch: seq<Key>, reqs: map<Key, Req>)
    requires forall k | k in batch :: k in running
    ensures FinishedIn(batch, reqs) <= FinishedIn(running, reqs)
    ensures FinishedIn(batch, reqs) == FinishedIn(running, reqs) <==> forall k | k in FinishedIn(running, reqs) :: k in batch
  {
    forall k | k in FinishedIn(batch, reqs) ensures k in FinishedIn(running, reqs) {}
    if forall k | k in FinishedIn(running, reqs) :: k in batch {
      forall k | k in FinishedIn(running, reqs) ensures k in FinishedIn(batch, reqs) {}
    }
    if FinishedIn(batch, reqs) == FinishedIn(running, reqs) {
      forall k | k in FinishedIn(running, reqs) ensures k in batch { assert k in FinishedIn(batch, reqs); }
    }
  }

  /** A finished request outside the batch takes its id with it. */
  lemma IdsLost(running: seq<Key>, gone: set<Key>, back: set<Key>, k: Key)
    requires back <= gone && k in gone && k !in back && k in running
    ensures |Without(running, gone)| < |Without(running, back)|
  {
    WithoutTwice(running, back, gone);
    assert back + gone == gone;
    WithoutMembers(running, back);
    WithoutShorter(Without(running, back), gone);
  }

  lemma IdsExactly(ids: map<Key, int>, free: seq<int>, running: seq<Key>, swapped: seq<Key>, gone: set<Key>, back: set<Key>, maxSeqs: nat)
    requires IdsOk(ids, free, Without(running, back) + swapped, maxSeqs) && back <= gone && forall k | k in gone :: k in running
    ensures IdsOk(ids, free, Without(running, gone) + swapped, maxSeqs) <==> back == gone
  {
    if k :| k in gone && k !in back {
      IdsLost(running, gone, back, k);
    } else {
      forall k ensures k in back <==> k in gone {}
    }
  }

  lemma FinishedMore(batch: seq<Key>, i: nat, reqs: map<Key, Req>)
    requires NoDup(batch) && i < |batch|
    ensures var k := batch[i];
            && k in batch && k !in FinishedIn(batch[..i], reqs)
            && FinishedIn(batch[..i + 1], reqs) ==
               if k in reqs && reqs[k].finished then FinishedIn(batch[..i], reqs) + {k} else FinishedIn(batch[..i], reqs)
  {
    assert batch[..i + 1] == batch[..i] + [batch[i]];
    forall j | 0 <= j < i ensures batch[j] != batch[i] { NoDupAt(batch, j, i); }
  }

  /** A key of a sequence without repetition splits it. */
  lemma SplitOut(q: seq<Key>, k: Key) returns (a: seq<Key>, b: seq<Key>)
    requires NoDup(q) && k in q
    ensures q == a + [k] + b && k !in a && k !in b
  {
    var i :| 0 <= i < |q| && q[i] == k;
    a, b := q[..i], q[i + 1..];
    forall j | 0 <= j < i ensures a[j] != k { NoDupAt(q, j, i); }
    forall j | 0 <= j < |b| ensures b[j] != k { NoDupAt(q, i, i + 1 + j); }
  }

  lemma WithoutOne(a: seq<Key>, k: Key, b: seq<Key>)
    requires k !in a && k !in b
    ensures Without(a + [k] + b, {k}) == a + b
  {
    WithoutBoth(a + [k], b, {k});
    WithoutMore(a, k, {k});
    WithoutNothing(a, {k});
    WithoutNothing(b, {k});
    assert a + [] == a;
  }

  lemma GiveBack(ids: map<Key, int>, free: seq<int>, running: seq<Key>, swapped: seq<Key>, gone: set<Key>, k: Key, maxSeqs: nat)
    requires IdsOk(ids, free, Without(running, gone) + swapped, maxSeqs) && NoDup(running) && k in running && k !in gone
    ensures k in ids && IdsOk(ids, free + [ids[k]], Without(running, gone + {k}) + swapped, maxSeqs)
  {
    WithoutNoDup(running, gone);
    WithoutMembers(running, gone);
    var a, b := SplitOut(Without(running, gone), k);
    WithoutTwice(running, gone, {k});
    WithoutOne(a, k, b);
    Regroup(a + [k], b, swapped);
    Regroup(a, b, swapped);
    HasId(ids, free, a, k, b + swapped, maxSeqs);
    TakeIdBack(ids, free, a, k, b + swapped, maxSeqs);
  }

  lemma HasId(ids: map<Key, int>, free: seq<int>, a: seq<Key>, k: Key, b: seq<Key>, maxSeqs: nat)
    requires IdsOk(ids, free, a + [k] + b, maxSeqs)
    ensures k in ids
  {
    assert (a + [k] + b)[|a|] == k;
  }

  lemma FinishOrder(running: seq<Key>, swapped: seq<Key>, waiting: seq<Key>, arrived: seq<Key>, done: set<Key>, gone: set<Key>)
    requires InOrder(running, swapped, waiting, arrived, done) && forall k | k in gone :: k in running
    ensures InOrder(Without(running, gone), swapped, waiting, arrived, done + gone)
  {
    FrontNoDup(running, swapped, waiting, arrived, done);
    WithoutTwice(arrived, done, gone);
    WithoutBoth(running + swapped, waiting, gone);
    WithoutBoth(running, swapped, gone);
    forall k | k in swapped ensures k !in gone {}
    forall k | k in waiting ensures k !in gone {}
    WithoutNothing(swapped, gone);
    WithoutNothing(waiting, gone);
  }

  lemma ArriveOrder(running: seq<Key>, swapped: seq<Key>, waiting: seq<Key>, arrived: seq<Key>, keys: seq<Key>, done: set<Key>)
    requires InOrder(running, swapped, waiting, arrived, done) && NoDup(arrived + keys) && forall k | k in keys :: k !in done
    ensures InOrder(running, swapped, waiting + keys, arrived + keys, done)
  {
    WithoutBoth(arrived, keys, done);
    forall k | k in keys ensures k !in done {}
    WithoutNothing(keys, done);
    Regroup(running + swapped, waiting, keys);
  }

  lemma ArriveKnown(arrived: seq<Key>, keys: seq<Key>, reqs: map<Key, Req>, news: map<Key, Req>)
    requires Known(arrived, reqs) && Known(keys, news)
    ensures Known(arrived + keys, reqs + news)
  {
  }

  lemma MoveHead(a: seq<Key>, b: seq<Key>)
    requires b != []
    ensures a + [b[0]] + b[1..] == a + b
  {
  }

  lemma Regroup(a: seq<Key>, b: seq<Key>, c: seq<Key>)
    ensures a + (b + c) == a + b + c
  {
  }

  lemma NewKey(live: seq<Key>, batch: seq<Key>, i: nat)
    requires NoDup(live + batch) && i < |batch|
    ensures batch[i] !in live + batch[..i]
  {
    var all := live + batch;
    forall j | 0 <= j < |live| + i ensures (live + batch[..i])[j] != batch[i] {
      NoDupAt(all, j, |live| + i);
      assert all[j] == (live + batch[..i])[j];
    }
  }

  // ---- Runs that show the two conditions ----

  /** A scheduler at which requests of one block each have arrived. */
  method WithArrivals(maxBatch: nat, keys: seq<Key>) returns (s: Scheduler)
    requires NoDup(keys)
    ensures fresh(s) && s.Valid() && s.waiting == keys && s.running == s.swapped == [] && s.numDecoding == 0 && s.freeIds == [0] && s.maxSeqs == 1
    ensures s.blockSize == 16 && s.gpuBlocks == 8 && s.maxBatch == maxBatch && s.maxTokens == 64
    ensures s.reqs == OneBlockRequests(keys) && s.arrived == keys && s.done == {}
  {
    s := OneRow(maxBatch);
    EmptyFront(keys);
    s.Arrive(keys, OneBlockRequests(keys));
    NothingBefore(OneBlockRequests(keys));
  }

  method OneRow(maxBatch: nat) returns (s: Scheduler)
    ensures fresh(s) && s.Valid() && s.running == s.swapped == s.waiting == s.arrived == [] && s.done == {} && s.numDecoding == 0
    ensures s.freeIds == [0] && s.maxSeqs == 1 && s.reqs == map[] && s.blockSize == 16 && s.gpuBlocks == 8 && s.maxBatch == maxBatch && s.maxTokens == 64
  {
    NoDupSplit([], [0]);
    assert NoDup([0]);
    s := new Scheduler(8, 16, maxBatch, 64, 1, [0]);
  }

  function OneBlockRequests(keys: seq<Key>): map<Key, Req> { map k | k in keys :: Req(16, 0, false, NoProposal, 0) }

  lemma NothingBefore(reqs: map<Key, Req>)
    ensures map[] + reqs == reqs
  {
  }

  lemma EmptyFront(keys: seq<Key>)
    ensures [] + keys == keys
  {
  }

  lemma {:induction false} OneBlockEach(reqs: map<Key, Req>, q: seq<Key>)
    requires forall k | k in q :: k in reqs && reqs[k] == Req(16, 0, false, NoProposal, 0)
    ensures Total(NeededIn(reqs, 16), q) == Total(RowsIn(reqs), q) == |q| && Total(WidthIn(reqs), q) == 16 * |q|
  {
    assert Blocks(16, 16) == 1;
    if q != [] {
      var n, k := |q| - 1, q[|q| - 1];
      assert k in q;
      OneBlockEach(reqs, q[..n]);
    }
  }

  /** A request that was prefilled and has its first token: one more block, and a count that does not know it. */
  method CountGoesStale() returns (s: Scheduler)
    ensures s.Valid() && s.running == [0] && s.numDecoding == 1 && Total(NeededIn(s.reqs, s.blockSize), s.running) == 2
  {
    s := OneRunning();
    s.Iterate(map[0 := Req(16, 1, false, NoProposal, 0)]);
    TwoBlocks(s.reqs);
  }

  method OneRunning() returns (s: Scheduler)
    ensures fresh(s) && s.Valid() && s.running == [0] && s.numDecoding == 1 && s.blockSize == 16 && s.reqs.Keys == {0}
  {
    s := OneWaiting();
    ghost var first := s.waiting[..1];
    assert first == [0];
    var r := s.GetNextBatch();
    assert r.Ok? && r.value.prefill && r.value.batch == first;
  }

  method OneWaiting() returns (s: Scheduler)
    ensures fresh(s) && s.Valid() && s.waiting == [0] && s.running == s.swapped == [] && s.numDecoding == 0 && s.freeIds == [0]
    ensures s.blockSize == 16 && s.reqs.Keys == {0} && s.Front(s.waiting, 0) == 1 && Total(NeededIn(s.reqs, s.blockSize), [0]) == 1
  {
    NoDupSplit([], [0]);
    s := WithArrivals(1, [0]);
    OneBlockEach(s.reqs, [0]);
    OneBlockEach(s.reqs, []);
    assert s.waiting[..1] == [0] && s.PrefillFits([0]);
  }

  lemma TwoBlocks(reqs: map<Key, Req>)
    requires reqs == map[0 := Req(16, 1, false, NoProposal, 0)]
    ensures Total(NeededIn(reqs, 16), [0]) == 2
  {
    assert Blocks(17, 16) == 2;
    TotalMore(NeededIn(reqs, 16), [], 0);
    assert [] + [0] == [0];
  }

  /** Two requests fit the batch and there is one row id: the call fails and neither request is in any queue. */
  method LosesBatch() returns (s: Scheduler)
    ensures s.running == s.swapped == s.waiting == [] && s.maxSeqs < s.maxBatch && s.arrived == [0, 1] && s.done == {}
  {
    s := TwoWaiting();
    var r := s.GetNextBatch();
  }

  method TwoWaiting() returns (s: Scheduler)
    ensures fresh(s) && s.Valid() && s.waiting == s.arrived == [0, 1] && s.running == s.swapped == [] && s.done == {} && s.freeIds == [0]
    ensures s.maxSeqs == 1 && s.maxBatch == 2 && s.Front(s.waiting, 0) == 2
  {
    NoDupSplit([0], [1]);
    NoDupSplit([], [0]);
    assert [0] + [1] == [0, 1] && NoDup([0]) && NoDup([1]);
    s := WithArrivals(2, [0, 1]);
    OneBlockEach(s.reqs, [0]);
    OneBlockEach(s.reqs, [0, 1]);
    OneBlockEach(s.reqs, []);
    assert s.waiting[..1] == [0] && s.waiting[..2] == [0, 1] && s.PrefillFits([0]) && s.PrefillFits([0, 1]);
    assert s.Front(s.waiting, 2) == 2 && s.Front(s.waiting, 1) == 2;
  }
}
