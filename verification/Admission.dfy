/** Admission by worst case: what a budget accepts never runs out of room later, in any cohort. */
module Admission {
  import opened Wrappers
  import opened BlockMath
  import HostAllocator
  import HostKv
  import SeqNumbers

  /** Modulus of request epochs, and of arena generations. */
  const EPOCHS: nat := 0xFFFF_FFFF_FFFF_FFFF
  const ARENA_GENERATIONS: nat := 0xFFFF_FFFF
  const TOKENS: nat := 0xFFFF_FFFF

  datatype Generation = Generation(maxNew: nat, depth: nat, stops: nat)
  type Config = c: Generation | c.maxNew > 0 && c.depth > 0 witness Generation(1, 1, 0)

  datatype Worker = Worker(draft: bool, banked: bool, bankBlocks: nat, prefillTokens: nat, verifyTokens: nat, batchTokens: nat)

  /** Bytes of each kind of payload, and blocks of the two host arenas. */
  datatype Cost = Cost(tokens: nat, configs: nat, proposals: nat, blocks: nat, snapshots: nat, draftBlocks: nat, completions: nat)

  /** Bytes written so far, or the bytes there are, in each append-only arena. Draft workers have arenas of their own. */
  datatype Room = Room(tokens: nat, configs: nat, completions: nat, proposals: map<nat, nat>, snapshots: map<nat, nat>)

  const NOTHING := Cost(0, 0, 0, 0, 0, 0, 0)

  function Plus(a: Cost, b: Cost): Cost {
    Cost(a.tokens + b.tokens, a.configs + b.configs, a.proposals + b.proposals, a.blocks + b.blocks,
         a.snapshots + b.snapshots, a.draftBlocks + b.draftBlocks, a.completions + b.completions)
  }

  function Times(n: nat, unit: nat): nat { n * unit }

  function ProposalBytes(depth: nat): nat { 8 + 4 * depth }

  /** A completion: an eight-byte flag, a header and its members, rounded up to eight bytes. */
  function CompletionBytes(members: nat): nat { (8 + 40 + members * 24 + 7) / 8 * 8 }

  /** The record of a batch is no larger than one record of its own for each member. */
  lemma CompletionShared(members: nat)
    requires members > 0
    ensures CompletionBytes(1) == 72 && CompletionBytes(members) <= 72 * members
  {
  }

  function CostOf(prompt: nat, config: Config, blocks: nat, snapshotBytes: nat, banked: bool): Cost {
    Cost(4 * (prompt + config.maxNew), 16 + 4 * config.stops, Times(config.maxNew + 1, ProposalBytes(config.depth)), blocks,
         if banked then Times(config.maxNew + 1, snapshotBytes) else 0, if banked then blocks else 0,
         (2 * config.maxNew + 4) * CompletionBytes(1))
  }

  // ---- The rounds of one request ----

  /**
   * A request and how far its rounds are: target rounds issued and classified, draft rounds issued and those whose
   * payloads a draft worker has reserved.
   */
  datatype Record = Record(id: int, config: Config, active: bool, outputs: nat, targets: nat, results: nat, drafts: nat, payloads: nat)

  datatype Move = IssueTarget | IssueDraft | Payload

  /**
   * A target round is issued after the previous one is classified and the draft round for it is issued; a draft round
   * once the target round before it is issued and, the first time, classified. A worker reserves once for each draft.
   */
  predicate May(m: Move, r: Record) {
    match m
    case IssueTarget => r.active && r.results == r.targets && (r.targets > 0 ==> r.drafts == r.targets)
    case IssueDraft => r.active && r.drafts + 1 == r.targets && r.payloads == r.drafts && (r.drafts == 0 ==> r.results == r.targets)
    case Payload => r.payloads < r.drafts
  }

  function Step(m: Move, r: Record): Record {
    match m
    case IssueTarget => r.(targets := r.targets + 1)
    case IssueDraft => r.(drafts := r.drafts + 1)
    case Payload => r.(payloads := r.payloads + 1)
  }

  /** Each classified round gave a token, so no request ever issues more rounds of a kind than it may output tokens. */
  predicate RoundsOk(r: Record) {
    && r.results <= r.targets <= r.results + 1 && r.targets <= r.config.maxNew
    && r.payloads <= r.drafts <= r.targets <= r.drafts + 1
    && r.outputs <= r.config.maxNew && (r.active ==> r.results <= r.outputs < r.config.maxNew)
  }

  lemma StepKeeps(m: Move, r: Record)
    requires RoundsOk(r) && May(m, r)
    ensures RoundsOk(Step(m, r))
  {
  }

  /** A request that has not ended always has something to do: a round to issue, payloads to reserve, or a result to come. */
  lemma NeverStuck(r: Record)
    requires RoundsOk(r) && r.active
    ensures r.results < r.targets || exists m :: May(m, r)
  {
    if r.results == r.targets {
      assert May(if r.targets == 0 || r.drafts == r.targets then IssueTarget else if r.payloads == r.drafts then IssueDraft else Payload, r);
    }
  }

  /**
   * The cost is what a request that takes every round uses, and one proposal, one snapshot and four completion records
   * more; its blocks hold the prompt and every output token, and one block fewer would not.
   */
  lemma CostIsTight(prompt: nat, r: Record, size: nat, snapshotBytes: nat)
    requires RoundsOk(r) && r.targets == r.drafts == r.payloads == r.config.maxNew && size > 0
    ensures var blocks := Blocks(prompt + r.config.maxNew, size);
            var cost := CostOf(prompt, r.config, blocks, snapshotBytes, true);
            && cost.completions == Times(r.targets + r.drafts, CompletionBytes(1)) + 4 * CompletionBytes(1)
            && cost.proposals == Times(r.payloads, ProposalBytes(r.config.depth)) + ProposalBytes(r.config.depth)
            && cost.snapshots == Times(r.payloads, snapshotBytes) + snapshotBytes
            && prompt + r.config.maxNew <= Span(cost.blocks, size) < prompt + r.config.maxNew + size && cost.draftBlocks == cost.blocks
            && cost.tokens == 4 * prompt + 4 * r.config.maxNew
  {
    CompletionShared(1);
    BlocksCover(prompt + r.config.maxNew, size);
    OneMoreUnit(r.config.maxNew, ProposalBytes(r.config.depth));
    OneMoreUnit(r.config.maxNew, snapshotBytes);
  }

  lemma OneMoreUnit(n: nat, unit: nat)
    ensures Times(n + 1, unit) == Times(n, unit) + unit
  {
  }

  /** A result moves the classified round; of a request that has ended it changes nothing else. */
  function Classified(r: Record, count: nat, finished: bool): Record {
    var next := r.(results := r.results + 1);
    if r.active then next.(outputs := count, active := !finished) else next
  }

  // ---- What is still to come ----

  datatype Kind = Proposals | Snapshots(bytes: nat) | Completions

  /** Bytes a request may still need of one kind, as its cost counted them. */
  function Left(k: Kind, r: Record): nat
    requires RoundsOk(r)
  {
    match k
    case Proposals => Times(r.config.maxNew + 1 - r.payloads, ProposalBytes(r.config.depth))
    case Snapshots(bytes) => Times(r.config.maxNew + 1 - r.payloads, bytes)
    case Completions => (2 * r.config.maxNew + 4 - r.targets - r.drafts) * 72
  }

  predicate AllRounds(rs: seq<Record>) { forall i | 0 <= i < |rs| :: RoundsOk(rs[i]) }

  function LeftOf(k: Kind, rs: seq<Record>): nat
    requires AllRounds(rs)
  {
    if rs == [] then 0 else LeftOf(k, rs[..|rs| - 1]) + Left(k, rs[|rs| - 1])
  }

  lemma LeftMore(k: Kind, rs: seq<Record>, r: Record)
    requires AllRounds(rs) && RoundsOk(r)
    ensures AllRounds(rs + [r]) && LeftOf(k, rs + [r]) == LeftOf(k, rs) + Left(k, r)
  {
    assert (rs + [r])[..|rs|] == rs;
  }

  lemma {:induction false} LeftUpdated(k: Kind, rs: seq<Record>, i: nat, r: Record)
    requires AllRounds(rs) && i < |rs| && RoundsOk(r)
    ensures AllRounds(rs[i := r]) && LeftOf(k, rs[i := r]) + Left(k, rs[i]) == LeftOf(k, rs) + Left(k, r)
  {
    var n := |rs| - 1;
    if i == n {
      assert rs[i := r][..n] == rs[..n];
    } else {
      LeftUpdated(k, rs[..n], i, r);
      assert rs[i := r][..n] == rs[..n][i := r];
    }
  }

  // ---- One move for every member of a batch ----

  predicate Distinct(slots: seq<nat>) { forall i, j | 0 <= i < j < |slots| :: slots[i] != slots[j] }

  predicate Members(m: Move, rs: seq<Record>, slots: seq<nat>) {
    Distinct(slots) && forall i | 0 <= i < |slots| :: slots[i] < |rs| && May(m, rs[slots[i]])
  }

  function After(m: Move, rs: seq<Record>, slots: seq<nat>): (r: seq<Record>)
    requires forall i | 0 <= i < |slots| :: slots[i] < |rs|
    ensures |r| == |rs|
  {
    if slots == [] then rs
    else
      var n := |slots| - 1;
      var before := After(m, rs, slots[..n]);
      before[slots[n] := Step(m, before[slots[n]])]
  }

  /** Every member moves once and every other request stays as it is. */
  lemma {:induction false} AfterAt(m: Move, rs: seq<Record>, slots: seq<nat>, k: nat)
    requires Distinct(slots) && k < |rs| && forall i | 0 <= i < |slots| :: slots[i] < |rs|
    ensures After(m, rs, slots)[k] == if k in slots then Step(m, rs[k]) else rs[k]
  {
    if slots != [] {
      var n := |slots| - 1;
      AfterAt(m, rs, slots[..n], k);
      assert k in slots <==> k in slots[..n] || k == slots[n] by { assert slots == slots[..n] + [slots[n]]; }
      assert slots[n] !in slots[..n];
    }
  }

  function Total(bytes: seq<nat>): nat { if bytes == [] then 0 else Total(bytes[..|bytes| - 1]) + bytes[|bytes| - 1] }

  /** The bytes that one move of a request may use up. */
  predicate Covered(m: Move, k: Kind, r: Record, bytes: nat)
    requires RoundsOk(r) && RoundsOk(Step(m, r))
  {
    Left(k, Step(m, r)) + bytes <= Left(k, r)
  }

  /** A batch uses up no more than its members had counted for it. */
  lemma {:induction false} LeftAfter(m: Move, k: Kind, rs: seq<Record>, slots: seq<nat>, bytes: seq<nat>)
    requires AllRounds(rs) && Members(m, rs, slots) && |bytes| == |slots|
    requires forall i | 0 <= i < |slots| :: RoundsOk(Step(m, rs[slots[i]])) && Covered(m, k, rs[slots[i]], bytes[i])
    ensures AllRounds(After(m, rs, slots)) && LeftOf(k, After(m, rs, slots)) + Total(bytes) <= LeftOf(k, rs)
  {
    if slots != [] {
      var n := |slots| - 1;
      LeftAfter(m, k, rs, slots[..n], bytes[..n]);
      AfterAt(m, rs, slots[..n], slots[n]);
      assert slots[n] !in slots[..n];
      LeftUpdated(k, After(m, rs, slots[..n]), slots[n], Step(m, rs[slots[n]]));
    }
  }

  lemma MoveKeepsLeft(m: Move, k: Kind, r: Record)
    requires RoundsOk(r) && May(m, r)
    ensures RoundsOk(Step(m, r)) && Covered(m, k, r, Need(m, k, r))
  {
    StepKeeps(m, r);
    if m.Payload? && !k.Completions? {
      var unit := if k.Proposals? then ProposalBytes(r.config.depth) else k.bytes;
      OneLess(r.config.maxNew + 1 - r.payloads, unit);
    }
  }

  lemma OneLess(n: nat, unit: nat)
    requires n > 0
    ensures Times(n - 1, unit) + unit == Times(n, unit)
  {
  }

  /** The most that a move of this request takes from its reservation. */
  function Need(m: Move, k: Kind, r: Record): nat {
    match k
    case Proposals => if m.Payload? then ProposalBytes(r.config.depth) else 0
    case Snapshots(bytes) => if m.Payload? then bytes else 0
    case Completions => if m.Payload? then 0 else 72
  }

  /** A batch within its members' needs leaves enough for everything else that is still to come. */
  lemma MovesFit(m: Move, k: Kind, rs: seq<Record>, slots: seq<nat>, bytes: seq<nat>)
    requires AllRounds(rs) && Members(m, rs, slots) && |bytes| == |slots|
    requires forall i | 0 <= i < |slots| :: bytes[i] <= Need(m, k, rs[slots[i]])
    ensures AllRounds(After(m, rs, slots)) && LeftOf(k, After(m, rs, slots)) + Total(bytes) <= LeftOf(k, rs)
  {
    forall i | 0 <= i < |slots|
      ensures RoundsOk(Step(m, rs[slots[i]])) && Covered(m, k, rs[slots[i]], bytes[i])
    {
      MoveKeepsLeft(m, k, rs[slots[i]]);
    }
    LeftAfter(m, k, rs, slots, bytes);
  }

  lemma {:induction false} TotalSame(n: nat, unit: nat)
    ensures Total(seq(n, i => unit)) == Times(n, unit)
  {
    if n > 0 {
      TotalSame(n - 1, unit);
      assert seq(n, i => unit)[..n - 1] == seq(n - 1, i => unit);
      OneLess(n, unit);
    }
  }

  // ---- The reservation ----

  /** What is written and what may still come never exceed what was counted, and that never exceeds what there is. */
  ghost predicate Reserved(limits: Room, heads: Room, used: Cost, rs: seq<Record>, snapshotBytes: nat, banked: bool)
    requires AllRounds(rs)
  {
    && heads.tokens == used.tokens <= limits.tokens
    && heads.configs == used.configs <= limits.configs
    && heads.completions + LeftOf(Completions, rs) <= used.completions <= limits.completions
    && EachArena(limits.proposals, heads.proposals, used.proposals, LeftOf(Proposals, rs))
    && if banked then EachArena(limits.snapshots, heads.snapshots, used.snapshots, LeftOf(Snapshots(snapshotBytes), rs))
       else heads.snapshots.Keys == limits.snapshots.Keys
  }

  ghost predicate EachArena(limits: map<nat, nat>, heads: map<nat, nat>, used: nat, left: nat) {
    heads.Keys == limits.Keys && forall w | w in limits :: heads[w] + left <= used <= limits[w]
  }

  /** SessionBudget.check. */
  predicate Affordable(limits: Room, blocks: nat, draftBlocks: nat, used: Cost, cost: Cost) {
    var sum := Plus(used, cost);
    && sum.tokens <= limits.tokens && sum.configs <= limits.configs
    && (forall w | w in limits.proposals :: sum.proposals <= limits.proposals[w])
    && sum.blocks <= blocks
    && (forall w | w in limits.snapshots :: sum.snapshots <= limits.snapshots[w])
    && sum.draftBlocks <= draftBlocks && sum.completions <= limits.completions
  }

  function Fresh(id: int, config: Config): Record { Record(id, config, true, 0, 0, 0, 0, 0) }

  lemma AdmitKeeps(limits: Room, heads: Room, used: Cost, rs: seq<Record>, snapshotBytes: nat, banked: bool,
                   blocks: nat, draftBlocks: nat, prompt: nat, capacity: nat, id: int, config: Config)
    requires AllRounds(rs) && Reserved(limits, heads, used, rs, snapshotBytes, banked)
    requires Affordable(limits, blocks, draftBlocks, used, CostOf(prompt, config, capacity, snapshotBytes, banked))
    ensures AllRounds(rs + [Fresh(id, config)])
    ensures var cost := CostOf(prompt, config, capacity, snapshotBytes, banked);
            Reserved(limits, heads.(tokens := heads.tokens + cost.tokens, configs := heads.configs + cost.configs), Plus(used, cost),
                     rs + [Fresh(id, config)], snapshotBytes, banked)
  {
    var r := Fresh(id, config);
    LeftMore(Proposals, rs, r);
    LeftMore(Completions, rs, r);
    LeftMore(Snapshots(snapshotBytes), rs, r);
  }

  // ---- Host extents ----

  /** The extents are exactly those of the cohort's slots, unpinned, and they are the first `used` blocks. */
  ghost predicate Tiles(total: nat, taken: map<nat, HostAllocator.Allocation>, slots: nat, epoch: nat, used: nat) {
    && used <= total
    && (forall s :: s in taken <==> 0 <= s < slots)
    && (forall s | s in taken :: taken[s].readers == 0 && !taken[s].writing && taken[s].extent.epoch == epoch)
    && forall b | 0 <= b :: HostAllocator.Taken(taken, b) <==> b < used
  }

  lemma NothingTiled(total: nat, epoch: nat)
    ensures Tiles(total, map[], 0, epoch, 0)
  {
  }

  /** The next extent has room exactly up to the end, and first fit puts it behind the others. */
  lemma RoomBehind(total: nat, taken: map<nat, HostAllocator.Allocation>, slots: nat, epoch: nat, used: nat, n: nat)
    requires Tiles(total, taken, slots, epoch, used) && n > 0
    ensures (exists x :: HostAllocator.Space(total, taken, x, n)) <==> used + n <= total
    ensures forall x: nat | HostAllocator.Space(total, taken, x, n) :: used <= x
    ensures used + n <= total ==> HostAllocator.Space(total, taken, used, n)
  {
    forall x: nat | HostAllocator.Space(total, taken, x, n) ensures used <= x {
      assert !HostAllocator.Taken(taken, x);
    }
    if used + n <= total {
      assert HostAllocator.Space(total, taken, used, n);
    }
  }

  lemma TilesGrow(total: nat, taken: map<nat, HostAllocator.Allocation>, slots: nat, epoch: nat, used: nat, e: HostKv.Extent)
    requires Tiles(total, taken, slots, epoch, used)
    requires e.offset == used && used + e.capacity <= total && e.epoch == epoch
    ensures Tiles(total, taken[slots := HostAllocator.Allocation(e, 0, false)], slots + 1, epoch, used + e.capacity)
  {
    var now := taken[slots := HostAllocator.Allocation(e, 0, false)];
    forall b | 0 <= b ensures HostAllocator.Taken(now, b) <==> b < used + e.capacity {
      if HostAllocator.Taken(taken, b) {
        var s :| s in taken && HostAllocator.In(HostAllocator.RunOf(taken[s].extent), b);
        assert s in now && HostAllocator.In(HostAllocator.RunOf(now[s].extent), b);
      }
      if HostAllocator.Taken(now, b) {
        var s :| s in now && HostAllocator.In(HostAllocator.RunOf(now[s].extent), b);
        assert s != slots ==> s in taken && HostAllocator.In(HostAllocator.RunOf(taken[s].extent), b);
      }
      assert slots in now && (used <= b < used + e.capacity <==> HostAllocator.In(HostAllocator.RunOf(now[slots].extent), b));
    }
  }

  /** Take the slot's extent from an arena that has room for it: it comes right behind the others. */
  method TakeExtent(a: HostAllocator.HostAllocator, slot: nat, epoch: nat, n: nat, ghost used: nat) returns (e: HostKv.Extent)
    requires a.Valid() && n > 0 && Tiles(a.total, a.taken, slot, epoch, used) && used + n <= a.total
    modifies a`free, a`taken
    ensures a.Valid() && Tiles(a.total, a.taken, slot + 1, epoch, used + n)
    ensures a.taken == old(a.taken)[slot := HostAllocator.Allocation(e, 0, false)]
    ensures e.slot == slot && e.epoch == epoch && e.offset == used && e.capacity == n && e.hostGeneration == a.GenerationOf(slot)
  {
    RoomBehind(a.total, a.taken, slot, epoch, used, n);
    var r := a.Allocate(slot, epoch, n);
    e := r.value;
    TilesGrow(a.total, old(a.taken), slot, epoch, used, e);
  }

  /** Recycle the extent of every slot below `slots`; none is refused, and all blocks are free again. */
  method ReturnExtents(a: HostAllocator.HostAllocator, slots: nat, epoch: nat, ghost used: nat)
    requires a.Valid() && Tiles(a.total, a.taken, slots, epoch, used)
    modifies a
    ensures a.Valid() && a.taken == map[]
    ensures forall s: nat | s < slots ::
              s in old(a.taken) && old(a.taken)[s].extent.hostGeneration < HostAllocator.GENERATIONS
              && a.GenerationOf(s) == SeqNumbers.Next(HostAllocator.GENERATIONS, old(a.taken)[s].extent.hostGeneration)
  {
    forall s: nat | s < slots ensures a.taken[s].extent.hostGeneration < HostAllocator.GENERATIONS {
      assert HostAllocator.Sound(a.total, a.free, a.taken, s);
    }
    for i := 0 to slots
      invariant a.Valid() && forall s :: s in a.taken <==> i <= s < slots
      invariant forall s | s in a.taken :: a.taken[s] == old(a.taken)[s]
      invariant forall s: nat | s < i :: a.GenerationOf(s) == SeqNumbers.Next(HostAllocator.GENERATIONS, old(a.taken)[s].extent.hostGeneration)
    {
      var ok := a.Recycle(i, epoch, true);
      assert ok;
    }
    assert a.taken == map[];
  }

  // ---- The engine ----

  predicate TargetFits(workers: seq<Worker>, prompt: nat, capacity: nat) {
    exists w | 0 <= w < |workers| :: !workers[w].draft && capacity <= workers[w].bankBlocks && prompt <= workers[w].prefillTokens
  }

  predicate VerifyFits(workers: seq<Worker>, depth: nat) {
    exists w | 0 <= w < |workers| :: !workers[w].draft && depth + 1 <= workers[w].verifyTokens
  }

  predicate DraftFits(workers: seq<Worker>, prompt: nat, depth: nat, capacity: nat) {
    exists w | 0 <= w < |workers| :: workers[w].draft && prompt + depth + 1 <= workers[w].batchTokens
      && (!workers[w].banked || capacity <= workers[w].bankBlocks)
  }

  predicate PromptOk(prompt: seq<int>) { prompt != [] && forall i | 0 <= i < |prompt| :: 0 <= prompt[i] < TOKENS }

  predicate Named(rs: seq<Record>, id: int) { exists i | 0 <= i < |rs| :: rs[i].id == id }

  /** Where an admitted request was put. */
  datatype Place = Place(slot: nat, prompt: nat, output: nat, config: nat, blocks: nat)

  class Engine {
    const slots: nat
    const blockSize: nat
    const snapshotBytes: nat
    const workers: seq<Worker>
    const banked: bool
    const limits: Room
    const host: HostAllocator.HostAllocator
    const draftHost: HostAllocator.HostAllocator
    var records: seq<Record>
    var used: Cost
    var heads: Room
    var epoch: nat
    var generations: seq<nat>
    /** WORKs issued whose completion has not retired. */
    var open: nat

    ghost predicate Valid()
      reads this, host, draftHost
    {
      && Shape() && host.Valid() && draftHost.Valid() && Books()
      && Tiles(host.total, host.taken, |records|, epoch, used.blocks)
      && DraftTiles(draftHost.taken)
    }

    ghost predicate Shape() {
      && blockSize > 0 && host != draftHost
      && banked == (exists w | 0 <= w < |workers| :: workers[w].draft && workers[w].banked)
      && (forall w :: w in limits.proposals <==> 0 <= w < |workers| && workers[w].draft)
      && limits.snapshots.Keys == limits.proposals.Keys
    }

    ghost predicate Books()
      reads this
    {
      && |records| <= slots && epoch < EPOCHS
      && (forall g | g in generations :: g < ARENA_GENERATIONS)
      && AllRounds(records) && Reserved(limits, heads, used, records, snapshotBytes, banked)
    }

    ghost predicate DraftTiles(taken: map<nat, HostAllocator.Allocation>)
      reads this
    {
      if banked then Tiles(draftHost.total, taken, |records|, epoch, used.draftBlocks) else taken == map[] && used.draftBlocks == 0
    }

    constructor (slots: nat, blockSize: nat, snapshotBytes: nat, workers: seq<Worker>, limits: Room, generations: seq<nat>, host: HostAllocator.HostAllocator,
                 draftHost: HostAllocator.HostAllocator)
      requires blockSize > 0 && host != draftHost && host.Valid() && draftHost.Valid() && host.taken == map[] == draftHost.taken
      requires forall w :: w in limits.proposals <==> 0 <= w < |workers| && workers[w].draft
      requires limits.snapshots.Keys == limits.proposals.Keys && forall g | g in generations :: g < ARENA_GENERATIONS
      ensures Valid() && records == [] && used == NOTHING && epoch == 1 && open == 0
    {
      this.slots, this.blockSize, this.snapshotBytes, this.workers, this.limits := slots, blockSize, snapshotBytes, workers, limits;
      this.banked := exists w | 0 <= w < |workers| :: workers[w].draft && workers[w].banked;
      this.host, this.draftHost := host, draftHost;
      records, used, epoch, open, this.generations := [], NOTHING, 1, 0, generations;
      heads := Room(0, 0, 0, map w | w in limits.proposals :: 0, map w | w in limits.snapshots :: 0);
      NothingTiled(host.total, 1);
      NothingTiled(draftHost.total, 1);
    }

    function Capacity(prompt: nat, config: Config): nat
      requires blockSize > 0
    {
      Blocks(prompt + config.maxNew, blockSize)
    }

    function CostFor(prompt: nat, config: Config): Cost
      requires blockSize > 0
    {
      CostOf(prompt, config, Capacity(prompt, config), snapshotBytes, banked)
    }

    /** The identity is new, a slot is free, some workers can hold and run the request, and its worst case is affordable. */
    predicate Accepts(id: int, prompt: seq<int>, config: Config)
      requires blockSize > 0
      reads this
    {
      var capacity := Capacity(|prompt|, config);
      && !Named(records, id) && |records| < slots && PromptOk(prompt)
      && TargetFits(workers, |prompt|, capacity) && VerifyFits(workers, config.depth) && DraftFits(workers, |prompt|, config.depth, capacity)
      && Affordable(limits, host.total, draftHost.total, used, CostFor(|prompt|, config))
    }

    method WriteTokens(n: nat) returns (offset: Option<nat>)
      modifies `heads
      ensures offset.Some? <==> old(heads).tokens + n <= limits.tokens
      ensures offset.Some? ==> offset.value == old(heads).tokens && heads == old(heads).(tokens := old(heads).tokens + n)
      ensures offset.None? ==> heads == old(heads)
    {
      if heads.tokens + n > limits.tokens { return None; }
      offset := Some(heads.tokens);
      heads := heads.(tokens := heads.tokens + n);
    }

    method WriteConfig(n: nat) returns (offset: Option<nat>)
      modifies `heads
      ensures offset.Some? <==> old(heads).configs + n <= limits.configs
      ensures offset.Some? ==> offset.value == old(heads).configs && heads == old(heads).(configs := old(heads).configs + n)
      ensures offset.None? ==> heads == old(heads)
    {
      if heads.configs + n > limits.configs { return None; }
      offset := Some(heads.configs);
      heads := heads.(configs := heads.configs + n);
    }

    method ReserveCompletion(members: nat) returns (offset: Option<nat>)
      modifies `heads
      ensures offset.Some? <==> members > 0 && old(heads).completions + CompletionBytes(members) <= limits.completions
      ensures offset.Some? ==>
                offset.value == old(heads).completions && heads == old(heads).(completions := old(heads).completions + CompletionBytes(members))
      ensures offset.None? ==> heads == old(heads)
    {
      var size := CompletionBytes(members);
      if members == 0 || heads.completions + size > limits.completions { return None; }
      offset := Some(heads.completions);
      heads := heads.(completions := heads.completions + size);
    }

    /**
     * Admission. A refusal changes nothing; and once the checks pass no write and no allocation fails, because every
     * request is placed right behind the ones before it.
     */
    method Admit(id: int, prompt: seq<int>, config: Config) returns (r: Result<Place>)
      requires Valid()
      modifies this, host, draftHost
      ensures Valid() && epoch == old(epoch) && generations == old(generations) && open == old(open)
      ensures r.Ok? <==> old(Accepts(id, prompt, config))
      ensures r.Err? ==> records == old(records) && used == old(used) && heads == old(heads) && host.taken == old(host.taken) && draftHost.taken == old(draftHost.taken)
      ensures r.Ok? ==> records == old(records) + [Fresh(id, config)] && used == Plus(old(used), CostFor(|prompt|, config))
      ensures r.Ok? ==> r.value == Place(|old(records)|, old(heads).tokens, old(heads).tokens + 4 * |prompt|, old(heads).configs, old(used).blocks)
    {
      if Named(records, id) { return Err("duplicate request id"); }
      if |records| >= slots { return Err("admission slot capacity exhausted"); }
      if !PromptOk(prompt) { return Err("prompt must contain valid unsigned token ids"); }
      var capacity := Capacity(|prompt|, config);
      if !TargetFits(workers, |prompt|, capacity) { return Err("request cannot fit any Target"); }
      if !VerifyFits(workers, config.depth) { return Err("request verify step cannot fit any Target"); }
      if !DraftFits(workers, |prompt|, config.depth, capacity) { return Err("request cannot fit any Draft"); }
      var cost := CostFor(|prompt|, config);
      if !Affordable(limits, host.total, draftHost.total, used, cost) { return Err("cohort budget exhausted"); }
      var place := Store(id, |prompt|, config);
      r := Ok(place);
    }

    method Store(id: int, prompt: nat, config: Config) returns (p: Place)
      requires Valid() && |records| < slots && Affordable(limits, host.total, draftHost.total, used, CostFor(prompt, config))
      modifies `records, `used, `heads, host, draftHost
      ensures Valid() && records == old(records) + [Fresh(id, config)] && used == Plus(old(used), CostFor(prompt, config))
      ensures p == Place(|old(records)|, old(heads).tokens, old(heads).tokens + 4 * prompt, old(heads).configs, old(used).blocks)
    {
      var slot, n := |records|, Capacity(prompt, config);
      var cost := CostFor(prompt, config);
      BlocksCover(prompt + config.maxNew, blockSize);
      AdmitKeeps(limits, heads, used, records, snapshotBytes, banked, host.total, draftHost.total, prompt, n, id, config);
      var input, settings, output := StoreBytes(prompt, config);
      var blocks := StoreExtents(slot, n);
      records, used := records + [Fresh(id, config)], Plus(used, cost);
      p := Place(slot, input, output, settings, blocks);
    }

    /** The prompt, the configuration and the room for the output, one behind the other. */
    method StoreBytes(prompt: nat, config: Config) returns (input: nat, settings: nat, output: nat)
      requires heads.tokens + 4 * (prompt + config.maxNew) <= limits.tokens && heads.configs + 16 + 4 * config.stops <= limits.configs
      modifies `heads
      ensures heads == old(heads).(tokens := old(heads).tokens + 4 * (prompt + config.maxNew), configs := old(heads).configs + 16 + 4 * config.stops)
      ensures input == old(heads).tokens && settings == old(heads).configs && output == old(heads).tokens + 4 * prompt
    {
      var first := WriteTokens(4 * prompt);
      var second := WriteConfig(16 + 4 * config.stops);
      var third := WriteTokens(4 * config.maxNew);
      input, settings, output := first.value, second.value, third.value;
    }

    /** The slot's extents in the two host arenas, behind all others. */
    method StoreExtents(slot: nat, n: nat) returns (blocks: nat)
      requires host != draftHost && host.Valid() && draftHost.Valid() && n > 0 && slot == |records|
      requires Tiles(host.total, host.taken, slot, epoch, used.blocks) && used.blocks + n <= host.total
      requires DraftTiles(draftHost.taken) && (banked ==> used.draftBlocks + n <= draftHost.total)
      modifies host, draftHost
      ensures host.Valid() && draftHost.Valid() && blocks == used.blocks
      ensures Tiles(host.total, host.taken, slot + 1, epoch, used.blocks + n)
      ensures if banked then Tiles(draftHost.total, draftHost.taken, slot + 1, epoch, used.draftBlocks + n) else draftHost.taken == old(draftHost.taken)
    {
      var extent := TakeExtent(host, slot, epoch, n, used.blocks);
      blocks := extent.offset;
      if banked {
        var draftExtent := TakeExtent(draftHost, slot, epoch, n, used.draftBlocks);
      }
    }

    /** New requests and heads that keep what is reserved. */
    method Put(h: Room, rs: seq<Record>)
      requires Valid() && |rs| == |records| && AllRounds(rs) && Reserved(limits, h, used, rs, snapshotBytes, banked)
      modifies `records, `heads
      ensures Valid() && records == rs && heads == h
    {
      records, heads := rs, h;
    }

    /** A batch may be issued: its members are distinct requests that may all make the move. */
    predicate Ready(m: Move, batch: seq<nat>)
      reads this
    {
      batch != [] && Members(m, records, batch)
    }

    /** Issue a batch as one WORK. The room for its completion is always there. */
    method Issue(draft: bool, batch: seq<nat>) returns (offset: Option<nat>)
      requires Valid() && Ready(if draft then IssueDraft else IssueTarget, batch)
      modifies `records, `heads, `open
      ensures Valid() && open == old(open) + 1
      ensures offset == Some(old(heads).completions)
      ensures records == After(if draft then IssueDraft else IssueTarget, old(records), batch)
      ensures heads == old(heads).(completions := old(heads).completions + CompletionBytes(|batch|))
    {
      ghost var m := if draft then IssueDraft else IssueTarget;
      IssueKeeps(limits, heads, used, records, snapshotBytes, banked, m, batch);
      offset := ReserveCompletion(|batch|);
      records := Moved(if draft then IssueDraft else IssueTarget, batch);
      open := open + 1;
    }

    method Moved(m: Move, batch: seq<nat>) returns (rs: seq<Record>)
      requires Members(m, records, batch)
      ensures rs == After(m, records, batch)
    {
      rs := records;
      for i := 0 to |batch|
        invariant rs == After(m, records, batch[..i])
      {
        assert batch[..i + 1][..i] == batch[..i];
        rs := rs[batch[i] := Step(m, rs[batch[i]])];
      }
      assert batch[..|batch|] == batch;
    }

    method Sizes(budgets: seq<nat>) returns (proposals: nat, snapshots: nat)
      ensures proposals == Total(ProposalSizes(budgets)) && snapshots == Times(|budgets|, snapshotBytes)
    {
      proposals, snapshots := 0, 0;
      for i := 0 to |budgets|
        invariant proposals == Total(ProposalSizes(budgets[..i])) && snapshots == Times(i, snapshotBytes)
      {
        assert ProposalSizes(budgets[..i + 1])[..i] == ProposalSizes(budgets[..i]);
        OneLess(i + 1, snapshotBytes);
        proposals, snapshots := proposals + ProposalBytes(budgets[i]), snapshots + snapshotBytes;
      }
      assert budgets[..|budgets|] == budgets;
    }

    /**
     * A draft worker reserves the proposals and snapshots of a WORK it was given, wherever that is. Both arenas are
     * checked before either moves, and neither check ever fails.
     */
    method ReservePayloads(w: nat, batch: seq<nat>, budgets: seq<nat>) returns (offsets: Option<(nat, nat)>)
      requires Valid() && w < |workers| && workers[w].draft && workers[w].banked
      requires Members(Payload, records, batch) && |budgets| == |batch|
      requires forall i | 0 <= i < |batch| :: budgets[i] <= records[batch[i]].config.depth
      modifies `records, `heads
      ensures Valid() && offsets == Some((old(heads).proposals[w], old(heads).snapshots[w]))
      ensures records == After(Payload, old(records), batch)
      ensures heads == Further(old(heads), w, Total(ProposalSizes(budgets)), Times(|batch|, snapshotBytes))
    {
      PayloadsKeep(limits, heads, used, records, snapshotBytes, w, batch, budgets);
      var proposals, snapshots := Sizes(budgets);
      if heads.proposals[w] + proposals > limits.proposals[w] || heads.snapshots[w] + snapshots > limits.snapshots[w] { return None; }
      offsets := Some((heads.proposals[w], heads.snapshots[w]));
      var rs := Moved(Payload, batch);
      Put(Further(heads, w, proposals, snapshots), rs);
    }

    /**
     * The cumulative output of a newer target round is classified. A count that falls back or exceeds the maximum is
     * refused. The reservation stays sound exactly when the request ends, or has as many tokens as classified rounds and
     * may still have more: a verification adds a token each time, so its results always do.
     */
    method Classify(slot: nat, count: nat, finished: bool) returns (ok: bool)
      requires Valid() && slot < |records| && records[slot].results < records[slot].targets
      modifies `records
      ensures ok <==> old(records)[slot].outputs <= count <= old(records)[slot].config.maxNew
      ensures !ok ==> Valid() && records == old(records)
      ensures ok ==> records == old(records)[slot := Classified(old(records)[slot], count, finished)]
      ensures ok ==> (Valid() <==> (old(records)[slot].active && !finished ==> old(records)[slot].results < count < old(records)[slot].config.maxNew))
    {
      ok := records[slot].outputs <= count <= records[slot].config.maxNew;
      if !ok { return; }
      var now := Classified(records[slot], count, finished);
      if RoundsOk(now) {
        SameLeft(limits, heads, used, records, snapshotBytes, banked, slot, now);
      }
      records := records[slot := now];
      assert records[slot] == now;
    }

    method Cancel(slot: nat)
      requires Valid() && slot < |records|
      modifies `records
      ensures Valid() && records == old(records)[slot := old(records)[slot].(active := false)]
    {
      SameLeft(limits, heads, used, records, snapshotBytes, banked, slot, records[slot].(active := false));
      records := records[slot := records[slot].(active := false)];
    }

    method Retire()
      requires Valid() && open > 0
      modifies `open
      ensures Valid() && open == old(open) - 1
    {
      open := open - 1;
    }

    /**
     * Recycle a quiescent cohort: every extent returns, the arenas start over under the next generations, and the whole
     * capacity is there again, while the generation of every slot moves on. It stops only where arena generations end.
     */
    method Recycle() returns (ok: bool)
      requires Valid() && open == 0 && (forall i | 0 <= i < |records| :: !records[i].active)
      modifies this, host, draftHost
      ensures ok <==> forall g | g in old(generations) :: g + STRIDE < ARENA_GENERATIONS
      ensures ok ==> Valid() && records == [] && used == NOTHING && host.taken == map[] == draftHost.taken && epoch == SeqNumbers.Next(EPOCHS, old(epoch))
      ensures ok ==> generations == Advanced(old(generations))
      ensures ok ==> heads == Room(0, 0, 0, map w | w in limits.proposals :: 0, map w | w in limits.snapshots :: 0)
    {
      ReturnAll();
      var next := NextGenerations(generations);
      ok := next.Some?;
      if ok { Restart(next.value); }
    }

    method ReturnAll()
      requires Valid()
      modifies host, draftHost
      ensures host.Valid() && draftHost.Valid() && host.taken == map[] == draftHost.taken
    {
      ReturnExtents(host, |records|, epoch, used.blocks);
      if banked {
        ReturnExtents(draftHost, |records|, epoch, used.draftBlocks);
      }
    }

    /** Nothing is admitted and nothing is written, in the next epoch. */
    method Restart(next: seq<nat>)
      requires Shape() && host.Valid() && draftHost.Valid() && host.taken == map[] == draftHost.taken && epoch < EPOCHS
      requires forall g | g in next :: g < ARENA_GENERATIONS
      modifies `records, `used, `heads, `epoch, `generations
      ensures Valid() && records == [] && used == NOTHING && epoch == SeqNumbers.Next(EPOCHS, old(epoch)) && generations == next
      ensures heads == Room(0, 0, 0, map w | w in limits.proposals :: 0, map w | w in limits.snapshots :: 0)
    {
      heads := Room(0, 0, 0, map w | w in limits.proposals :: 0, map w | w in limits.snapshots :: 0);
      records, used, epoch, generations := [], NOTHING, SeqNumbers.Next(EPOCHS, epoch), next;
      NothingTiled(host.total, epoch);
      NothingTiled(draftHost.total, epoch);
    }
  }

  // ---- Generations of the arenas ----

  const STRIDE: nat := 2

  function Advanced(generations: seq<nat>): seq<nat> { seq(|generations|, i requires 0 <= i < |generations| => generations[i] + STRIDE) }

  /** The generations of the arenas in a later cohort. */
  function InCohort(generations: seq<nat>, cohort: nat): (r: seq<nat>)
    ensures |r| == |generations|
  {
    if cohort == 0 then generations else Advanced(InCohort(generations, cohort - 1))
  }

  lemma {:induction false} CohortAt(generations: seq<nat>, cohort: nat, i: nat)
    requires i < |generations|
    ensures InCohort(generations, cohort)[i] == generations[i] + STRIDE * cohort
  {
    if cohort > 0 { CohortAt(generations, cohort - 1, i); }
  }

  /** No handle of one cohort names an arena of another, because a handle is known by its generation. */
  ghost predicate Fenced(generations: seq<nat>) {
    forall c: nat, d: nat, i, j | c < d && 0 <= i < |generations| && 0 <= j < |generations| ::
      InCohort(generations, c)[i] != InCohort(generations, d)[j]
  }

  /**
   * Old handles are fenced off exactly when the generations of the arenas of one kind, which are the ids of their workers
   * plus one, differ modulo the stride. The stride is two, so no three draft workers are fenced from each other.
   */
  lemma FencedExactly(generations: seq<nat>)
    ensures Fenced(generations) <==>
            forall i, j | 0 <= i < |generations| && 0 <= j < |generations| && generations[i] != generations[j] ::
              generations[i] % STRIDE != generations[j] % STRIDE
  {
    if i, j :| 0 <= i < |generations| && 0 <= j < |generations| && generations[i] < generations[j]
               && generations[i] % STRIDE == generations[j] % STRIDE {
      var later := (generations[j] - generations[i]) / STRIDE;
      CohortAt(generations, 0, j);
      CohortAt(generations, later, i);
      assert InCohort(generations, 0)[j] == InCohort(generations, later)[i];
    } else {
      forall c: nat, d: nat, i, j | c < d && 0 <= i < |generations| && 0 <= j < |generations|
        ensures InCohort(generations, c)[i] != InCohort(generations, d)[j]
      {
        CohortAt(generations, c, i);
        CohortAt(generations, d, j);
      }
    }
  }

  lemma ThreeNotFenced(a: nat, b: nat, c: nat)
    requires a != b && b != c && a != c
    ensures !Fenced([a, b, c])
  {
    var g := [a, b, c];
    FencedExactly(g);
    assert g[0] == a && g[1] == b && g[2] == c;
  }

  method NextGenerations(generations: seq<nat>) returns (next: Option<seq<nat>>)
    ensures next.Some? <==> forall g | g in generations :: g + STRIDE < ARENA_GENERATIONS
    ensures next.Some? ==> next.value == Advanced(generations) && forall g | g in next.value :: g < ARENA_GENERATIONS
  {
    var now := [];
    for i := 0 to |generations|
      invariant |now| == i && forall j | 0 <= j < i :: now[j] == generations[j] + STRIDE < ARENA_GENERATIONS
    {
      if generations[i] + STRIDE >= ARENA_GENERATIONS {
        assert generations[i] in generations;
        return None;
      }
      now := now + [generations[i] + STRIDE];
    }
    next := Some(now);
    assert now == Advanced(generations);
  }

  function ProposalSizes(budgets: seq<nat>): seq<nat> { seq(|budgets|, i requires 0 <= i < |budgets| => ProposalBytes(budgets[i])) }

  lemma IssueKeeps(limits: Room, heads: Room, used: Cost, rs: seq<Record>, snapshotBytes: nat, banked: bool, m: Move, batch: seq<nat>)
    requires AllRounds(rs) && Reserved(limits, heads, used, rs, snapshotBytes, banked)
    requires Members(m, rs, batch) && batch != [] && !m.Payload?
    ensures AllRounds(After(m, rs, batch)) && heads.completions + CompletionBytes(|batch|) <= limits.completions
    ensures Reserved(limits, heads.(completions := heads.completions + CompletionBytes(|batch|)), used, After(m, rs, batch), snapshotBytes, banked)
  {
    var n := |batch|;
    CompletionShared(n);
    MovesFit(m, Completions, rs, batch, seq(n, i => 72));
    MovesFit(m, Proposals, rs, batch, seq(n, i => 0));
    MovesFit(m, Snapshots(snapshotBytes), rs, batch, seq(n, i => 0));
    TotalSame(n, 72);
  }

  /** The two payload arenas of a worker, further on. */
  function Further(h: Room, w: nat, proposals: nat, snapshots: nat): Room
    requires w in h.proposals && w in h.snapshots
  {
    h.(proposals := h.proposals[w := h.proposals[w] + proposals], snapshots := h.snapshots[w := h.snapshots[w] + snapshots])
  }

  lemma PayloadsKeep(limits: Room, heads: Room, used: Cost, rs: seq<Record>, snapshotBytes: nat, w: nat, batch: seq<nat>, budgets: seq<nat>)
    requires AllRounds(rs) && Reserved(limits, heads, used, rs, snapshotBytes, true) && Members(Payload, rs, batch) && |budgets| == |batch|
    requires forall i | 0 <= i < |batch| :: budgets[i] <= rs[batch[i]].config.depth
    requires w in limits.proposals && w in limits.snapshots
    ensures AllRounds(After(Payload, rs, batch))
    ensures var p, s := Total(ProposalSizes(budgets)), Times(|batch|, snapshotBytes);
            && heads.proposals[w] + p <= limits.proposals[w] && heads.snapshots[w] + s <= limits.snapshots[w]
            && Reserved(limits, Further(heads, w, p, s), used, After(Payload, rs, batch), snapshotBytes, true)
  {
    var n := |batch|;
    MovesFit(Payload, Completions, rs, batch, seq(n, i => 0));
    MovesFit(Payload, Proposals, rs, batch, ProposalSizes(budgets));
    MovesFit(Payload, Snapshots(snapshotBytes), rs, batch, seq(n, i => snapshotBytes));
    TotalSame(n, snapshotBytes);
  }

  /** A change that moves no round leaves the reservation alone. */
  lemma SameLeft(limits: Room, heads: Room, used: Cost, rs: seq<Record>, snapshotBytes: nat, banked: bool, i: nat, r: Record)
    requires AllRounds(rs) && Reserved(limits, heads, used, rs, snapshotBytes, banked) && i < |rs| && RoundsOk(r)
    requires r.config == rs[i].config && r.targets == rs[i].targets && r.drafts == rs[i].drafts && r.payloads == rs[i].payloads
    ensures AllRounds(rs[i := r]) && Reserved(limits, heads, used, rs[i := r], snapshotBytes, banked)
  {
    LeftUpdated(Completions, rs, i, r);
    LeftUpdated(Proposals, rs, i, r);
    LeftUpdated(Snapshots(snapshotBytes), rs, i, r);
  }
}
