# NebulaSD control plane: a Dafny model

NebulaSD runs speculative decoding over many workers. Draft workers propose tokens, Target workers verify them, and a
control plane moves requests and their KV state between the two through shared memory. This project models the parts of
that control plane on which correctness rests, and proves what each of them promises.

- **Observation plane.** `SeqNumbers` is the modular order of sequence words. `StableTable` is the seqlock row, written
  and read byte by byte while the other side runs. `SpscRing` is the single-producer ring with 64-bit counters that wrap.
  `Observation` is the reader: a poll runs against any number of writers that may take any number of atomic steps between
  any two of its own. The main results are that no publication is lost, that a poll emits each row at most once and within
  its budget, that a rescan gets its share of every poll, and that polling until idle delivers every row's last publication.
- **Placement planner.** `Assignment` is the bitmask DP. `Placement`, `Menus`, `Seeding` and `Planning` are the fit rules,
  the greedy cuts, the partition menu, the seed, the choice of the cheapest entry and the outer loop. `ServiceInterval` is
  the alternative policy with start bounds. Costs are reals and `predict` is any function of a worker and a multiset.
- **Lossless verification and exact KV.** `Lossless` is greedy acceptance against plain decoding. `CompactTarget` and
  `VerifyBatch` are a verification round of one row and of a flat batch. `HostKv` is the host arena and its dirty ranges.
  `Generation` composes them over a whole request, with arbitrary drafts and with moves between workers. The target model is
  any function from cells to tokens, and a cell is any function of the cells before it and a token.
- **Paged double-bank allocator.** `Banks` holds the state and its invariant; `BankManager` holds the operations.
  `DraftSessions` is the draft adapter whose transactions are checked on simulated lengths before anything runs.
  `DraftBanks` is the adapter on the two banks: it reserves, imports, computes, leases and retires batches, and none of the
  manager's refusals can happen to it.
- **Engine.** `Admission` is the worst-case budget with the rounds it pays for, over cohorts and recycles. `WorkProgress` and
  `WorkLedger` send numbered WORKs to queues that may be full, and keep authorizations and events until each WORK retires.
- **Wire.** `Codec` builds codecs that accept exactly what they write. `Commands` is the six hot command payloads made of
  them, and `WorkCodec` the payload of a WORK with its padding. `CommandSlots` is the native payload arena with one slot per ring entry, read while the producer goes on.
- **Allocators, scheduling and chunking.** `CommandArena` is the circular byte arena, `HostAllocator` the coalescing
  first-fit list, `FcfsScheduler` the strict first-come-first-served queues, `CopyChunks` the H2D chunking.
- `Sorting`, `BlockMath` and `Wrappers` are shared helpers.

Concurrency is modelled by interference: a method that stands for one atomic step of a component is followed by a method
that runs any number of steps of the other components. A contract of such a method therefore speaks of every interleaving.
Ghost or history fields (`log`, `produced`, `published`, `arrived`) record what was ever written; the real code has no such
fields.

Where a promise turned out to depend on a condition, the condition is stated exactly:

- `IsNewer` composes over three words exactly while the two distances stay within half the range (`TransitiveExactly`), and
  otherwise it can cycle (`OrderCycles`).
- `Reader::reset` keeps every row safe exactly when the reader had already seen the last publication of each row it keeps,
  and the rows it forgets are unpublished. If every row was safe and `has_pending` was false before the reset, then exactly
  when the rows it forgets have no published word (`Reader.Reset`).
- A reservation keeps the allocator's invariant exactly when the row is not live in the other bank (`ReserveKeeps`), and a
  bank reset exactly when none of its rows still has blocks in the table (`ResetKeeps`). `ReservesInBothBanks` and
  `ResetsUnderLiveRow` are runs that break it. `DraftBanks` never does either.
- The command arena refuses a payload although a long enough stretch is free exactly when it has wrapped and the payload does
  not fit between head and tail (`RefusedThoughFree`). `RefusedRun` is a run of allocations and releases that ends so.
- A verification advances the KV version by two modulo 2^64. The result is a valid version exactly when the version was not
  2^64 - 3 (`VersionAdvances`); a request that starts at version zero stays on even versions and never meets that case.
- The comment beside the scheduler's GPU block count says that it always equals the sum over the running requests. As long as
  requests only grow after a launch and none has left, it does exactly when no running request has crossed a block boundary
  since (`CountIsSum`); `CountGoesStale` is a run of one launch and one token after which the count is one and the sum two.
- `get_next_batch` runs out of row ids exactly when nothing is swapped out and the longest fitting prefix of the waiting queue
  has more requests than there are free ids (`Scheduler.GetNextBatch`). Then the batch is in no queue (`LosesBatch`).
- `on_batch_finish` keeps the scheduler's invariant exactly when every finished running request is in the batch it is given
  (`Scheduler.FinishBatch`).
- Releasing the same sessions twice is a no-op the second time exactly when they are no more than the replay window
  (`ReleaseTwice`).
- The generation test refuses a handle of an earlier cohort in every later one exactly when the generations of the arenas of its
  kind differ modulo the stride (`FencedExactly`). The stride is two, because there is one token arena, so the test can never tell
  apart the cohorts of three draft workers (`ThreeNotFenced`). The check against the published extent is a separate one.
- Classifying a result keeps the admission's reservation exactly when the request ends with it, or has at least one token for each
  classified round and room for more (`Engine.Classify`).
- A payload that decodes is what its command encodes to, unless a list outside the draft bank commands has exactly 2^32 - 1
  members, which the decoder takes and the encoder refuses (`OnlyEncoded`).
- A WORK decodes to itself exactly when none of its owner epochs and layout ids is 2^64 - 1, which is written like a missing one
  (`WorkRoundTrip`). Other bytes decode to the same WORK when only padding differs (`DecodesExactly`).

## Model

| member | source | states |
|---|---|---|
| SeqNumbers.NativeNewerIsNewer | nebulasd/csrc/control_plane/reader.cpp:53-57 | The branching word comparison of the native reader agrees with the published modular one on every two valid words |
| SeqNumbers.Trichotomy | nebulasd/src/nebulasd/core/ids.py:64-75 | Of two different words exactly one is newer, in every domain with an odd modulus |
| SeqNumbers.SentinelIsOdd | nebulasd/src/nebulasd/core/ids.py:32-49 | Every domain of at least two bits has such an odd modulus of at least three |
| SeqNumbers.NextAdvances | nebulasd/src/nebulasd/core/ids.py:64-66 | The next word is valid, never the sentinel, and newer than its predecessor, also at the wrap |
| SeqNumbers.WindowOrder | nebulasd/src/nebulasd/core/ids.py:68-75 | For positions at most half a range apart the residues are ordered and equal exactly as the positions are |
| SeqNumbers.TransitiveExactly | nebulasd/src/nebulasd/core/ids.py:72-75 | Newer composes over three words if and only if the two distances together stay within half the range |
| SeqNumbers.OrderCycles | nebulasd/src/nebulasd/core/ids.py:72-75 | In every domain three valid words exist that are newer than each other in a circle |
| StableTable.UnnamedCarriedOver | nebulasd/csrc/control_plane/native.cpp:27-34 | A byte that no store of a publication names keeps its value from the publication before |
| StableTable.NamedFieldLands | nebulasd/csrc/control_plane/native.cpp:30-32 | With disjoint fields, byte j of field f ends up with that field's own byte of the packed payload |
| StableTable.TableRow.Publish | nebulasd/csrc/control_plane/native.cpp:27-34 | Ends with the row holding the applied stores and the committed sequence; the log gains exactly that payload |
| StableTable.TableRow.WriterStep | nebulasd/csrc/control_plane/native.cpp:27-34 | Any single atomic step of a publication keeps the row invariant and only extends the log |
| StableTable.TableRow.Read | nebulasd/csrc/control_plane/native.cpp:35-44 | With writer steps between any two byte loads, a successful read returns exactly the row committed under the sequence it reports; undisturbed it succeeds if and only if a sequence is committed |
| SpscRing.SlotSurvivesWrap | nebulasd/csrc/control_plane/native.cpp:64-70 | For a power-of-two capacity the slot of a counter modulo 2^64 is the slot of the unbounded counter |
| SpscRing.SlotsDiffer | nebulasd/csrc/control_plane/native.cpp:66-67 | Two records fewer than the capacity apart never share a slot |
| SpscRing.Ring.ProducerStep | nebulasd/csrc/control_plane/native.cpp:64-70 | Any single store of a push, the partly written record included, leaves every unread record and the consumer's counter alone |
| SpscRing.Ring.Push | nebulasd/csrc/control_plane/native.cpp:64-70 | With the consumer running: the record is appended, or the ring was full when the push began; no unread slot is written |
| SpscRing.Ring.Peek | nebulasd/csrc/control_plane/native.cpp:71-76 | With the producer running: returns the oldest unread record, or nothing was unread when the peek began |
| SpscRing.Ring.Ack | nebulasd/csrc/control_plane/native.cpp:77-77 | Exactly one record more is consumed |
| SpscRing.Ring.TryPop | nebulasd/csrc/control_plane/ring.cpp:51-66 | Pops the oldest record if it is current, reports a stale one and leaves it in place, or the ring was empty |
| SpscRing.Ring.Drain | nebulasd/csrc/control_plane/native.cpp:80-93 | The two-part copy delivers the next records in order, up to the limit or to everything unread when the drain began, and consumes exactly those |
| SpscRing.Ring.DrainOneByOne | nebulasd/csrc/control_plane/native.cpp:71-77 | Repeated peek and ack meets the very same delivery condition |
| Observation.WordsOrdered | nebulasd/csrc/control_plane/reader.cpp:53-57 | Inside half the range the word comparisons decide the order in which a row was published |
| Observation.Reader.WriterStep | nebulasd/csrc/control_plane/native.cpp:96-106 | Any atomic step of any publisher (invalidate, commit, hint or overflow flag) keeps every row safe |
| Observation.Reader.Announce | nebulasd/csrc/control_plane/native.cpp:103-104 | The hint is pushed, or a full or stale-looking ring gets its overflow flag, so the publication stays reachable |
| Observation.Reader.AddHint | nebulasd/csrc/control_plane/reader.cpp:58-62 | A row is queued once, under the newest position hinted |
| Observation.Reader.TableRead | nebulasd/csrc/control_plane/native.cpp:35-44 | A stable read whose two word loads are compared as words, with writers running between them: the payload is the one published last under the word it reports |
| Observation.Reader.Capture | nebulasd/csrc/control_plane/reader.cpp:63-75 | After at most sixteen reads the row's last publication is known, or nothing changed; a row fills one output slot a poll |
| Observation.Reader.DrainRings | nebulasd/csrc/control_plane/reader.cpp:80-101 | Hints move from the rings to the end of the queue within the budget, released only when merged, with every row still safe; with idle writers each ring gives up all of its entries or an even share of the budget |
| Observation.Reader.StartScan | nebulasd/csrc/control_plane/reader.cpp:102-103 | A taken overflow flag is turned into a rescan that starts from row zero, or is owed until the running scan ends |
| Observation.Reader.PollPriority | nebulasd/csrc/control_plane/reader.cpp:105-108 | Each urgent row costs at most one output, and with idle writers each is up to date |
| Observation.Reader.PollPending | nebulasd/csrc/control_plane/reader.cpp:109-114 | The given number of hints leaves the queue, oldest first and the others in order; a row that could not be read is queued again behind them |
| Observation.Reader.PollScan | nebulasd/csrc/control_plane/reader.cpp:115-120 | The scan moves past a row only with the row safe, and by exactly the given number of rows or through the last one |
| Observation.Reader.Poll | nebulasd/csrc/control_plane/reader.cpp:76-122 | In every interleaving every unseen publication stays reachable, each row is emitted at most once, at most budget plus priority outputs, each output is a real publication, and seen positions only rise; while a rescan runs queued hints take at most half of the budget and the rescan goes on by at least the other half; with idle writers every ring gets its share and the backlog shrinks |
| Observation.Reader.PollThroughScan | nebulasd/csrc/control_plane/reader.cpp:109-120 | Whatever the writers do, a running rescan visits every row within a number of polls fixed by the rows left and half of the budget |
| Observation.Reader.NothingPendingNothingMissed | nebulasd/csrc/control_plane/reader.cpp:123-130 | With no writer mid-publication, has_pending false means the reader has every row's last publication |
| Observation.Reader.PollUntilIdle | nebulasd/csrc/control_plane/reader.cpp:76-130 | Once the writers stop, finitely many polls end with nothing pending and every row's last publication seen |
| Observation.Reader.Reset | nebulasd/csrc/control_plane/reader.cpp:131-144 | After a reset every row is safe if and only if each kept row was already seen and each forgotten row is unpublished; from a safe reader with nothing pending, if and only if the forgotten rows show no published word |
| Assignment.LexNotLess | nebulasd/csrc/scheduler/scheduler.cpp:431-431 | The tie-breaking order of paths is total enough that not-less composes |
| Assignment.ExtendedMonotone | nebulasd/csrc/scheduler/scheduler.cpp:424-433 | Giving the next batch to the same worker keeps the order of two partial assignments |
| Assignment.PlaceBatch | nebulasd/csrc/scheduler/scheduler.cpp:422-433 | One round over the masks, in any order, keeps the table sound, and keeps it optimal for every set of workers |
| Assignment.LastStep | nebulasd/csrc/scheduler/scheduler.cpp:423-433 | Every feasible assignment of one batch more is matched or beaten by the entry for its worker set |
| Assignment.Beam | nebulasd/csrc/scheduler/scheduler.cpp:434-441 | The beam keeps exactly 64 entries, unchanged, none worse than one dropped |
| Assignment.Assign | nebulasd/csrc/scheduler/scheduler.cpp:410-448 | The result is a feasible injective assignment with its true cost, and with at most 8 workers no feasible assignment is cheaper or comes before it, and one is found if any exists |
| Placement.Planner.ComputeFits | nebulasd/csrc/scheduler/scheduler.cpp:242-260 | The summing loop decides whether rows, blocks and tokens are within the worker's limits |
| Placement.TokensByRole | nebulasd/csrc/scheduler/scheduler.cpp:252-256 | Setting up a draft counts the prompt and the output through this proposal, never past the maximum; setting up a target the prompt; a later round the proposal and one token |
| Placement.Planner.ComputeMayRun | nebulasd/csrc/scheduler/scheduler.cpp:261-272 | The three running extremes decide readiness of every member, the fit, and the full-or-waited rule |
| Placement.SpansDecide | nebulasd/csrc/scheduler/scheduler.cpp:316-317 | Comparing the two extremes is comparing the slot with every member |
| Placement.Cut | nebulasd/csrc/scheduler/scheduler.cpp:311-341 | The batching loop returns the greedy cut, and gives up if and only if that needs more batches than workers |
| Placement.GreedyCutCuts | nebulasd/csrc/scheduler/scheduler.cpp:315-339 | The greedy cut splits the order into consecutive runs, each as long as the joining rule allows |
| Placement.OnlyCut | nebulasd/csrc/scheduler/scheduler.cpp:315-339 | It is the only such split of the order |
| Menus.OrdersSorted | nebulasd/csrc/scheduler/scheduler.cpp:285-296 | The second and third orders are permutations sorted by readiness and by shape |
| Menus.Partitions | nebulasd/csrc/scheduler/scheduler.cpp:283-350 | The menu holds exactly the greedy cuts of three orders and up to four caps that need no more batches than workers, each once |
| Menus.EntryPartitions | nebulasd/csrc/scheduler/scheduler.cpp:342-347 | Every menu entry is a true partition of the admitted slots into nonempty batches |
| Menus.EntryKeepsTogether | nebulasd/csrc/scheduler/scheduler.cpp:316-326 | No batch exceeds its cap, every batch of two or more fits some worker, and past the first order members are ready within 0.002 of each other |
| Seeding.Fill | nebulasd/csrc/scheduler/scheduler.cpp:371-386 | The batch is a fitting in-order selection within the slack, and each slot left out was too late, did not fit, or came after the batch was full |
| Seeding.Seed | nebulasd/csrc/scheduler/scheduler.cpp:354-391 | Seats are disjoint, fit, and belong to different workers; each worker in turn is filled from what those before it left; nothing is seated only when no slot fits any worker alone |
| Planning.GroupsPair | nebulasd/csrc/scheduler/scheduler.cpp:449-451 | Keyed by worker id, an injective assignment loses no batch and mixes none up |
| Planning.ServedGroups | nebulasd/csrc/scheduler/scheduler.cpp:449-451 | Serving a partition gives groups that are allowed, give no slot twice, and place exactly its slots |
| Planning.ServesExactly | nebulasd/csrc/scheduler/scheduler.cpp:412-420 | The finite prices of the table are exactly the pairs of a batch and a worker that may run it, so the table's paths are exactly the ways of serving the menu |
| Planning.PricesAreTotal | nebulasd/csrc/scheduler/scheduler.cpp:418-430 | The prices on a path add up to the predicted costs of its batches on their workers and their weighted predicted times |
| Planning.TotalIsPredicted | nebulasd/csrc/scheduler/scheduler.cpp:419-420 | That total is the sum of the predicted costs plus the weight times the sum of the predicted compute times |
| Planning.ChooseBest | nebulasd/csrc/scheduler/scheduler.cpp:400-457 | With at most 8 workers the choice has the least total of predicted costs and weighted times over all ways to serve any entry, ties broken by the group order, and it exists if any entry can be served |
| Planning.KeepSeed | nebulasd/csrc/scheduler/scheduler.cpp:460-463 | The fallback keeps exactly the seats whose worker may run them |
| Planning.Once | nebulasd/csrc/scheduler/scheduler.cpp:351-464 | The groups are valid; with at most 8 workers no way of serving the seed or any menu entry has a smaller total of predicted costs and weighted times, or nothing can be served and they are the allowed seats of the seed |
| Planning.LeastWithoutWeight | nebulasd/csrc/scheduler/scheduler.cpp:412-464 | With weight zero no way of serving an offered menu has a smaller sum of predicted costs than the groups have |
| Planning.FreeFirst | nebulasd/csrc/scheduler/scheduler.cpp:353-357 | Workers are seated in the order in which they become free, the lesser id first among equals |
| Planning.Run | nebulasd/csrc/scheduler/scheduler.cpp:465-486 | The run is round after round of whole answers for what is left; no request goes to two workers and no worker gets two batches, every batch may run, and the loop stops only with nothing left, no worker left, or no further group possible |
| ServiceInterval.Deadlines.Filter | nebulasd/csrc/scheduler/service_interval.h:62-72 | The kept batch starts by every member's bound plus delay, and each slot dropped would have made an accepted part late |
| ServiceInterval.Deadlines.OnTimeByLimit | nebulasd/csrc/scheduler/service_interval.h:63-68 | Starting by the running limit is starting on time for every member |
| ServiceInterval.WithinFits | nebulasd/csrc/scheduler/service_interval.h:68-73 | Dropping members of a fitting batch keeps it fitting when no demand is negative |
| ServiceInterval.FirstFit | nebulasd/csrc/scheduler/service_interval.h:45-52 | The batch is the first-fit selection of the ranking, never above the worker's maximum |
| ServiceInterval.Run | nebulasd/csrc/scheduler/service_interval.h:6-78 | Workers are served by increasing id, each by the deadline rule over a first fit of what those before it left, led by the best ranked free request; no request is served twice, each kept batch starts no later than every member's bound plus delay plus 1e-9 or is a single request under a negative delay, and a worker is left without a batch only if nothing unserved fits it |
| Lossless.ComputeGreedyAcceptance | swiftLLM/swiftllm/speculative.py:122-156 | Fails exactly on the three bad arguments, and otherwise returns the accepted tokens and count |
| Lossless.ContinueIsGreedy | swiftLLM/swiftllm/server/structs.py:72-76 | In plain decoding each token is what the target puts after all before it, and only the last may be a stop token |
| Lossless.AcceptedFollows | swiftLLM/swiftllm/speculative.py:137-154 | For any target, draft and output so far, acceptance adds at least one token and at most the budget, and plain decoding from there ends in the same output |
| Lossless.AcceptedAgrees | swiftLLM/swiftllm/speculative.py:137-156 | The accepted tokens are the target's, agreed draft tokens and then at most one more where the agreement ends; there are as many as agreement, limit and first stop allow, and the count is of all the agreed ones |
| Lossless.AgreesOnly | swiftLLM/swiftllm/speculative.py:137-156 | Those conditions leave one answer: any acceptance that meets them is the one returned |
| CompactTarget.SaidIsPosterior | swiftLLM/swiftllm/server/starsd_compact_target.py:86-100 | Feeding anchor and draft at consecutive positions makes the model say what it would put after each of them |
| CompactTarget.RoundIsLossless | swiftLLM/swiftllm/server/starsd_compact_target.py:118-146 | A round leaves cells for exactly prompt and output but its last token, and does not change what decoding will end in; it reports finished if and only if it is |
| CompactTarget.VerifiedRight | swiftLLM/swiftllm/server/starsd_compact_target.py:118-154 | The report has the accepted tokens and their count, the length grown by them, the blocks that cover this length with no block to spare, the version two steps on, and says all this of the row as it is left |
| CompactTarget.KeptCells | swiftLLM/swiftllm/server/starsd_compact_target.py:127-131 | After the crop the valid cells are those of the accepted tokens but the last, although rejected cells stay in memory |
| VerifyBatch.LayOut | swiftLLM/swiftllm/server/starsd_compact_target.py:74-100 | The flat inputs give each item its own consecutive slice with the right rows, lengths and tokens |
| VerifyBatch.Forward | swiftLLM/swiftllm/server/starsd_compact_target.py:112-117 | Running all lines answers each item from its own cells only, and changes only the rows named |
| VerifyBatch.TargetBank.VerifyCompact | swiftLLM/swiftllm/server/starsd_compact_target.py:48-164 | Succeeds if and only if every listed check passes, changes nothing when it fails, and otherwise each row and result is as if its item had been verified alone, with the right tokens, length, blocks and version |
| HostKv.HostArena.WriteKv | nebulasd/src/nebulasd/kv/arena.py:283-304 | Accepts exactly the leases that match; then both planes of the extent hold the payload at the range and nothing else of it or of any disjoint extent changes |
| HostKv.HostArena.ReadKv | nebulasd/src/nebulasd/kv/arena.py:306-311 | Returns both planes of the asked range, or fails exactly when it is out of the extent |
| HostKv.WriteExtent | nebulasd/src/nebulasd/kv/host_facts.py:78-93 | Accepted if and only if every listed check passes; then the dirty range starts inside the committed prefix, so the lease over it is never refused for a gap |
| HostKv.VersionAdvances | swiftLLM/swiftllm/server/starsd_compact_target.py:137-142 | The version after a round is a newer valid one if and only if it was not the one value two below the sentinel |
| Generation.WriteBack | nebulasd/src/nebulasd/kv/host_facts.py:78-93 | Writing from the old tail block on makes the host copy equal the row's whole prefix; refused exactly without a newer version or room |
| Generation.DirtyRange | nebulasd/src/nebulasd/kv/host_facts.py:88-91 | The range starts inside the old prefix and covers the new one |
| Generation.Restore | nebulasd/src/nebulasd/kv/host_facts.py:61-76 | A restored row mirrors both planes over every committed block, and fails exactly with the source check |
| Generation.Round | swiftLLM/swiftllm/server/starsd_compact_target.py:118-146 | Any fitting draft adds a token, keeps the row exact and leaves the host copy exact again |
| Generation.Move | nebulasd/src/nebulasd/kv/host_facts.py:58-76 | Restoring over arbitrary stale cells gives a row with the same valid cells |
| Generation.Generate | swiftLLM/swiftllm/server/starsd_compact_target.py:48-164 | Over a whole request, with arbitrary drafts and moves, the output is exactly plain greedy decoding cut at length or first stop, in fewer rounds than tokens, and no disjoint host extent changes |
| Banks.BlocksNotShared | swiftLLM/swiftllm/worker/block_manager.py:670-691 | Under the invariant no physical block is in two rows' tables or twice in one |
| Banks.ReserveKeeps | swiftLLM/swiftllm/worker/block_manager.py:189-241 | A reservation keeps the invariant if and only if the row is not live in the other bank |
| Banks.ResetKeeps | swiftLLM/swiftllm/worker/block_manager.py:322-333 | A reset keeps the invariant if and only if no row live in the bank still counts blocks |
| BankManager.BlockManager.Reserve | swiftLLM/swiftllm/worker/block_manager.py:189-241 | Succeeds exactly when every check passes, then grants the next blocks of the bank; on failure nothing changes |
| BankManager.BlockManager.ReserveBatch | swiftLLM/swiftllm/worker/block_manager.py:244-320 | All reservations, one after another from the bump pointer, or no change at all, and exactly when which |
| BankManager.BlockManager.ResetBank | swiftLLM/swiftllm/worker/block_manager.py:322-333 | The bank is emptied under a new epoch; validity survives if and only if its rows had no blocks |
| BankManager.BlockManager.DiscardEmptyPrepared | swiftLLM/swiftllm/worker/block_manager.py:335-345 | Only the exact empty prepared standby bank is discarded, and nothing else changes |
| BankManager.BlockManager.Swap | swiftLLM/swiftllm/worker/block_manager.py:347-355 | The roles are exchanged and no range, pointer or epoch moves |
| BankManager.BlockManager.MarkPrepared | swiftLLM/swiftllm/worker/block_manager.py:375-381 | Only role, batch and readiness of the named bank change |
| BankManager.BlockManager.SetVersion | swiftLLM/swiftllm/worker/block_manager.py:525-540 | Succeeds exactly for a live row of the current epoch and changes only its version |
| BankManager.BlockManager.Normalize | swiftLLM/swiftllm/worker/block_manager.py:542-568 | Rejects duplicate or out-of-range rows and negative lengths, and rounds each length up to blocks |
| BankManager.BlockManager.Allocate | swiftLLM/swiftllm/worker/block_manager.py:383-478 | Every row gets its blocks, fresh rows a range and live rows growth in place, with the new block numbers in order, or the state is exactly as before, and exactly when which |
| BankManager.BlockManager.ReserveFreshOrRollBack | swiftLLM/swiftllm/worker/block_manager.py:407-478 | A reservation that fails half way puts back counts, table, ranges and pointer |
| BankManager.BlockManager.Crop | swiftLLM/swiftllm/worker/block_manager.py:480-508 | Fails without change exactly when a row would have to grow; otherwise counts, lengths and versions of the named rows change and nothing else |
| BankManager.BlockManager.Free | swiftLLM/swiftllm/worker/block_manager.py:570-581 | Exactly the named rows lose their ranges and blocks |
| BankManager.BlockManager.ReleaseExact | swiftLLM/swiftllm/worker/block_manager.py:586-636 | Releases all or none: all if and only if every release names the exact live range once, and a dry run changes nothing |
| BankManager.ReservesInBothBanks | swiftLLM/swiftllm/worker/block_manager.py:189-241 | A run of two reservations makes one row live in both banks and breaks the invariant |
| BankManager.ResetsUnderLiveRow | swiftLLM/swiftllm/worker/block_manager.py:322-333 | A run resets a bank under a live row, which keeps a block it no longer has a range for |
| DraftSessions.RowsAtOnce | swiftLLM/swiftllm/server/draft_session.py:293-342 | Checking rows once for a whole transaction is checking them before each of its groups |
| DraftSessions.Adapter.Preflight | swiftLLM/swiftllm/server/draft_session.py:293-342 | Changes nothing, and accepts a transaction if and only if every group of it would be accepted in its turn on the lengths simulated so far |
| DraftSessions.Adapter.Transaction | swiftLLM/swiftllm/server/draft_session.py:156-222 | A transaction that passes its preflight runs to its end with no group refused: a session ends where its last crop cut it, one longer for each decode that names it, or with the tokens of its prompt if it is new, and no other changes; a transaction that fails changes nothing |
| DraftSessions.PlanFinally | swiftLLM/swiftllm/server/draft_session.py:156-222 | The simulated lengths of a transaction that passes are exactly those |
| DraftSessions.Adapter.Release | swiftLLM/swiftllm/server/draft_session.py:224-252 | All or none: succeeds exactly when all keys are live, whose rows are then free again, or all are in the replay window, when nothing changes; a mix is refused |
| DraftSessions.ReleaseTwice | swiftLLM/swiftllm/server/draft_session.py:224-252 | Repeating a release succeeds and changes nothing if and only if the keys are no more than the replay window |
| DraftBanks.DraftAdapter.Reserve | swiftLLM/swiftllm/server/draft_bank_session.py:152-211 | All or nothing, and exactly when: a batch gets fresh rows, its own ranges in member order in the asked bank and one block exposed for each, under the next epoch; the invariant of rows, banks, flags and sessions holds |
| DraftBanks.DraftAdapter.CompleteImport | swiftLLM/swiftllm/server/draft_bank_session.py:213-220 | Marks exactly a live imported batch ready once, and nothing else changes |
| DraftBanks.DraftAdapter.BeginCompute | swiftLLM/swiftllm/server/draft_bank_session.py:222-237 | Begins exactly a ready batch that is not consumed, while nothing computes and no copy of it is leased; no bank and epoch ever begins twice |
| DraftBanks.DraftAdapter.EndCompute | swiftLLM/swiftllm/server/draft_bank_session.py:266-272 | Ends exactly the batch that computes |
| DraftBanks.DraftAdapter.AcquireLease | swiftLLM/swiftllm/server/draft_bank_session.py:274-282 | A copy lease is granted exactly for a live batch that does not compute, under a number never used before |
| DraftBanks.DraftAdapter.ReleaseLease | swiftLLM/swiftllm/server/draft_bank_session.py:284-288 | Exactly a held lease is given up |
| DraftBanks.DraftAdapter.Retire | swiftLLM/swiftllm/server/draft_bank_session.py:290-315 | Exactly an idle batch without leases retires; its sessions end, the manager's exact release is never refused, and exactly its rows return to the free ones |
| DraftBanks.DraftAdapter.Run | swiftLLM/swiftllm/server/draft_bank_session.py:317-364 | A prefill, decode or crop inside the computing batch changes its lengths exactly as simulated or nothing at all; the manager never refuses the growth, which stays inside the reserved ranges |
| DraftBanks.DraftAdapter.Preflight | swiftLLM/swiftllm/server/draft_bank_session.py:317-347 | Changes nothing, and accepts exactly if every item is a member within its reservation and crops with decodes, and prefills on their own, are each accepted in turn on the lengths simulated so far |
| DraftBanks.DraftAdapter.Transaction | swiftLLM/swiftllm/server/draft_bank_session.py:317-364 | A transaction that passes one preflight runs group by group with no group refused and leaves every session cropped, lengthened or opened as asked; any other changes nothing |
| DraftBanks.JointlySimulated | swiftLLM/swiftllm/server/draft_bank_session.py:335-347 | The two separate simulations of a preflight, both from the lengths before, decide what checking all groups in their turn decides |
| DraftBanks.WithinReservation | swiftLLM/swiftllm/server/draft_bank_session.py:152-211 | In every reachable state a session's length is within the capacity reserved for its key |
| DraftBanks.RowsOnce | swiftLLM/swiftllm/server/draft_bank_session.py:152-211 | In every reachable state a row is either free or the row of a live batch |
| DraftBanks.RowsApart | swiftLLM/swiftllm/server/draft_bank_session.py:152-211 | No two members of live batches share a row |
| CommandArena.LayoutApart | nebulasd/src/nebulasd/ipc/command_arena.py:51-67 | Under the layout invariant live allocations never overlap |
| CommandArena.RoomExactly | nebulasd/src/nebulasd/ipc/command_arena.py:97-119 | The branches find room exactly when it is there: before the end, or below the tail |
| CommandArena.AllocateKeeps | nebulasd/src/nebulasd/ipc/command_arena.py:97-119 | What the branches reserve never overlaps anything live, at the wrap and in the full case too |
| CommandArena.ReleaseKeeps | nebulasd/src/nebulasd/ipc/command_arena.py:82-83 | Moving the tail past the oldest keeps the layout of the rest |
| CommandArena.DiscardKeeps | nebulasd/src/nebulasd/ipc/command_arena.py:92-93 | Moving the head back to the one before the newest keeps the layout of the rest |
| CommandArena.RefusedThoughFree | nebulasd/src/nebulasd/ipc/command_arena.py:106-119 | With a long enough stretch free, a payload is refused if and only if the arena has wrapped and it does not fit between head and tail; then the stretch reaches past the tail |
| CommandArena.RefusedExample | nebulasd/src/nebulasd/ipc/command_arena.py:111-119 | Such a refusal happens: five bytes of ten are free in one piece and five are refused |
| CommandArena.RefusedRun | nebulasd/src/nebulasd/ipc/command_arena.py:51-119 | Allocating and releasing reaches a state in which five bytes are free in one piece and five are refused |
| CommandArena.CommandArena.Allocate | nebulasd/src/nebulasd/ipc/command_arena.py:51-67 | Succeeds exactly when length, command order and room allow; then the payload is stored and every other live payload is untouched |
| CommandArena.CommandArena.Read | nebulasd/src/nebulasd/ipc/command_arena.py:69-74 | A live handle reads back the bytes written for it |
| CommandArena.CommandArena.ReleaseThrough | nebulasd/src/nebulasd/ipc/command_arena.py:76-86 | Exactly the longest reached prefix of the allocations is released |
| CommandArena.CommandArena.DiscardLast | nebulasd/src/nebulasd/ipc/command_arena.py:88-95 | Only the newest allocation can be taken back, and only it is |
| CommandArena.AllocateThenDiscard | nebulasd/src/nebulasd/ipc/command_arena.py:51-95 | Allocating and taking back restores head, tail and all live payloads |
| HostAllocator.Merge | nebulasd/src/nebulasd/kv/host_allocator.py:102-110 | Merging a sorted list covers the same blocks with maximal runs |
| HostAllocator.RunIffSpace | nebulasd/src/nebulasd/kv/host_allocator.py:32-54 | A free run is long enough if and only if that many contiguous blocks are free anywhere |
| HostAllocator.AllFree | nebulasd/src/nebulasd/kv/host_allocator.py:92-110 | With nothing allocated the free list is one run of all blocks |
| HostAllocator.HostAllocator.Allocate | nebulasd/src/nebulasd/kv/host_allocator.py:32-54 | Fails for space exactly when no contiguous space exists; the extent granted is the lowest one free, and free list and extents still partition the arena |
| HostAllocator.HostAllocator.Pin | nebulasd/src/nebulasd/kv/host_allocator.py:63-76 | A writer excludes everyone and readers exclude a writer; a stale extent is an error |
| HostAllocator.HostAllocator.Unpin | nebulasd/src/nebulasd/kv/host_allocator.py:78-90 | Undoes exactly one pin of the kind, and fails if there is none |
| HostAllocator.HostAllocator.Recycle | nebulasd/src/nebulasd/kv/host_allocator.py:92-110 | Only an unpinned quiescent extent of the epoch is recycled; its generation advances, no other does, and the partition holds |
| FcfsScheduler.Scheduler.Arrive | swiftLLM/swiftllm/server/scheduler.py:67-71 | New requests go to the end of the waiting queue and the order invariant holds |
| FcfsScheduler.IterationFits | swiftLLM/swiftllm/server/scheduler.py:36-60 | Rows, width and blocks of an iteration agree: a decoding row for each token of the width, blocks through the last position that it writes and no further; a prefill is one row as wide as its prompt |
| FcfsScheduler.Scheduler.TakePrefill | swiftLLM/swiftllm/server/scheduler.py:80-100 | The prefill batch is the longest prefix of the waiting queue that fits, and no longer one does |
| FcfsScheduler.Scheduler.Preempt | swiftLLM/swiftllm/server/scheduler.py:110-120 | What stays is within all limits, and it with the oldest preempted request is not |
| FcfsScheduler.Scheduler.SwapIn | swiftLLM/swiftllm/server/scheduler.py:126-138 | The longest prefix of the swapped queue that fits comes back |
| FcfsScheduler.Scheduler.GetNextBatch | swiftLLM/swiftllm/server/scheduler.py:73-140 | The three queues in sequence stay the arrival order less the finished; it prefills exactly when nothing is swapped out and something waiting fits; a batch is within row, token and block limits; it fails if and only if the prefill has more requests than there are free row ids |
| FcfsScheduler.Scheduler.FinishBatch | swiftLLM/swiftllm/server/scheduler.py:142-155 | Exactly the finished requests leave the running queue, and the invariant, with each row id free or in use, holds if and only if all of them are in the batch given |
| FcfsScheduler.FinishKeeps | swiftLLM/swiftllm/server/scheduler.py:151-155 | Removing running requests keeps the order of all others and the block bound |
| FcfsScheduler.GiveId | swiftLLM/swiftllm/server/backend_local.py:19-22 | The row id handed out belongs to nobody else |
| FcfsScheduler.TakeIdBack | swiftLLM/swiftllm/server/backend_local.py:24-30 | A live request's id is in range and not free, so giving it back is never refused |
| FcfsScheduler.Scheduler.CountIsSum | swiftLLM/swiftllm/server/scheduler.py:26-28 | For requests that only grew since the last launch the stored count is the sum of blocks needed if and only if no running request crossed a block boundary, when none has left |
| FcfsScheduler.LosesBatch | swiftLLM/swiftllm/server/scheduler.py:73-108 | With one row id for a batch of two, two arrivals end in no queue though neither has finished |
| FcfsScheduler.CountGoesStale | swiftLLM/swiftllm/server/scheduler.py:26-28 | A run of one launch and one generated token ends in a valid scheduler whose count is one while its running request needs two blocks |
| CopyChunks.GreedySplits | nebulasd/src/nebulasd/kv/transfer.py:210-238 | The greedy pieces are consecutive, nonempty, together all regions, and within budget unless one oversized region |
| CopyChunks.GreedyStaysAhead | nebulasd/src/nebulasd/kv/transfer.py:228-238 | Against any other split of the same regions the greedy one has fewer pieces, or as many and no longer a last one |
| CopyChunks.GreedyIsShortest | nebulasd/src/nebulasd/kv/transfer.py:210-238 | No contiguous split within the budget uses fewer chunks |
| CopyChunks.PlanChunks | nebulasd/src/nebulasd/kv/transfer.py:210-238 | The chunks are those pieces with their own regions and rounds in order, bytes and oversize marks right, dependencies on the first only; other plans stay whole, with the bytes of all their blocks |
| BlockMath.BlocksCover | nebulasd/src/nebulasd/kv/host_facts.py:88-88 | The rounded-up block count covers the length and one block fewer does not |
| Admission.CompletionShared | nebulasd/src/nebulasd/workers/completion.py:12-18 | The completion of a batch is no larger than the separate completions that its members were charged |
| Admission.CostIsTight | nebulasd/src/nebulasd/engine/admission.py:37-61 | The cost is what a request that takes every round uses, and one proposal, one snapshot and four completion records more; its blocks cover prompt and output with none to spare |
| Admission.StepKeeps | nebulasd/src/nebulasd/scheduler/eligibility.py:22-37 | Every round that may be issued keeps target and draft rounds within one of each other and within the tokens a request may output |
| Admission.NeverStuck | nebulasd/src/nebulasd/scheduler/eligibility.py:22-37 | A request that has not ended always has a round to issue, payloads to reserve, or a result to come |
| Admission.MovesFit | nebulasd/src/nebulasd/engine/admission.py:37-61 | A batch of any members uses up no more than their reservations counted for it |
| Admission.FencedExactly | nebulasd/src/nebulasd/data/shared_arenas.py:35-51 | The generation test refuses the handles of one cohort in every other if and only if the generations of the arenas differ modulo the stride |
| Admission.ThreeNotFenced | nebulasd/src/nebulasd/engine/resources.py:126-137 | With three draft workers the generation test lets some old handle name an arena of a later cohort |
| Admission.RoomBehind | nebulasd/src/nebulasd/kv/host_allocator.py:32-54 | When the extents are the first blocks of the arena, a new one has room exactly up to the end, and behind them |
| Admission.Engine.Admit | nebulasd/src/nebulasd/engine/request_registry.py:42-91 | Accepts exactly a new, valid request that fits workers and whose worst case is affordable; a refusal changes nothing, and after the checks no write or allocation fails |
| Admission.Engine.Issue | nebulasd/src/nebulasd/engine/work_progress.py:166-171 | For every batch of requests that may issue a round, the room for its completion is there |
| Admission.Engine.ReservePayloads | nebulasd/src/nebulasd/workers/draft/publication.py:15-32 | On whatever draft worker, the proposals and snapshots of an issued batch always have room, and follow what was written |
| Admission.Engine.Classify | nebulasd/src/nebulasd/engine/output_manager.py:35-61 | A cumulative count that falls back or is too large is refused; any other is classified, and the reservation stays sound if and only if the request ends, or has a token for each classified round and room for more |
| Admission.Engine.Recycle | nebulasd/src/nebulasd/engine/recycling.py:23-72 | A quiescent cohort returns every extent, empties every arena and budget and moves every slot generation on, and does so until arena generations end |
| WorkLedger.WorkLedger.Sent | nebulasd/src/nebulasd/engine/work_ledger.py:41-58 | Registers exactly a WORK whose rows are authorized nowhere, under the next number, with records, index and numbers agreeing; a refused one leaves exactly its rows before the clash authorized and nothing else changed |
| WorkLedger.WorkLedger.Observe | nebulasd/src/nebulasd/engine/work_ledger.py:60-81 | A completion is taken exactly when it names the WORK and its members in order, and reports the stages not reported yet |
| WorkLedger.WorkLedger.ResultApplied | nebulasd/src/nebulasd/engine/work_ledger.py:106-114 | A result is applied in its own WORK and, after skipped rounds, in exactly the earlier WORKs of the request |
| WorkLedger.WorkLedger.Refresh | nebulasd/src/nebulasd/engine/work_ledger.py:162-200 | Exactly the completed and fully applied WORKs retire, the others learn of their compute, and of every WORK ever sent the events told are compute, physical and credit in this order, each once and none early |
| WorkLedger.StillTold | nebulasd/src/nebulasd/engine/work_ledger.py:157-160 | Reporting the stages just reached keeps the log telling each stage of every WORK once and in order |
| WorkLedger.GoneIndexed | nebulasd/src/nebulasd/engine/work_ledger.py:189-196 | Taking a retired WORK out of the index leaves every other authorization in place |
| WorkProgress.WaitingTaken | nebulasd/src/nebulasd/engine/work_progress.py:242-258 | Sending the first item of a worker takes its plan off the front of those waiting for the worker |
| WorkProgress.SentQueue | nebulasd/src/nebulasd/engine/work_progress.py:242-258 | After a send every other frozen WORK still carries its own next number and a new bank epoch |
| WorkProgress.SentNumbered | nebulasd/src/nebulasd/engine/work_progress.py:204-211 | What a worker has received stays numbered one, two and so on, with rising epochs for each bank |
| WorkProgress.WorkProgress.Build | nebulasd/src/nebulasd/engine/work_progress.py:120-171 | A WORK is frozen with its worker's next number and an epoch one past the greater of the last one sent and the one published for the bank |
| WorkProgress.WorkProgress.Dispatch | nebulasd/src/nebulasd/engine/work_progress.py:204-217 | A full queue changes nothing; otherwise the worker has one WORK more and the ledger one record more |
| WorkProgress.WorkProgress.Advance | nebulasd/src/nebulasd/engine/work_progress.py:219-266 | For any answers of the queues: what waits for a worker afterwards is exactly its plans from its first full answer on; per worker no plan is lost, repeated or overtaken, frozen WORKs are sent again unchanged, numbers stay consecutive, and no worker has more than four WORKs |
| WorkProgress.RoomMeansSent | nebulasd/src/nebulasd/engine/work_progress.py:242-258 | A worker whose queue has room for each of its WORKs is sent all of them, however full the queues of other workers are |
| Codec.NumberBack | nebulasd/src/nebulasd/ipc/protocol.py:845-857 | A number that fits its bytes is read back from them |
| Codec.DecodeExactly | nebulasd/src/nebulasd/ipc/protocol.py:872-914 | Bytes decode to a value if and only if they are what is written for it |
| Codec.NoExtension | nebulasd/src/nebulasd/ipc/protocol.py:907-914 | Nothing that goes on behind a payload decodes, so neither does a payload cut short |
| Codec.ThenLawful | nebulasd/src/nebulasd/ipc/protocol.py:872-914 | Reading one part after the other accepts exactly what writing them so gives, even when the first decides the form of the second |
| Codec.EachLawful | nebulasd/src/nebulasd/ipc/protocol.py:872-914 | So does a list of parts |
| Commands.RunInverse | nebulasd/src/nebulasd/ipc/protocol.py:1215-1268 | The fields of both run variants are written and read in the same order |
| Commands.DraftPrepareLawful | nebulasd/src/nebulasd/ipc/draft_protocol.py:21-62 | A draft prepare row, identity and allocation included, reads back exactly and only if its own checks pass |
| Commands.CommandLawful | nebulasd/src/nebulasd/ipc/protocol.py:966-1048 | For each of the six kinds the decoder accepts exactly the bytes of constructible commands |
| Commands.RoundTrip | nebulasd/src/nebulasd/ipc/protocol.py:916-1048 | Every command decodes to itself under its own kind |
| Commands.OnlyEncoded | nebulasd/src/nebulasd/ipc/protocol.py:916-1048 | Whatever decodes is constructible, of the kind asked for, and encodes to the same bytes, but for lists of the one largest count |
| Commands.NoPrefixDecodes | nebulasd/src/nebulasd/ipc/protocol.py:907-914 | No payload is the beginning of another one, of whatever kind, so one that is cut off or goes on is refused |
| Commands.OneKind | nebulasd/src/nebulasd/ipc/protocol.py:978-981 | A payload decodes under no other kind than its own |
| WorkCodec.DecodesExactly | nebulasd/src/nebulasd/workers/work.py:150-174 | Bytes decode to a WORK if and only if they are what is written for it with some padding |
| WorkCodec.EncodedDecodes | nebulasd/src/nebulasd/workers/work.py:145-174 | What was encoded decodes to the WORK with each largest owner or layout number read as none, or to nothing when that one could not be constructed |
| WorkCodec.WorkRoundTrip | nebulasd/src/nebulasd/workers/work.py:79-174 | A WORK decodes to itself if and only if no owner epoch or layout id is 2^64 - 1 |
| WorkCodec.NothingBehind | nebulasd/src/nebulasd/workers/work.py:150-158 | A WORK payload that goes on or is cut short is refused |
| WorkCodec.RowTakesStride | nebulasd/src/nebulasd/workers/work.py:79-93 | Every row takes exactly the number of bytes that the head gives as the stride |
| CommandSlots.SlotsApart | nebulasd/src/nebulasd/ipc/native_command.py:54-83 | The slots of two unread commands are different stretches of memory |
| CommandSlots.Channel.Send | nebulasd/src/nebulasd/ipc/native_command.py:74-83 | With the consumer running: the payload is stored and published behind all others, or refused for its length, its number or a ring that was full at the start |
| CommandSlots.Channel.Consume | nebulasd/src/nebulasd/ipc/native_command.py:29-45 | With the producer running between any two bytes: hands over the oldest unread command to the last byte, reports a stale one and leaves it, or nothing was there; its number and its place are never wrong |

## Left out

- Observation: a poll's doorbell word and the exception for a hint of an unknown row; hints of unregistered kinds are modelled and skipped.
- Observation: the poll counter `turn` is unbounded here and wraps at 2^64 in the code.
- Observation: the rows of the reader's model are read in one step; that such a read is stable is what `StableTable` proves.
- Observation.Reader.DrainRings: says what each ring gives up only with idle writers; entries pushed during a drain would have to be told from those before it.
- Observation: ring contents are a sequence of entries; that the counters and slots deliver it is what `SpscRing` proves. `sd_watch_scan` is a loop over stable reads and is not modelled.
- Planner memo tables: `fit_cache` and `predictions` only remember pure results. `predict` is abstract, so its interpolation and rounding are left out and costs are reals.
- Assignment.Assign: claims no least cost with more than 8 workers, because there the code keeps only the 64 cheapest states after each batch.
- Planning.Run: says that what remains cannot be placed by another round, not that the groups of several rounds are cheapest together.
- ServiceInterval.Run: promises that a kept batch still fits only when no demand is negative, because dropping a member of negative size could make the batch heavier.
- ServiceInterval: the nested age-group loops are one stable sort by age group and then rank.
- VerifyBatch.Forward: the lines run one after another for each item; hidden states, CUDA events and streams are left out.
- VerifyBatch.TargetBank.VerifyCompact: the bank location is one of the row's own fields, so the epoch recheck inside `validate_bank_location` is left out.
- Generation: prefill is one step that stores the prompt's cells and emits the first token.
- BankManager: device tensors are sequence fields that the methods replace, so aliasing of tensor views is not captured. The legacy bitmap mode, `gather_allocated_blocks_and_free` and ready events are left out.
- BankManager.BlockManager.Allocate: assumes that no named row is live in the standby bank, which is the callers' rule; `DraftBanks` keeps it.
- BankManager.BlockManager.ReserveBatch: assumes the same, and that only an empty bank is reset; `DraftBanks` keeps both.
- BankManager.BlockManager.Free: excludes row ids outside the table, for which the code indexes a tensor out of bounds.
- DraftBanks.DraftAdapter.Run: checks and runs one group, as each of the three calls does; `Transaction` is the joint check of several groups and then their runs.
- DraftSessions and DraftBanks: tokens, model forwards, CUDA contexts and events are left out; an exception inside a forward stops the adapter for good and is not modelled.
- HostKv: a block's bytes are `unit` payload cells and the shared-memory mapping is an array.
- HostAllocator: pins are in-process counters as in this class; the cross-process pin words are not part of this model.
- FcfsScheduler.Scheduler.GetNextBatch: a `dflash_block` proposal's width is in no count, as in the code, so the block limit says nothing about it.
- Admission: an engine always has its completion arena here; the pins of workers have ended when a cohort is quiescent; table publications and payload contents are not part of this model. Output tokens are written into the range that admission reserved.
- Admission.Engine.Recycle: says nothing of the state after arena generations end, where the code stops with an exception.
- WorkLedger: records are values in a map, so that `by_worker` and the index share record objects is not captured. The two-level `by_request` map, `capacity`, the completed list and the fences of facts and copies are left out.
- WorkProgress: which plans the scheduler answers with is any list; handles, dependencies, import regions and dispatch rows of a WORK are left out.
- Commands.RoundTrip: is about the six command kinds of `Commands`; the same for WORK, which the code sends to a codec of its own, is `WorkCodec.WorkRoundTrip`. The worker and the command number come from the header beside the payload, and the comparison of a WORK's own with them is left out.
- Codec: writer and reader of a row take their widths from one list, so that the code spells them twice and could spell them differently is not captured; the order and the names of the fields are written out twice here too.
- CommandSlots: the ring's records are stored in one step and its counters are unbounded, because `SpscRing` proves the wrap and the interleaving of records; closing the producer and the doorbell are left out.
- Asynchronous operations, block swapping and the delivery of output to clients are not modelled.
- Worker processes, tables' field layouts, the API server, tokenization, profiling and configuration checks are not modelled.
