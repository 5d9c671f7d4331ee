/** The payloads of hot commands: what is decoded is exactly what is encoded, field by field and to the last byte. */
module Commands {
  import opened Wrappers
  import opened Codec
  import SeqNumbers

  const MAGIC: nat := 0x5344_434D
  const VERSION: nat := 5
  const EPOCHS: nat := 0xFFFF_FFFF_FFFF_FFFF

  /** Bytes of a draft snapshot record. */
  const SNAPSHOT: nat := 200

  // ---- Rows ----

  datatype Handle = Handle(offset: nat, length: nat, generation: nat)

  datatype NewRow = NewRow(slot: nat, epoch: nat, round: nat, op: nat, tokens: nat, input: Handle, output: Handle, config: Handle, kv: Handle)

  datatype DeltaRow = DeltaRow(slot: nat, epoch: nat, round: nat, op: nat, delta: Handle, proposal: Handle, host: Handle, mapping: Handle, tokens: nat)

  datatype RemovedRow = RemovedRow(slot: nat, epoch: nat)

  datatype PrefillRow = PrefillRow(slot: nat, epoch: nat, round: nat, run: nat, input: Handle, config: Handle, tokens: nat, maxOutput: nat,
                                   bank: nat, bankEpoch: nat, offset: nat, blocks: nat)

  datatype PrepareRow = PrepareRow(slot: nat, epoch: nat, round: nat, op: nat, output: Handle, outputs: nat, prompts: nat, config: Handle, host: Handle,
                                   hostSlot: nat, hostGeneration: nat, lease: nat, version: nat, length: nat, committed: nat, valid: nat,
                                   bank: nat, bankEpoch: nat, offset: nat, capacity: nat)

  datatype RunRow =
    | Plain(slot: nat, epoch: nat, round: nat, run: nat, proposal: Handle, output: Handle)
    | Verify(slot: nat, epoch: nat, round: nat, run: nat, owner: nat, ownerGeneration: nat, proposal: Handle, output: Handle,
             outputs: nat, prompts: nat, config: Handle, bank: nat, bankEpoch: nat, offset: nat, blocks: nat)

  datatype Allocation = Allocation(arena: nat, arenaGeneration: nat, layout: nat, hostGeneration: nat, lease: nat, offset: nat,
                                   hostSlot: nat, capacity: nat, blockSize: nat)

  datatype Identity = Identity(slot: nat, epoch: nat, round: nat, op: nat, worker: nat, generation: nat, owner: nat, version: nat,
                               length: nat, valid: nat, allocation: Allocation)

  datatype DraftPrepareRow = DraftPrepareRow(source: Identity, snapshot: Handle, prepare: nat, round: nat, owner: nat, offset: nat, capacity: nat, growth: nat)

  datatype DraftRunRow = DraftRunRow(slot: nat, epoch: nat, round: nat, run: nat, owner: nat, version: nat, tokens: nat, delta: Handle)

  // ---- Their fields, in the order of the wire ----

  function NewFields(r: NewRow): seq<nat> {
    [r.slot, r.epoch, r.round, r.op, r.tokens, r.input.offset, r.input.length, r.input.generation, r.output.offset, r.output.length,
     r.output.generation, r.config.offset, r.config.length, r.config.generation, r.kv.offset, r.kv.length, r.kv.generation]
  }

  function ToNew(v: seq<nat>): Option<NewRow> {
    if |v| != 17 then None
    else Some(NewRow(v[0], v[1], v[2], v[3], v[4], Handle(v[5], v[6], v[7]), Handle(v[8], v[9], v[10]), Handle(v[11], v[12], v[13]),
                     Handle(v[14], v[15], v[16])))
  }

  function DeltaFields(r: DeltaRow): seq<nat> {
    [r.slot, r.epoch, r.round, r.op, r.delta.offset, r.delta.length, r.delta.generation, r.proposal.offset, r.proposal.length, r.proposal.generation,
     r.host.offset, r.host.length, r.host.generation, r.mapping.offset, r.mapping.length, r.mapping.generation, r.tokens]
  }

  function ToDelta(v: seq<nat>): Option<DeltaRow> {
    if |v| != 17 then None
    else Some(DeltaRow(v[0], v[1], v[2], v[3], Handle(v[4], v[5], v[6]), Handle(v[7], v[8], v[9]), Handle(v[10], v[11], v[12]),
                       Handle(v[13], v[14], v[15]), v[16]))
  }

  function RemovedFields(r: RemovedRow): seq<nat> { [r.slot, r.epoch] }

  function ToRemoved(v: seq<nat>): Option<RemovedRow> { if |v| != 2 then None else Some(RemovedRow(v[0], v[1])) }

  function PrefillFields(r: PrefillRow): seq<nat> {
    [r.slot, r.epoch, r.round, r.run, r.input.offset, r.input.length, r.input.generation, r.config.offset, r.config.length, r.config.generation,
     r.tokens, r.maxOutput, r.bank, r.bankEpoch, r.offset, r.blocks]
  }

  function ToPrefill(v: seq<nat>): Option<PrefillRow> {
    if |v| != 16 || v[15] == 0 || v[11] == 0 then None
    else Some(PrefillRow(v[0], v[1], v[2], v[3], Handle(v[4], v[5], v[6]), Handle(v[7], v[8], v[9]), v[10], v[11], v[12], v[13], v[14], v[15]))
  }

  function PrepareFields(r: PrepareRow): seq<nat> {
    [r.slot, r.epoch, r.round, r.op, r.output.offset, r.output.length, r.output.generation, r.outputs, r.prompts,
     r.config.offset, r.config.length, r.config.generation, r.host.offset, r.host.length, r.host.generation, r.hostSlot, r.hostGeneration, r.lease,
     r.version, r.length, r.committed, r.valid, r.bank, r.bankEpoch, r.offset, r.capacity]
  }

  function ToPrepare(v: seq<nat>): Option<PrepareRow> {
    if |v| != 26 then None
    else
      var r := PrepareRow(v[0], v[1], v[2], v[3], Handle(v[4], v[5], v[6]), v[7], v[8], Handle(v[9], v[10], v[11]), Handle(v[12], v[13], v[14]),
                          v[15], v[16], v[17], v[18], v[19], v[20], v[21], v[22], v[23], v[24], v[25]);
      if 0 < r.capacity && r.committed <= r.valid <= r.capacity && r.committed <= r.host.length then Some(r) else None
  }

  function RunFields(r: RunRow): (seq<nat>, seq<nat>) { ([if r.Plain? then 0 else 1], VariantFields(r)) }

  function VariantFields(r: RunRow): seq<nat> {
    match r
    case Plain(_, _, _, _, _, _) =>
      [r.slot, r.epoch, r.round, r.run, r.proposal.offset, r.proposal.length, r.proposal.generation, r.output.offset, r.output.length, r.output.generation]
    case Verify(_, _, _, _, _, _, _, _, _, _, _, _, _, _, _) =>
      [r.slot, r.epoch, r.round, r.run, r.owner, r.ownerGeneration, r.proposal.offset, r.proposal.length, r.proposal.generation,
       r.output.offset, r.output.length, r.output.generation, r.outputs, r.prompts, r.config.offset, r.config.length, r.config.generation,
       r.bank, r.bankEpoch, r.offset, r.blocks]
  }

  /** The first byte of a run row tells its variant. */
  function RunWidths(variant: seq<nat>): seq<Width> {
    if variant == [1] then
      [W32, W64, W64, W64, W32, W64] + HANDLE + HANDLE + [W32, W32] + HANDLE + [W8, W64, W32, W32]
    else [W32, W64, W64, W64] + HANDLE + HANDLE
  }

  function ToRun(p: (seq<nat>, seq<nat>)): Option<RunRow> {
    var v := p.1;
    if p.0 == [0] && |v| == 10 then Some(Plain(v[0], v[1], v[2], v[3], Handle(v[4], v[5], v[6]), Handle(v[7], v[8], v[9])))
    else if p.0 == [1] && |v| == 21 && v[20] > 0 then
      Some(Verify(v[0], v[1], v[2], v[3], v[4], v[5], Handle(v[6], v[7], v[8]), Handle(v[9], v[10], v[11]), v[12], v[13],
                  Handle(v[14], v[15], v[16]), v[17], v[18], v[19], v[20]))
    else None
  }

  function DraftPrepareFields(r: DraftPrepareRow): seq<nat> {
    var s, a := r.source, r.source.allocation;
    [s.slot, s.epoch, s.round, s.op, s.worker, s.generation, s.owner, s.version, s.length, s.valid, a.arena, a.arenaGeneration, a.layout,
     a.hostGeneration, a.lease, a.offset, a.hostSlot, a.capacity, a.blockSize, r.snapshot.offset, r.snapshot.length, r.snapshot.generation,
     r.prepare, r.round, r.owner, r.offset, r.capacity, r.growth]
  }

  function ToDraftPrepare(v: seq<nat>): Option<DraftPrepareRow> {
    if |v| != 28 then None
    else
      var a := Allocation(v[10], v[11], v[12], v[13], v[14], v[15], v[16], v[17], v[18]);
      var s := Identity(v[0], v[1], v[2], v[3], v[4], v[5], v[6], v[7], v[8], v[9], a);
      var r := DraftPrepareRow(s, Handle(v[19], v[20], v[21]), v[22], v[23], v[24], v[25], v[26], v[27]);
      if DraftPrepareOk(r) then Some(r) else None
  }

  /** The snapshot lies inside its allocation, and the destination holds it with the growth of the next round. */
  predicate DraftPrepareOk(r: DraftPrepareRow) {
    var s, a := r.source, r.source.allocation;
    && a.capacity > 0 && a.blockSize > 0 && s.valid == (s.length + a.blockSize - 1) / a.blockSize && s.valid <= a.capacity
    && r.snapshot.length == SNAPSHOT && SeqNumbers.Valid(EPOCHS, s.round) && SeqNumbers.Valid(EPOCHS, s.owner)
    && r.round == SeqNumbers.Next(EPOCHS, s.round) && r.owner == SeqNumbers.Next(EPOCHS, s.owner)
    && (s.length + r.growth + a.blockSize - 1) / a.blockSize <= r.capacity
  }

  function DraftRunFields(r: DraftRunRow): seq<nat> {
    [r.slot, r.epoch, r.round, r.run, r.owner, r.version, r.tokens, r.delta.offset, r.delta.length, r.delta.generation]
  }

  function ToDraftRun(v: seq<nat>): Option<DraftRunRow> {
    if |v| != 10 || v[6] == 0 || v[8] == 0 then None
    else Some(DraftRunRow(v[0], v[1], v[2], v[3], v[4], v[5], v[6], Handle(v[7], v[8], v[9])))
  }

  const HANDLE: seq<Width> := [W64, W32, W32]

  function NewCodec(): Codec<NewRow> { As(Fields([W32, W64, W64, W64, W32] + HANDLE + HANDLE + HANDLE + HANDLE), ToNew, NewFields) }

  function DeltaCodec(): Codec<DeltaRow> { As(Fields([W32, W64, W64, W64] + HANDLE + HANDLE + HANDLE + HANDLE + [W32]), ToDelta, DeltaFields) }

  function RemovedCodec(): Codec<RemovedRow> { As(Fields([W32, W64]), ToRemoved, RemovedFields) }

  function PrefillCodec(): Codec<PrefillRow> {
    As(Fields([W32, W64, W64, W64] + HANDLE + HANDLE + [W32, W32, W8, W64, W32, W32]), ToPrefill, PrefillFields)
  }

  function PrepareCodec(): Codec<PrepareRow> {
    As(Fields([W32, W64, W64, W64] + HANDLE + [W32, W32] + HANDLE + HANDLE + [W32, W64, W64, W64, W32, W32, W32, W8, W64, W32, W32]), ToPrepare, PrepareFields)
  }

  function VariantCodec(variant: seq<nat>): Codec<seq<nat>> { Fields(RunWidths(variant)) }

  function RunCodec(): Codec<RunRow> {
    As(Then(Fields([W8]), VariantCodec), ToRun, RunFields)
  }

  function DraftPrepareCodec(): Codec<DraftPrepareRow> {
    As(Fields([W32, W64, W64, W64, W32, W64, W64, W64, W32, W32] + [W32, W32, W64, W64, W64, W64, W32, W32, W64] + HANDLE
              + [W64, W64, W64, W32, W32, W32]), ToDraftPrepare, DraftPrepareFields)
  }

  function DraftRunCodec(): Codec<DraftRunRow> { As(Fields([W32, W64, W64, W64, W64, W64, W32] + HANDLE), ToDraftRun, DraftRunFields) }

  lemma NewInverse()
    ensures Inverse(ToNew, NewFields)
  {
    forall a | ToNew(a).Some? ensures NewFields(ToNew(a).value) == a {}
    forall b | ToNew(NewFields(b)).Some? ensures ToNew(NewFields(b)).value == b {}
  }

  lemma NewLawful()
    ensures Lawful(NewCodec())
  {
    var ws := [W32, W64, W64, W64, W32] + HANDLE + HANDLE + HANDLE + HANDLE;
    FieldsLawful(ws);
    NewInverse();
    AsLawful(Fields(ws), ToNew, NewFields);
  }

  lemma DeltaInverse()
    ensures Inverse(ToDelta, DeltaFields)
  {
    forall a | ToDelta(a).Some? ensures DeltaFields(ToDelta(a).value) == a {}
    forall b | ToDelta(DeltaFields(b)).Some? ensures ToDelta(DeltaFields(b)).value == b {}
  }

  lemma DeltaLawful()
    ensures Lawful(DeltaCodec())
  {
    var ws := [W32, W64, W64, W64] + HANDLE + HANDLE + HANDLE + HANDLE + [W32];
    FieldsLawful(ws);
    DeltaInverse();
    AsLawful(Fields(ws), ToDelta, DeltaFields);
  }

  lemma RemovedLawful()
    ensures Lawful(RemovedCodec())
  {
    FieldsLawful([W32, W64]);
    forall a | ToRemoved(a).Some? ensures RemovedFields(ToRemoved(a).value) == a {}
    AsLawful(Fields([W32, W64]), ToRemoved, RemovedFields);
  }

  lemma PrefillInverse()
    ensures Inverse(ToPrefill, PrefillFields)
  {
    forall a | ToPrefill(a).Some? ensures PrefillFields(ToPrefill(a).value) == a {}
    forall b | ToPrefill(PrefillFields(b)).Some? ensures ToPrefill(PrefillFields(b)).value == b {}
  }

  lemma PrefillLawful()
    ensures Lawful(PrefillCodec())
  {
    var ws := [W32, W64, W64, W64] + HANDLE + HANDLE + [W32, W32, W8, W64, W32, W32];
    FieldsLawful(ws);
    PrefillInverse();
    AsLawful(Fields(ws), ToPrefill, PrefillFields);
  }

  lemma PrepareInverse()
    ensures Inverse(ToPrepare, PrepareFields)
  {
    forall a | ToPrepare(a).Some? ensures PrepareFields(ToPrepare(a).value) == a {}
    forall b | ToPrepare(PrepareFields(b)).Some? ensures ToPrepare(PrepareFields(b)).value == b {}
  }

  lemma PrepareLawful()
    ensures Lawful(PrepareCodec())
  {
    var ws := [W32, W64, W64, W64] + HANDLE + [W32, W32] + HANDLE + HANDLE + [W32, W64, W64, W64, W32, W32, W32, W8, W64, W32, W32];
    FieldsLawful(ws);
    PrepareInverse();
    AsLawful(Fields(ws), ToPrepare, PrepareFields);
  }

  lemma RunInverse()
    ensures Inverse(ToRun, RunFields)
  {
    forall a | ToRun(a).Some? ensures RunFields(ToRun(a).value) == a {
      assert VariantFields(ToRun(a).value) == a.1;
    }
    forall b | ToRun(RunFields(b)).Some? ensures ToRun(RunFields(b)).value == b {}
  }

  lemma RunLawful()
    ensures Lawful(RunCodec())
  {
    FieldsLawful([W8]);
    forall v ensures Lawful(VariantCodec(v)) { FieldsLawful(RunWidths(v)); }
    ThenLawful(Fields([W8]), VariantCodec);
    RunInverse();
    AsLawful(Then(Fields([W8]), VariantCodec), ToRun, RunFields);
  }

  lemma DraftPrepareInverse()
    ensures Inverse(ToDraftPrepare, DraftPrepareFields)
  {
    forall a | ToDraftPrepare(a).Some? ensures DraftPrepareFields(ToDraftPrepare(a).value) == a {}
    forall b | ToDraftPrepare(DraftPrepareFields(b)).Some? ensures ToDraftPrepare(DraftPrepareFields(b)).value == b {}
  }

  lemma DraftPrepareLawful()
    ensures Lawful(DraftPrepareCodec())
  {
    var ws := [W32, W64, W64, W64, W32, W64, W64, W64, W32, W32] + [W32, W32, W64, W64, W64, W64, W32, W32, W64] + HANDLE + [W64, W64, W64, W32, W32, W32];
    FieldsLawful(ws);
    DraftPrepareInverse();
    AsLawful(Fields(ws), ToDraftPrepare, DraftPrepareFields);
  }

  lemma DraftRunInverse()
    ensures Inverse(ToDraftRun, DraftRunFields)
  {
    forall a | ToDraftRun(a).Some? ensures DraftRunFields(ToDraftRun(a).value) == a {}
    forall b | ToDraftRun(DraftRunFields(b)).Some? ensures ToDraftRun(DraftRunFields(b)).value == b {}
  }

  lemma DraftRunLawful()
    ensures Lawful(DraftRunCodec())
  {
    var ws := [W32, W64, W64, W64, W64, W64, W32] + HANDLE;
    FieldsLawful(ws);
    DraftRunInverse();
    AsLawful(Fields(ws), ToDraftRun, DraftRunFields);
  }

  // ---- Commands ----

  datatype Bank = Bank(bank: nat, epoch: nat, batch: nat, blockSize: nat, capacities: seq<nat>)

  datatype Command =
    | DraftBatch(news: seq<NewRow>, deltas: seq<DeltaRow>, removed: seq<RemovedRow>, initial: Option<Bank>)
    | TargetPrefill(batch: nat, bank: nat, epoch: nat, prefills: seq<PrefillRow>)
    | PrepareTarget(batch: nat, bank: nat, epoch: nat, prepares: seq<PrepareRow>)
    | RunTarget(batch: nat, bank: nat, epoch: nat, standbyEpoch: nat, runs: seq<RunRow>)
    | PrepareDraft(batch: nat, bank: nat, epoch: nat, sources: seq<DraftPrepareRow>)
    | RunDraft(batch: nat, bank: nat, epoch: nat, drafts: seq<DraftRunRow>)

  datatype Kind = DraftBatchKind | PrepareTargetKind | RunTargetKind | TargetPrefillKind | PrepareDraftKind | RunDraftKind

  function Tag(k: Kind): nat {
    match k
    case DraftBatchKind => 1
    case PrepareTargetKind => 2
    case RunTargetKind => 3
    case TargetPrefillKind => 4
    case PrepareDraftKind => 5
    case RunDraftKind => 6
  }

  function KindOf(c: Command): Kind {
    match c
    case DraftBatch(_, _, _, _) => DraftBatchKind
    case TargetPrefill(_, _, _, _) => TargetPrefillKind
    case PrepareTarget(_, _, _, _) => PrepareTargetKind
    case RunTarget(_, _, _, _, _) => RunTargetKind
    case PrepareDraft(_, _, _, _) => PrepareDraftKind
    case RunDraft(_, _, _, _) => RunDraftKind
  }

  predicate Unique(slots: seq<nat>) { forall i, j | 0 <= i < j < |slots| :: slots[i] != slots[j] }

  function NewSlots(rs: seq<NewRow>): seq<nat> { seq(|rs|, i requires 0 <= i < |rs| => rs[i].slot) }
  function DeltaSlots(rs: seq<DeltaRow>): seq<nat> { seq(|rs|, i requires 0 <= i < |rs| => rs[i].slot) }
  function RemovedSlots(rs: seq<RemovedRow>): seq<nat> { seq(|rs|, i requires 0 <= i < |rs| => rs[i].slot) }

  function Sum(ns: seq<nat>): nat { if ns == [] then 0 else ns[0] + Sum(ns[1..]) }

  /** Where each capacity starts when all are laid end to end. */
  function StartOf(rs: seq<PrepareRow>, i: nat): nat
    requires i <= |rs|
  {
    if i == 0 then 0 else StartOf(rs, i - 1) + rs[i - 1].capacity
  }

  function DraftStartOf(rs: seq<DraftPrepareRow>, i: nat): nat
    requires i <= |rs|
  {
    if i == 0 then 0 else DraftStartOf(rs, i - 1) + rs[i - 1].capacity
  }

  predicate BankOk(b: Bank) {
    && b.bank <= 1 && b.blockSize > 0 && b.capacities != [] && (forall i | 0 <= i < |b.capacities| :: b.capacities[i] > 0)
    && Sum(b.capacities) < Limit(W32)
  }

  /** An initial bank is for new requests alone, and holds each with the tokens it is to draft. */
  predicate BankCovers(b: Bank, news: seq<NewRow>) {
    && |news| == |b.capacities|
    && forall i | 0 <= i < |news| ::
         && news[i].tokens > 0
         && b.capacities[i] * b.blockSize >= (news[i].input.length + news[i].output.length) / 4 + news[i].tokens - 1
  }

  /** What a command demands of its rows, beyond what each row demands of itself. */
  predicate RowsOk(c: Command) {
    match c
    case DraftBatch(news, deltas, removed, initial) =>
      && Unique(NewSlots(news) + DeltaSlots(deltas) + RemovedSlots(removed))
      && (initial.Some? ==> deltas == [] && removed == [] && BankCovers(initial.value, news))
      && forall i | 0 <= i < |news| :: news[i].output.length > 0
    case TargetPrefill(_, bank, epoch, rs) =>
      && Unique(seq(|rs|, i requires 0 <= i < |rs| => rs[i].slot))
      && forall i | 0 <= i < |rs| :: rs[i].bank == bank && rs[i].bankEpoch == epoch
    case PrepareTarget(_, bank, epoch, rs) =>
      && Unique(seq(|rs|, i requires 0 <= i < |rs| => rs[i].slot))
      && forall i | 0 <= i < |rs| :: rs[i].bank == bank && rs[i].bankEpoch == epoch && rs[i].offset == StartOf(rs, i)
    case RunTarget(_, _, _, _, rs) => Unique(seq(|rs|, i requires 0 <= i < |rs| => rs[i].slot))
    case PrepareDraft(_, bank, _, rs) =>
      && bank <= 1 && rs != [] && Unique(seq(|rs|, i requires 0 <= i < |rs| => rs[i].source.slot))
      && (forall i | 0 <= i < |rs| :: rs[i].offset == DraftStartOf(rs, i)) && DraftStartOf(rs, |rs|) < Limit(W32)
    case RunDraft(_, bank, _, rs) =>
      bank <= 1 && rs != [] && Unique(seq(|rs|, i requires 0 <= i < |rs| => rs[i].slot))
  }

  // ---- Batches: a head with a count, then so many rows ----

  /** Rows behind a head whose last field counts them. */
  function Batch<T>(head: seq<Width>, row: Codec<T>): Codec<(seq<nat>, seq<T>)> {
    Then(Fields(head), (h: seq<nat>) => Times(row, if h == [] then 0 else h[|h| - 1]))
  }

  lemma BatchLawful<T(!new)>(head: seq<Width>, row: Codec<T>)
    requires Lawful(row)
    ensures Lawful(Batch(head, row))
  {
    var d := (h: seq<nat>) => Times(row, if h == [] then 0 else h[|h| - 1]);
    FieldsLawful(head);
    forall h ensures Lawful(d(h)) { TimesLawful(row, if h == [] then 0 else h[|h| - 1]); }
    ThenLawful(Fields(head), d);
  }

  lemma BatchAsLawful<T(!new)>(head: seq<Width>, row: Codec<T>, to: ((seq<nat>, seq<T>)) -> Option<Command>, from: Command -> (seq<nat>, seq<T>))
    requires Lawful(row) && Inverse(to, from)
    ensures Lawful(As(Batch(head, row), to, from))
  {
    BatchLawful(head, row);
    AsLawful(Batch(head, row), to, from);
  }

  const BATCH: seq<Width> := [W64, W8, W64, Any32]

  function Checked(c: Command): Option<Command> { if RowsOk(c) then Some(c) else None }

  function ToPrefillBatch(p: (seq<nat>, seq<PrefillRow>)): Option<Command> {
    if |p.0| == 4 && p.0[3] == |p.1| then Checked(TargetPrefill(p.0[0], p.0[1], p.0[2], p.1)) else None
  }

  function FromPrefillBatch(c: Command): (seq<nat>, seq<PrefillRow>) {
    if c.TargetPrefill? then ([c.batch, c.bank, c.epoch, |c.prefills|], c.prefills) else ([], [])
  }

  function ToPrepareBatch(p: (seq<nat>, seq<PrepareRow>)): Option<Command> {
    if |p.0| == 4 && p.0[3] == |p.1| then Checked(PrepareTarget(p.0[0], p.0[1], p.0[2], p.1)) else None
  }

  function FromPrepareBatch(c: Command): (seq<nat>, seq<PrepareRow>) {
    if c.PrepareTarget? then ([c.batch, c.bank, c.epoch, |c.prepares|], c.prepares) else ([], [])
  }

  function ToRunBatch(p: (seq<nat>, seq<RunRow>)): Option<Command> {
    if |p.0| == 5 && p.0[4] == |p.1| then Checked(RunTarget(p.0[0], p.0[1], p.0[2], p.0[3], p.1)) else None
  }

  function FromRunBatch(c: Command): (seq<nat>, seq<RunRow>) {
    if c.RunTarget? then ([c.batch, c.bank, c.epoch, c.standbyEpoch, |c.runs|], c.runs) else ([], [])
  }

  function ToDraftPrepareBatch(p: (seq<nat>, seq<DraftPrepareRow>)): Option<Command> {
    if |p.0| == 4 && p.0[3] == |p.1| then Checked(PrepareDraft(p.0[0], p.0[1], p.0[2], p.1)) else None
  }

  function FromDraftPrepareBatch(c: Command): (seq<nat>, seq<DraftPrepareRow>) {
    if c.PrepareDraft? then ([c.batch, c.bank, c.epoch, |c.sources|], c.sources) else ([], [])
  }

  function ToDraftRunBatch(p: (seq<nat>, seq<DraftRunRow>)): Option<Command> {
    if |p.0| == 4 && p.0[3] == |p.1| then Checked(RunDraft(p.0[0], p.0[1], p.0[2], p.1)) else None
  }

  function FromDraftRunBatch(c: Command): (seq<nat>, seq<DraftRunRow>) {
    if c.RunDraft? then ([c.batch, c.bank, c.epoch, |c.drafts|], c.drafts) else ([], [])
  }

  // ---- The batch of new draft requests: three lists, and a bank or none ----

  function ToBank(p: (seq<nat>, seq<nat>)): Option<Option<Bank>> {
    if |p.0| == 5 && p.0[4] == |p.1| && BankOk(Bank(p.0[0], p.0[1], p.0[2], p.0[3], p.1)) then Some(Some(Bank(p.0[0], p.0[1], p.0[2], p.0[3], p.1)))
    else None
  }

  function FromBank(b: Option<Bank>): (seq<nat>, seq<nat>) {
    match b
    case None => ([], [])
    case Some(b) => ([b.bank, b.epoch, b.batch, b.blockSize, |b.capacities|], b.capacities)
  }

  const BANK: seq<Width> := [W8, W64, W64, W32, Any32]

  function ToNoBank(variant: seq<nat>): seq<nat> -> Option<Option<Bank>> { (v: seq<nat>) => if variant == [0] && v == [] then Some(None) else None }

  function FromNoBank(b: Option<Bank>): seq<nat> { if b.None? then [] else [0] }

  lemma NoBankInverse(variant: seq<nat>)
    ensures Inverse(ToNoBank(variant), FromNoBank)
  {
  }

  /** The variant byte is one when there is a bank, and zero when there is none. */
  function BankAfter(variant: seq<nat>): Codec<Option<Bank>> {
    if variant == [1] then As(Batch(BANK, Number(W32)), ToBank, FromBank)
    else As(Fields([]), ToNoBank(variant), FromNoBank)
  }

  function ToVariant(p: (seq<nat>, Option<Bank>)): Option<Option<Bank>> {
    if p.0 == [if p.1.Some? then 1 else 0] then Some(p.1) else None
  }

  function FromVariant(b: Option<Bank>): (seq<nat>, Option<Bank>) { ([if b.Some? then 1 else 0], b) }

  function BankCodec(): Codec<Option<Bank>> { As(Then(Fields([W8]), BankAfter), ToVariant, FromVariant) }

  function CountAt(h: seq<nat>, i: nat): nat { if i < |h| then h[i] else 0 }

  function RemovedAndBank(h: seq<nat>): Codec<(seq<RemovedRow>, Option<Bank>)> {
    Then(Times(RemovedCodec(), CountAt(h, 2)), (r: seq<RemovedRow>) => BankCodec())
  }

  function DeltasOn(h: seq<nat>): Codec<(seq<DeltaRow>, (seq<RemovedRow>, Option<Bank>))> {
    Then(Times(DeltaCodec(), CountAt(h, 1)), (d: seq<DeltaRow>) => RemovedAndBank(h))
  }

  function Lists(h: seq<nat>): Codec<(seq<NewRow>, (seq<DeltaRow>, (seq<RemovedRow>, Option<Bank>)))> {
    Then(Times(NewCodec(), CountAt(h, 0)), (n: seq<NewRow>) => DeltasOn(h))
  }

  type DraftParts = (seq<nat>, (seq<NewRow>, (seq<DeltaRow>, (seq<RemovedRow>, Option<Bank>))))

  function ToDraftBatch(p: DraftParts): Option<Command> {
    var (news, (deltas, (removed, bank))) := p.1;
    if |p.0| == 3 && p.0[0] == |news| && p.0[1] == |deltas| && p.0[2] == |removed| then Checked(DraftBatch(news, deltas, removed, bank)) else None
  }

  function FromDraftBatch(c: Command): DraftParts {
    if c.DraftBatch? then ([|c.news|, |c.deltas|, |c.removed|], (c.news, (c.deltas, (c.removed, c.initial)))) else ([], ([], ([], ([], None))))
  }

  const LISTS: seq<Width> := [Any32, Any32, Any32]

  const RUN: seq<Width> := [W64, W8, W64, W64, Any32]

  function CommandCodec(k: Kind): Codec<Command> {
    match k
    case DraftBatchKind => As(Then(Fields(LISTS), Lists), ToDraftBatch, FromDraftBatch)
    case TargetPrefillKind => As(Batch(BATCH, PrefillCodec()), ToPrefillBatch, FromPrefillBatch)
    case PrepareTargetKind => As(Batch(BATCH, PrepareCodec()), ToPrepareBatch, FromPrepareBatch)
    case RunTargetKind => As(Batch(RUN, RunCodec()), ToRunBatch, FromRunBatch)
    case PrepareDraftKind => As(Batch(BATCH, DraftPrepareCodec()), ToDraftPrepareBatch, FromDraftPrepareBatch)
    case RunDraftKind => As(Batch(BATCH, DraftRunCodec()), ToDraftRunBatch, FromDraftRunBatch)
  }

  lemma PrefillBatchInverse()
    ensures Inverse(ToPrefillBatch, FromPrefillBatch)
  {
    forall a | ToPrefillBatch(a).Some? ensures FromPrefillBatch(ToPrefillBatch(a).value) == a {
      assert FromPrefillBatch(ToPrefillBatch(a).value).0 == a.0;
    }
    forall b | ToPrefillBatch(FromPrefillBatch(b)).Some? ensures ToPrefillBatch(FromPrefillBatch(b)).value == b {}
  }

  lemma PrepareBatchInverse()
    ensures Inverse(ToPrepareBatch, FromPrepareBatch)
  {
    forall a | ToPrepareBatch(a).Some? ensures FromPrepareBatch(ToPrepareBatch(a).value) == a {
      assert FromPrepareBatch(ToPrepareBatch(a).value).0 == a.0;
    }
    forall b | ToPrepareBatch(FromPrepareBatch(b)).Some? ensures ToPrepareBatch(FromPrepareBatch(b)).value == b {}
  }

  lemma RunBatchInverse()
    ensures Inverse(ToRunBatch, FromRunBatch)
  {
    forall a | ToRunBatch(a).Some? ensures FromRunBatch(ToRunBatch(a).value) == a {
      assert FromRunBatch(ToRunBatch(a).value).0 == a.0;
    }
    forall b | ToRunBatch(FromRunBatch(b)).Some? ensures ToRunBatch(FromRunBatch(b)).value == b {}
  }

  lemma DraftPrepareBatchInverse()
    ensures Inverse(ToDraftPrepareBatch, FromDraftPrepareBatch)
  {
    forall a | ToDraftPrepareBatch(a).Some? ensures FromDraftPrepareBatch(ToDraftPrepareBatch(a).value) == a {
      assert FromDraftPrepareBatch(ToDraftPrepareBatch(a).value).0 == a.0;
    }
    forall b | ToDraftPrepareBatch(FromDraftPrepareBatch(b)).Some? ensures ToDraftPrepareBatch(FromDraftPrepareBatch(b)).value == b {}
  }

  lemma DraftRunBatchInverse()
    ensures Inverse(ToDraftRunBatch, FromDraftRunBatch)
  {
    forall a | ToDraftRunBatch(a).Some? ensures FromDraftRunBatch(ToDraftRunBatch(a).value) == a {
      assert FromDraftRunBatch(ToDraftRunBatch(a).value).0 == a.0;
    }
    forall b | ToDraftRunBatch(FromDraftRunBatch(b)).Some? ensures ToDraftRunBatch(FromDraftRunBatch(b)).value == b {}
  }

  lemma DraftBatchInverse()
    ensures Inverse(ToDraftBatch, FromDraftBatch)
  {
    forall a | ToDraftBatch(a).Some? ensures FromDraftBatch(ToDraftBatch(a).value) == a {
      assert FromDraftBatch(ToDraftBatch(a).value).0 == a.0;
      assert a.1 == (a.1.0, (a.1.1.0, (a.1.1.1.0, a.1.1.1.1)));
    }
    forall b | ToDraftBatch(FromDraftBatch(b)).Some? ensures ToDraftBatch(FromDraftBatch(b)).value == b {}
  }

  lemma BankInverse()
    ensures Inverse(ToBank, FromBank)
  {
    forall a | ToBank(a).Some? ensures FromBank(ToBank(a).value) == a {
      assert FromBank(ToBank(a).value).0 == a.0;
    }
    forall b | ToBank(FromBank(b)).Some? ensures ToBank(FromBank(b)).value == b {}
  }

  lemma VariantInverse()
    ensures Inverse(ToVariant, FromVariant)
  {
    forall a | ToVariant(a).Some? ensures FromVariant(ToVariant(a).value) == a {
      assert FromVariant(ToVariant(a).value).0 == a.0;
    }
    forall b | ToVariant(FromVariant(b)).Some? ensures ToVariant(FromVariant(b)).value == b {}
  }

  lemma BankAfterLawful(variant: seq<nat>)
    ensures Lawful(BankAfter(variant))
  {
    if variant == [1] {
      NumberLawful(W32);
      BatchLawful(BANK, Number(W32));
      BankInverse();
      AsLawful(Batch(BANK, Number(W32)), ToBank, FromBank);
    } else {
      FieldsLawful([]);
      NoBankInverse(variant);
      AsLawful(Fields([]), ToNoBank(variant), FromNoBank);
    }
  }

  lemma BankLawful()
    ensures Lawful(BankCodec())
  {
    FieldsLawful([W8]);
    forall v ensures Lawful(BankAfter(v)) { BankAfterLawful(v); }
    ThenLawful(Fields([W8]), BankAfter);
    VariantInverse();
    AsLawful(Then(Fields([W8]), BankAfter), ToVariant, FromVariant);
  }

  lemma ListsLawful(h: seq<nat>)
    ensures Lawful(Lists(h))
  {
    BankLawful();
    RemovedLawful();
    TimesLawful(RemovedCodec(), CountAt(h, 2));
    ThenLawful(Times(RemovedCodec(), CountAt(h, 2)), (r: seq<RemovedRow>) => BankCodec());
    DeltaLawful();
    TimesLawful(DeltaCodec(), CountAt(h, 1));
    ThenLawful(Times(DeltaCodec(), CountAt(h, 1)), (d: seq<DeltaRow>) => RemovedAndBank(h));
    NewLawful();
    TimesLawful(NewCodec(), CountAt(h, 0));
    ThenLawful(Times(NewCodec(), CountAt(h, 0)), (n: seq<NewRow>) => DeltasOn(h));
  }

  lemma CommandLawful(k: Kind)
    ensures Lawful(CommandCodec(k))
  {
    match k
    case DraftBatchKind => DraftBatchLawful();
    case TargetPrefillKind => PrefillBatchLawful();
    case PrepareTargetKind => PrepareBatchLawful();
    case RunTargetKind => RunBatchLawful();
    case PrepareDraftKind => DraftPrepareBatchLawful();
    case RunDraftKind => DraftRunBatchLawful();
  }

  lemma DraftBatchLawful()
    ensures Lawful(CommandCodec(DraftBatchKind))
  {
    FieldsLawful(LISTS);
    forall h ensures Lawful(Lists(h)) { ListsLawful(h); }
    ThenLawful(Fields(LISTS), Lists);
    DraftBatchInverse();
    AsLawful(Then(Fields(LISTS), Lists), ToDraftBatch, FromDraftBatch);
  }

  lemma PrefillBatchLawful()
    ensures Lawful(CommandCodec(TargetPrefillKind))
  {
    PrefillLawful();
    PrefillBatchInverse();
    BatchAsLawful(BATCH, PrefillCodec(), ToPrefillBatch, FromPrefillBatch);
  }

  lemma PrepareBatchLawful()
    ensures Lawful(CommandCodec(PrepareTargetKind))
  {
    PrepareLawful();
    PrepareBatchInverse();
    BatchAsLawful(BATCH, PrepareCodec(), ToPrepareBatch, FromPrepareBatch);
  }

  lemma RunBatchLawful()
    ensures Lawful(CommandCodec(RunTargetKind))
  {
    RunLawful();
    RunBatchInverse();
    BatchAsLawful(RUN, RunCodec(), ToRunBatch, FromRunBatch);
  }

  lemma DraftPrepareBatchLawful()
    ensures Lawful(CommandCodec(PrepareDraftKind))
  {
    DraftPrepareLawful();
    DraftPrepareBatchInverse();
    BatchAsLawful(BATCH, DraftPrepareCodec(), ToDraftPrepareBatch, FromDraftPrepareBatch);
  }

  lemma DraftRunBatchLawful()
    ensures Lawful(CommandCodec(RunDraftKind))
  {
    DraftRunLawful();
    DraftRunBatchInverse();
    BatchAsLawful(BATCH, DraftRunCodec(), ToDraftRunBatch, FromDraftRunBatch);
  }

  // ---- Payloads ----

  const HEAD: seq<Width> := [Any32, Any32, Any32]

  /** The magic, the version and the kind, then the command. */
  function Framed(k: Kind): Codec<(seq<nat>, Command)> { Then(Fields(HEAD), Always(CommandCodec(k))) }

  function ToFramed(k: Kind): ((seq<nat>, Command)) -> Option<Command> {
    (p: (seq<nat>, Command)) => if p.0 == [MAGIC, VERSION, Tag(k)] then Some(p.1) else None
  }

  function FromFramed(k: Kind): Command -> (seq<nat>, Command) { (c: Command) => ([MAGIC, VERSION, Tag(k)], c) }

  function PayloadCodec(k: Kind): Codec<Command> { As(Framed(k), ToFramed(k), FromFramed(k)) }

  lemma PayloadLawful(k: Kind)
    ensures Lawful(PayloadCodec(k))
  {
    FieldsLawful(HEAD);
    CommandLawful(k);
    FollowedLawful(Fields(HEAD), CommandCodec(k));
    AsLawful(Framed(k), ToFramed(k), FromFramed(k));
  }

  /** The command could be constructed: every field is in its domain, and rows and command pass their checks. */
  predicate WellFormed(c: Command) { PayloadCodec(KindOf(c)).ok(c) }

  /** A count of any but the draft bank commands is written as a checked number, so it cannot be the largest one. */
  predicate CountsFit(c: Command) {
    match c
    case DraftBatch(news, deltas, removed, _) => |news| < Limit(W32) && |deltas| < Limit(W32) && |removed| < Limit(W32)
    case TargetPrefill(_, _, _, rs) => |rs| < Limit(W32)
    case PrepareTarget(_, _, _, rs) => |rs| < Limit(W32)
    case RunTarget(_, _, _, _, rs) => |rs| < Limit(W32)
    case PrepareDraft(_, _, _, _) => true
    case RunDraft(_, _, _, _) => true
  }

  /** encode_command_payload of a command that could be constructed. */
  function Encode(c: Command): Option<seq<Byte>> {
    if WellFormed(c) && CountsFit(c) then Some(PayloadCodec(KindOf(c)).write(c)) else None
  }

  /** decode_command_payload: the kind is the one of the header beside the payload. */
  function DecodePayload(k: Kind, raw: seq<Byte>): Option<Command> { Decode(PayloadCodec(k), raw) }

  lemma KindKept(k: Kind, c: Command)
    ensures CommandCodec(k).ok(c) ==> KindOf(c) == k
  {
    CodecFits(k, c);
    FitsKind(k, c);
  }

  /** The command comes back from the parts that it is written as. */
  predicate ComesBack(k: Kind, c: Command) {
    match k
    case DraftBatchKind => ToDraftBatch(FromDraftBatch(c)).Some?
    case TargetPrefillKind => ToPrefillBatch(FromPrefillBatch(c)).Some?
    case PrepareTargetKind => ToPrepareBatch(FromPrepareBatch(c)).Some?
    case RunTargetKind => ToRunBatch(FromRunBatch(c)).Some?
    case PrepareDraftKind => ToDraftPrepareBatch(FromDraftPrepareBatch(c)).Some?
    case RunDraftKind => ToDraftRunBatch(FromDraftRunBatch(c)).Some?
  }

  lemma CodecFits(k: Kind, c: Command)
    ensures CommandCodec(k).ok(c) ==> ComesBack(k, c)
  {
    match k
    case DraftBatchKind => DraftBatchFits(c);
    case TargetPrefillKind => PrefillBatchFits(c);
    case PrepareTargetKind => PrepareBatchFits(c);
    case RunTargetKind => RunBatchFits(c);
    case PrepareDraftKind => DraftPrepareBatchFits(c);
    case RunDraftKind => DraftRunBatchFits(c);
  }

  lemma DraftBatchFits(c: Command)
    ensures CommandCodec(DraftBatchKind).ok(c) ==> ComesBack(DraftBatchKind, c)
  {
    AsFits(Then(Fields(LISTS), Lists), ToDraftBatch, FromDraftBatch, c);
  }

  lemma PrefillBatchFits(c: Command)
    ensures CommandCodec(TargetPrefillKind).ok(c) ==> ComesBack(TargetPrefillKind, c)
  {
    AsFits(Batch(BATCH, PrefillCodec()), ToPrefillBatch, FromPrefillBatch, c);
  }

  lemma PrepareBatchFits(c: Command)
    ensures CommandCodec(PrepareTargetKind).ok(c) ==> ComesBack(PrepareTargetKind, c)
  {
    AsFits(Batch(BATCH, PrepareCodec()), ToPrepareBatch, FromPrepareBatch, c);
  }

  lemma RunBatchFits(c: Command)
    ensures CommandCodec(RunTargetKind).ok(c) ==> ComesBack(RunTargetKind, c)
  {
    AsFits(Batch(RUN, RunCodec()), ToRunBatch, FromRunBatch, c);
  }

  lemma DraftPrepareBatchFits(c: Command)
    ensures CommandCodec(PrepareDraftKind).ok(c) ==> ComesBack(PrepareDraftKind, c)
  {
    AsFits(Batch(BATCH, DraftPrepareCodec()), ToDraftPrepareBatch, FromDraftPrepareBatch, c);
  }

  lemma DraftRunBatchFits(c: Command)
    ensures CommandCodec(RunDraftKind).ok(c) ==> ComesBack(RunDraftKind, c)
  {
    AsFits(Batch(BATCH, DraftRunCodec()), ToDraftRunBatch, FromDraftRunBatch, c);
  }

  lemma FitsKind(k: Kind, c: Command)
    ensures ComesBack(k, c) ==> KindOf(c) == k
  {
  }

  /** Every command decodes to itself, under its own kind. */
  lemma RoundTrip(c: Command)
    ensures Encode(c).Some? ==> DecodePayload(KindOf(c), Encode(c).value) == Some(c)
  {
    PayloadLawful(KindOf(c));
    if Encode(c).Some? { DecodeExactly(PayloadCodec(KindOf(c)), Encode(c).value, c); }
  }

  /** Only what is encoded decodes, byte for byte: the one exception is a list of exactly the largest count. */
  lemma OnlyEncoded(k: Kind, raw: seq<Byte>)
    requires DecodePayload(k, raw).Some?
    ensures var c := DecodePayload(k, raw).value;
            KindOf(c) == k && WellFormed(c) && (Encode(c) == Some(raw) <==> CountsFit(c))
  {
    var c := DecodePayload(k, raw).value;
    PayloadLawful(k);
    DecodeExactly(PayloadCodec(k), raw, c);
    KindKept(k, c);
  }

  /** No payload is the beginning of another one, of whatever kind; so each one that is cut off or goes on is refused. */
  lemma NoPrefixDecodes(k: Kind, j: Kind, raw: seq<Byte>, more: seq<Byte>)
    requires DecodePayload(k, raw).Some? && more != []
    ensures DecodePayload(j, raw + more).None?
  {
    if j == k {
      PayloadLawful(k);
      NoExtension(PayloadCodec(k), raw, more);
    } else {
      KindsApart(k, raw, j, raw + more);
    }
  }

  lemma KindsApart(k: Kind, raw: seq<Byte>, j: Kind, longer: seq<Byte>)
    requires DecodePayload(k, raw).Some? && k != j && raw <= longer
    ensures DecodePayload(j, longer).None?
  {
    DecodedFrame(k, raw);
    DecodedFrame(j, longer);
    FramesApart(k, raw, j, longer);
  }

  lemma FramesApart(k: Kind, raw: seq<Byte>, j: Kind, longer: seq<Byte>)
    requires FramedAs(k, raw) && k != j && raw <= longer
    ensures !FramedAs(j, longer)
  {
    if FramedAs(j, longer) {
      Extends(raw, longer);
      SameKind(k, raw, longer[|raw|..], j);
    }
  }

  lemma Extends(raw: seq<Byte>, longer: seq<Byte>)
    requires raw <= longer
    ensures longer == raw + longer[|raw|..]
  {
  }

  lemma SameKind(k: Kind, raw: seq<Byte>, more: seq<Byte>, j: Kind)
    requires FramedAs(k, raw) && FramedAs(j, raw + more)
    ensures k == j
  {
    var x :| raw == HeadBytes(k) + x;
    var y :| raw + more == HeadBytes(j) + y;
    Regroup(HeadBytes(k), x, more);
    SameTag(k, x + more, j, y);
  }

  /** The bytes begin with the magic, the version and this kind. */
  ghost predicate FramedAs(k: Kind, raw: seq<Byte>) { exists x: seq<Byte> :: raw == HeadBytes(k) + x }

  lemma DecodedFrame(k: Kind, raw: seq<Byte>)
    ensures DecodePayload(k, raw).Some? ==> FramedAs(k, raw)
  {
    if DecodePayload(k, raw).Some? {
      var c := DecodePayload(k, raw).value;
      PayloadLawful(k);
      DecodeExactly(PayloadCodec(k), raw, c);
      assert raw == HeadBytes(k) + CommandCodec(k).write(c);
    }
  }

  /** The first twelve bytes. */
  function HeadBytes(k: Kind): seq<Byte> { Fields(HEAD).write([MAGIC, VERSION, Tag(k)]) }

  lemma SameNumbers(ws: seq<Width>, a: seq<nat>, x: seq<Byte>, b: seq<nat>, y: seq<Byte>)
    requires Fields(ws).ok(a) && Fields(ws).ok(b) && Fields(ws).write(a) + x == Fields(ws).write(b) + y
    ensures a == b
  {
    FieldsLawful(ws);
    SameFirst(Fields(ws), a, x, b, y);
  }

  lemma HeadOk(k: Kind)
    ensures Fields(HEAD).ok([MAGIC, VERSION, Tag(k)])
  {
  }

  lemma SameTag(k: Kind, x: seq<Byte>, j: Kind, y: seq<Byte>)
    requires HeadBytes(k) + x == HeadBytes(j) + y
    ensures k == j
  {
    var a, b := [MAGIC, VERSION, Tag(k)], [MAGIC, VERSION, Tag(j)];
    HeadOk(k);
    HeadOk(j);
    SameNumbers(HEAD, a, x, b, y);
    assert a[2] == b[2];
  }

  /** The kind in the payload is the kind of the header: a payload decodes under no other. */
  lemma OneKind(c: Command, k: Kind)
    requires Encode(c).Some? && DecodePayload(k, Encode(c).value).Some?
    ensures k == KindOf(c)
  {
    RoundTrip(c);
    if k != KindOf(c) { KindsApart(KindOf(c), Encode(c).value, k, Encode(c).value); }
  }
}
