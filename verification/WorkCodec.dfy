/** The payload of a WORK: rows of fixed size with padding that is written as zeros and not read. */
module WorkCodec {
  import opened Wrappers
  import opened Codec

  /** The letters SDWO. */
  const MAGIC: nat := 0x4F57_4453
  const VERSION: nat := 4
  const STRIDE: nat := 248
  const MAX_ROWS: nat := 256
  const NOTHING: nat := 0xFFFF_FFFF_FFFF_FFFF

  datatype Operation = TargetPrefill | DraftInitial | TargetVerify | DraftDecode

  datatype Selector = TargetHost | DraftHost | Proposal | Delta | IsClassified | TargetDecision

  datatype Handle = Handle(offset: nat, length: nat, generation: nat)

  datatype Dependency = Dependency(kind: nat, slot: nat, epoch: nat, ticket: nat, selector: Selector)

  datatype Row = Row(slot: nat, epoch: nat, round: nat, run: nat, destination: nat, capacity: nat,
                     hostOffset: nat, hostCapacity: nat, hostArena: nat, hostGeneration: nat, hostSlot: nat, writer: nat,
                     prompt: Handle, config: Handle, output: Handle, tokens: nat, maxNew: nat, prompts: nat,
                     source: Option<Dependency>, predecessor: Option<Dependency>, classified: Option<Dependency>,
                     owner: Option<nat>, layout: Option<nat>)

  datatype Work = Work(worker: nat, generation: nat, number: nat, operation: Operation, bank: nat, bankEpoch: nat,
                       completion: nat, resultBytes: nat, rows: seq<Row>)

  // ---- Codes ----

  function OperationCode(o: Operation): nat {
    match o
    case TargetPrefill => 1
    case DraftInitial => 2
    case TargetVerify => 3
    case DraftDecode => 4
  }

  function ToOperation(v: nat): Option<Operation> {
    if v == 1 then Some(TargetPrefill)
    else if v == 2 then Some(DraftInitial)
    else if v == 3 then Some(TargetVerify)
    else if v == 4 then Some(DraftDecode)
    else None
  }

  function SelectorCode(s: Selector): nat {
    match s
    case TargetHost => 1
    case DraftHost => 2
    case Proposal => 3
    case Delta => 4
    case IsClassified => 5
    case TargetDecision => 6
  }

  function ToSelector(v: nat): Option<Selector> {
    if v == 1 then Some(TargetHost)
    else if v == 2 then Some(DraftHost)
    else if v == 3 then Some(Proposal)
    else if v == 4 then Some(Delta)
    else if v == 5 then Some(IsClassified)
    else if v == 6 then Some(TargetDecision)
    else None
  }

  /** A missing number is written as the largest one. */
  function OrNothing(v: Option<nat>): nat { if v.Some? then v.value else NOTHING }

  function ToNumber(v: nat): Option<nat> { if v == NOTHING then None else Some(v) }

  // ---- What a WORK demands of its rows ----

  predicate Draft(o: Operation) { o.DraftInitial? || o.DraftDecode? }

  predicate Names(r: Row, d: Option<Dependency>) { d.Some? ==> d.value.slot == r.slot && d.value.epoch == r.epoch }

  predicate RowOk(o: Operation, r: Row) {
    && r.capacity > 0 && r.hostCapacity >= r.capacity && Names(r, r.source) && Names(r, r.predecessor) && Names(r, r.classified)
    && (Draft(o) ==>
          && r.owner.Some? && r.layout.Some? && r.predecessor.Some? && r.predecessor.value.selector == Delta
          && r.classified.Some? && (r.classified.value.selector == IsClassified || r.classified.value.selector == TargetDecision)
          && (r.source.Some? ==> r.source.value.selector == DraftHost) && (o.DraftInitial? ==> r.source.None?))
    && (!o.TargetPrefill? ==> r.classified.Some?) && (o.TargetVerify? || o.DraftDecode? ==> r.source.Some?)
  }

  function StartOf(rows: seq<Row>, i: nat): nat
    requires i <= |rows|
  {
    if i == 0 then 0 else StartOf(rows, i - 1) + rows[i - 1].capacity
  }

  /** A WORK can be constructed: one to so many requests, each once, in ranges that follow each other. */
  predicate Constructible(w: Work) {
    && w.bank <= 1 && 0 < |w.rows| <= MAX_ROWS && w.resultBytes > 0
    && (forall i, j | 0 <= i < j < |w.rows| :: w.rows[i].slot != w.rows[j].slot)
    && forall i | 0 <= i < |w.rows| :: RowOk(w.operation, w.rows[i]) && w.rows[i].destination == StartOf(w.rows, i)
  }

  // ---- Rows with their padding ----

  /** A value and the padding bytes around it. */
  datatype Padded<T> = Padded(value: T, padding: seq<nat>)

  const DEPENDENCY: seq<Width> := [Any32, Any32, Any64, Any64, Any32, Any32]

  /** Five zeros are no dependency; the last four bytes are padding. */
  function ToDependency(v: seq<nat>): Option<Padded<Option<Dependency>>> {
    if |v| != 6 then None
    else if v[..5] == [0, 0, 0, 0, 0] then Some(Padded(None, [v[5]]))
    else
      match ToSelector(v[4])
      case None => None
      case Some(s) => Some(Padded(Some(Dependency(v[0], v[1], v[2], v[3], s)), [v[5]]))
  }

  function DependencyFields(p: Padded<Option<Dependency>>): seq<nat> {
    match p.value
    case None => [0, 0, 0, 0, 0] + p.padding
    case Some(d) => [d.kind, d.slot, d.epoch, d.ticket, SelectorCode(d.selector)] + p.padding
  }

  function DependencyCodec(): Codec<Padded<Option<Dependency>>> { As(Fields(DEPENDENCY), ToDependency, DependencyFields) }

  lemma DependencyLawful()
    ensures Lawful(DependencyCodec())
  {
    FieldsLawful(DEPENDENCY);
    DependencyInverse();
    AsLawful(Fields(DEPENDENCY), ToDependency, DependencyFields);
  }

  lemma DependencyInverse()
    ensures Inverse(ToDependency, DependencyFields)
  {
    forall a | ToDependency(a).Some? ensures DependencyFields(ToDependency(a).value) == a { DependencyThere(a); }
    forall b | ToDependency(DependencyFields(b)).Some? ensures ToDependency(DependencyFields(b)).value == b { DependencyBack(b); }
  }

  lemma DependencyThere(a: seq<nat>)
    requires ToDependency(a).Some?
    ensures DependencyFields(ToDependency(a).value) == a
  {
    assert a == a[..5] + [a[5]];
  }

  lemma DependencyBack(b: Padded<Option<Dependency>>)
    ensures ToDependency(DependencyFields(b)) == if |b.padding| == 1 then Some(b) else None
  {
    var v := DependencyFields(b);
    if |b.padding| == 1 {
      assert v[..5][4] == v[4] && [v[5]] == b.padding;
    }
  }

  const HANDLE: seq<Width> := [W64, W32, W32]

  const ROW: seq<Width> :=
    [Any32, Any64, Any64, Any64, Any32, Any32, Any64, Any64, Any32, Any64, Any32, Any64] + HANDLE + HANDLE + HANDLE + [Any32, Any32, Any32]

  type RowParts = (seq<nat>, (seq<Padded<Option<Dependency>>>, seq<nat>))

  function ToRow(p: RowParts): Option<Padded<Row>> {
    var v, ds, n := p.0, p.1.0, p.1.1;
    if |v| != 24 || |ds| != 3 || |n| != 2 then None
    else if |ds[0].padding| != 1 || |ds[1].padding| != 1 || |ds[2].padding| != 1 then None
    else Some(Padded(
      Row(v[0], v[1], v[2], v[3], v[4], v[5], v[6], v[7], v[8], v[9], v[10], v[11], Handle(v[12], v[13], v[14]), Handle(v[15], v[16], v[17]),
          Handle(v[18], v[19], v[20]), v[21], v[22], v[23], ds[0].value, ds[1].value, ds[2].value, ToNumber(n[0]), ToNumber(n[1])),
      [ds[0].padding[0], ds[1].padding[0], ds[2].padding[0]]))
  }

  /** No number of the row is the one that stands for a missing one. */
  predicate Plain(r: Row) { r.owner != Some(NOTHING) && r.layout != Some(NOTHING) }

  function RowFields(r: Row): seq<nat> {
    [r.slot, r.epoch, r.round, r.run, r.destination, r.capacity, r.hostOffset, r.hostCapacity, r.hostArena, r.hostGeneration, r.hostSlot, r.writer,
     r.prompt.offset, r.prompt.length, r.prompt.generation, r.config.offset, r.config.length, r.config.generation,
     r.output.offset, r.output.length, r.output.generation, r.tokens, r.maxNew, r.prompts]
  }

  function FromRow(p: Padded<Row>): RowParts {
    var r := p.value;
    if !Plain(r) || |p.padding| != 3 then ([], ([], []))
    else (RowFields(r),
          ([Padded(r.source, [p.padding[0]]), Padded(r.predecessor, [p.padding[1]]), Padded(r.classified, [p.padding[2]])],
           [OrNothing(r.owner), OrNothing(r.layout)]))
  }

  const NUMBERS: seq<Width> := [Any64, Any64]

  function RowTail(v: seq<nat>): Codec<(seq<Padded<Option<Dependency>>>, seq<nat>)> {
    Then(Times(DependencyCodec(), 3), (ds: seq<Padded<Option<Dependency>>>) => Fields(NUMBERS))
  }

  function RowCodec(): Codec<Padded<Row>> { As(Then(Fields(ROW), RowTail), ToRow, FromRow) }

  lemma RowInverse()
    ensures Inverse(ToRow, FromRow)
  {
    forall a | ToRow(a).Some? ensures FromRow(ToRow(a).value) == a { RowThere(a); }
    forall b | ToRow(FromRow(b)).Some? ensures ToRow(FromRow(b)).value == b { RowBack(b); }
  }

  lemma RowThere(a: RowParts)
    requires ToRow(a).Some?
    ensures FromRow(ToRow(a).value) == a
  {
    var r, ds := ToRow(a).value.value, a.1.0;
    assert RowFields(r) == a.0;
    assert ds == [ds[0], ds[1], ds[2]] && [ds[0].padding[0]] == ds[0].padding && [ds[1].padding[0]] == ds[1].padding && [ds[2].padding[0]] == ds[2].padding;
    assert [OrNothing(r.owner), OrNothing(r.layout)] == a.1.1;
  }

  lemma RowBack(b: Padded<Row>)
    requires ToRow(FromRow(b)).Some?
    ensures ToRow(FromRow(b)).value == b
  {
    assert [b.padding[0], b.padding[1], b.padding[2]] == b.padding;
  }

  lemma RowLawful()
    ensures Lawful(RowCodec())
  {
    FieldsLawful(ROW);
    FieldsLawful(NUMBERS);
    DependencyLawful();
    TimesLawful(DependencyCodec(), 3);
    ThenLawful(Times(DependencyCodec(), 3), (ds: seq<Padded<Option<Dependency>>>) => Fields(NUMBERS));
    ThenLawful(Fields(ROW), RowTail);
    RowInverse();
    AsLawful(Then(Fields(ROW), RowTail), ToRow, FromRow);
  }

  // ---- The whole payload ----

  /** A WORK with the padding of its head and of each of its rows. */
  datatype PaddedWork = PaddedWork(work: Work, padding: seq<nat>, rowPadding: seq<seq<nat>>)

  const HEAD: seq<Width> :=
    [Any32, Any16, Any16, Any32, Any64, Any64, Any8] + [Any8, Any8, Any8, Any8, Any8, Any8, Any8] + [Any64, Any64, Any32, Any32, Any32]

  function HeadFields(w: Work, padding: seq<nat>): seq<nat> {
    [MAGIC, VERSION, OperationCode(w.operation), w.worker, w.generation, w.number, w.bank] + padding
    + [w.bankEpoch, w.completion, w.resultBytes, |w.rows|, STRIDE]
  }

  function RowsOf(ps: seq<Padded<Row>>): seq<Row> { seq(|ps|, i requires 0 <= i < |ps| => ps[i].value) }

  function PaddingOf(ps: seq<Padded<Row>>): seq<seq<nat>> { seq(|ps|, i requires 0 <= i < |ps| => ps[i].padding) }

  function PadRows(rows: seq<Row>, padding: seq<seq<nat>>): seq<Padded<Row>>
    requires |padding| == |rows|
  {
    seq(|rows|, i requires 0 <= i < |rows| => Padded(rows[i], padding[i]))
  }

  function ToWork(p: (seq<nat>, seq<Padded<Row>>)): Option<PaddedWork> {
    var v := p.0;
    if |v| != 19 || v[0] != MAGIC || v[1] != VERSION || v[18] != STRIDE || v[17] != |p.1| then None
    else
      match ToOperation(v[2])
      case None => None
      case Some(o) =>
        var w := Work(v[3], v[4], v[5], o, v[6], v[14], v[15], v[16], RowsOf(p.1));
        if Constructible(w) then Some(PaddedWork(w, v[7..14], PaddingOf(p.1))) else None
  }

  function FromWork(p: PaddedWork): (seq<nat>, seq<Padded<Row>>) {
    if |p.padding| != 7 || |p.rowPadding| != |p.work.rows| then ([], [])
    else (HeadFields(p.work, p.padding), PadRows(p.work.rows, p.rowPadding))
  }

  function CountOf(v: seq<nat>): nat { if |v| == 19 then v[17] else 0 }

  function RowsAfter(v: seq<nat>): Codec<seq<Padded<Row>>> { Times(RowCodec(), CountOf(v)) }

  function WorkParts(): Codec<(seq<nat>, seq<Padded<Row>>)> { Then(Fields(HEAD), RowsAfter) }

  function PaddedCodec(): Codec<PaddedWork> { As(WorkParts(), ToWork, FromWork) }

  lemma WorkThere(a: (seq<nat>, seq<Padded<Row>>))
    requires ToWork(a).Some?
    ensures FromWork(ToWork(a).value) == a
  {
    var p := ToWork(a).value;
    assert HeadFields(p.work, p.padding) == a.0;
    assert PadRows(p.work.rows, p.rowPadding) == a.1;
  }

  lemma WorkBack(b: PaddedWork)
    requires ToWork(FromWork(b)).Some?
    ensures ToWork(FromWork(b)).value == b
  {
    var v := FromWork(b).0;
    assert v[7..14] == b.padding;
    assert RowsOf(FromWork(b).1) == b.work.rows && PaddingOf(FromWork(b).1) == b.rowPadding;
  }

  lemma PartsLawful()
    ensures Lawful(WorkParts())
  {
    FieldsLawful(HEAD);
    RowLawful();
    forall v ensures Lawful(RowsAfter(v)) { TimesLawful(RowCodec(), CountOf(v)); }
    ThenLawful(Fields(HEAD), RowsAfter);
  }

  lemma PaddedLawful()
    ensures Lawful(PaddedCodec())
  {
    PartsLawful();
    forall a | ToWork(a).Some? ensures FromWork(ToWork(a).value) == a { WorkThere(a); }
    forall b | ToWork(FromWork(b)).Some? ensures ToWork(FromWork(b)).value == b { WorkBack(b); }
    AsLawful(WorkParts(), ToWork, FromWork);
  }

  // ---- Encoding and decoding ----

  /** What a row says once it is written: the largest number is no number. */
  function Written(r: Row): Row { r.(owner := ToNumber(OrNothing(r.owner)), layout := ToNumber(OrNothing(r.layout))) }

  function WrittenWork(w: Work): Work { w.(rows := seq(|w.rows|, i requires 0 <= i < |w.rows| => Written(w.rows[i]))) }

  function NoPadding(w: Work): PaddedWork {
    PaddedWork(w, [0, 0, 0, 0, 0, 0, 0], seq(|w.rows|, i requires 0 <= i < |w.rows| => [0, 0, 0]))
  }

  /** Work.to_bytes of a WORK that could be constructed: every number must fit its field, and padding is zeros. */
  function EncodeWork(w: Work): Option<seq<Byte>> {
    var p := NoPadding(WrittenWork(w));
    if Constructible(w) && WorkParts().ok(FromWork(p)) then Some(PaddedCodec().write(p)) else None
  }

  /** Work.from_bytes. Padding is not looked at. */
  function DecodeWork(raw: seq<Byte>): Option<Work> {
    match Decode(PaddedCodec(), raw)
    case None => None
    case Some(p) => Some(p.work)
  }

  /** Bytes decode to a WORK exactly when they are what is written for it with some padding. */
  lemma DecodesExactly(raw: seq<Byte>, w: Work)
    ensures DecodeWork(raw) == Some(w) <==>
            exists p: PaddedWork :: p.work == w && PaddedCodec().ok(p) && raw == PaddedCodec().write(p)
  {
    PaddedLawful();
    if DecodeWork(raw) == Some(w) {
      DecodeExactly(PaddedCodec(), raw, Decode(PaddedCodec(), raw).value);
    }
    if p: PaddedWork :| p.work == w && PaddedCodec().ok(p) && raw == PaddedCodec().write(p) {
      DecodeExactly(PaddedCodec(), raw, p);
    }
  }

  /** What was encoded decodes to the WORK that was written, if that one can be constructed, and to nothing if it cannot. */
  lemma EncodedDecodes(w: Work)
    requires EncodeWork(w).Some?
    ensures DecodeWork(EncodeWork(w).value) == if Constructible(WrittenWork(w)) then Some(WrittenWork(w)) else None
  {
    var p := NoPadding(WrittenWork(w));
    PartsLawful();
    AsDecodes(WorkParts(), ToWork, FromWork, FromWork(p));
    WorkTo(p);
  }

  lemma WorkTo(b: PaddedWork)
    requires |b.padding| == 7 && |b.rowPadding| == |b.work.rows|
    ensures ToWork(FromWork(b)) == if Constructible(b.work) then Some(b) else None
  {
    var v := FromWork(b).0;
    assert v[7..14] == b.padding && v[17] == |FromWork(b).1|;
    assert RowsOf(FromWork(b).1) == b.work.rows && PaddingOf(FromWork(b).1) == b.rowPadding;
    assert Work(v[3], v[4], v[5], b.work.operation, v[6], v[14], v[15], v[16], RowsOf(FromWork(b).1)) == b.work;
  }

  /** A WORK decodes to itself exactly when no owner epoch or layout id is the number that stands for a missing one. */
  lemma WorkRoundTrip(w: Work)
    requires EncodeWork(w).Some?
    ensures DecodeWork(EncodeWork(w).value) == Some(w) <==> forall i | 0 <= i < |w.rows| :: Plain(w.rows[i])
  {
    EncodedDecodes(w);
    WrittenSame(w);
  }

  lemma WrittenSame(w: Work)
    ensures WrittenWork(w) == w <==> forall i | 0 <= i < |w.rows| :: Plain(w.rows[i])
  {
    if forall i | 0 <= i < |w.rows| :: Plain(w.rows[i]) {
      assert WrittenWork(w).rows == w.rows;
    }
    if WrittenWork(w) == w {
      forall i | 0 <= i < |w.rows| ensures Plain(w.rows[i]) { assert Written(w.rows[i]) == WrittenWork(w).rows[i]; }
    }
  }

  /** A payload that goes on behind the last row is refused, and so is one that is cut short. */
  lemma NothingBehind(raw: seq<Byte>, more: seq<Byte>)
    requires DecodeWork(raw).Some? && more != []
    ensures DecodeWork(raw + more).None?
  {
    PaddedLawful();
    NoExtension(PaddedCodec(), raw, more);
  }

  // ---- Sizes ----

  function SizeOf(ws: seq<Width>): nat { if ws == [] then 0 else Size(ws[0]) + SizeOf(ws[1..]) }

  lemma FieldsSize(ws: seq<Width>, vs: seq<nat>)
    requires |vs| == |ws|
    ensures |Fields(ws).write(vs)| == SizeOf(ws)
  {
    NumbersSize(ws, vs);
  }

  lemma {:induction false} NumbersSize(ws: seq<Width>, vs: seq<nat>)
    requires |vs| == |ws|
    ensures |WriteEach(Numbers(ws), vs)| == SizeOf(ws)
  {
    if ws != [] {
      NumbersSize(ws[1..], vs[1..]);
      assert Numbers(ws)[1..] == Numbers(ws[1..]);
    }
  }

  lemma {:induction false} SizeOfBoth(a: seq<Width>, b: seq<Width>)
    ensures SizeOf(a + b) == SizeOf(a) + SizeOf(b)
  {
    if a == [] {
      assert a + b == b;
    } else {
      assert (a + b)[1..] == a[1..] + b;
      SizeOfBoth(a[1..], b);
    }
  }

  lemma {:induction false} EachSize<T(!new)>(cs: seq<Codec<T>>, ts: seq<T>, size: nat)
    requires |ts| == |cs| && forall i | 0 <= i < |cs| :: |cs[i].write(ts[i])| == size
    ensures |WriteEach(cs, ts)| == |cs| * size
  {
    if cs != [] {
      EachSize(cs[1..], ts[1..], size);
      assert (|cs| - 1) * size + size == |cs| * size;
    }
  }

  lemma RowWidths()
    ensures SizeOf(ROW) == 136
  {
    var first: seq<Width> := [Any32, Any64, Any64, Any64, Any32, Any32];
    var second: seq<Width> := [Any64, Any64, Any32, Any64, Any32, Any64];
    SizeOfBoth(first, second);
    assert SizeOf(first) == 36 && SizeOf(second) == 40;
    assert ROW == first + second + HANDLE + HANDLE + HANDLE + [Any32, Any32, Any32];
    RowWidthsFrom(first + second);
  }

  lemma OtherWidths()
    ensures SizeOf(DEPENDENCY) == 32 && SizeOf(NUMBERS) == 16
  {
  }

  lemma RowWidthsFrom(first: seq<Width>)
    requires SizeOf(first) == 76
    ensures SizeOf(first + HANDLE + HANDLE + HANDLE + [Any32, Any32, Any32]) == 136
  {
    SizeOfBoth(first + HANDLE + HANDLE + HANDLE, [Any32, Any32, Any32]);
    SizeOfBoth(first + HANDLE + HANDLE, HANDLE);
    SizeOfBoth(first + HANDLE, HANDLE);
    SizeOfBoth(first, HANDLE);
    assert SizeOf(HANDLE) == 16 && SizeOf([Any32, Any32, Any32]) == 12;
  }

  /** Every row takes the number of bytes that the head gives as the stride. */
  lemma RowTakesStride(p: Padded<Row>)
    requires RowCodec().ok(p)
    ensures |RowCodec().write(p)| == STRIDE
  {
    AsThen(Fields(ROW), RowTail, ToRow, FromRow, p);
    RowShape(p);
    var r := FromRow(p);
    RowWidths();
    FieldsSize(ROW, r.0);
    TailTakes(r.0, r.1.0, r.1.1);
  }

  lemma RowShape(p: Padded<Row>)
    requires ToRow(FromRow(p)).Some?
    ensures var r := FromRow(p);
            |r.0| == 24 == |ROW| && |r.1.0| == 3 && |r.1.1| == 2 && forall i | 0 <= i < 3 :: |r.1.0[i].padding| == 1
  {
  }

  lemma TailTakes(v: seq<nat>, ds: seq<Padded<Option<Dependency>>>, n: seq<nat>)
    requires |ds| == 3 && |n| == 2 && forall i | 0 <= i < 3 :: |ds[i].padding| == 1
    ensures |RowTail(v).write((ds, n))| == 112
  {
    OtherWidths();
    FieldsSize(NUMBERS, n);
    forall i | 0 <= i < 3 ensures |DependencyCodec().write(ds[i])| == 32 { FieldsSize(DEPENDENCY, DependencyFields(ds[i])); }
    EachSize(seq(3, i => DependencyCodec()), ds, 32);
  }
}
