/** The engine's record of issued WORKs: live identities, authorizations and the events each WORK gives. */
module WorkLedger {
  import opened Wrappers

  datatype Row = Row(slot: nat, epoch: nat, round: nat)

  /** One batch for one bank of a worker. It is frozen when built. */
  datatype Work = Work(worker: nat, generation: nat, number: nat, draft: bool, bank: nat, bankEpoch: nat, rows: seq<Row>)

  /** A row's authorization. The run of a draft is its round, that of a target the next number. */
  datatype Index = Index(draft: bool, slot: nat, epoch: nat, round: nat, run: nat)

  function RowIndex(draft: bool, r: Row): Index {
    Index(draft, r.slot, r.epoch, r.round, if draft then r.round else r.round + 1)
  }

  function IndexOf(work: Work, i: nat): Index
    requires i < |work.rows|
  {
    RowIndex(work.draft, work.rows[i])
  }

  datatype Member = Member(row: Row, executed: bool)

  datatype Completion = Completion(generation: nat, number: nat, bank: nat, bankEpoch: nat, members: seq<Member>)

  datatype Record = Record(work: Work, applied: set<nat>, completion: Option<Completion>, computeDone: bool, physicalDone: bool)

  datatype Key = Key(worker: nat, number: nat)

  datatype Stage = Compute | Physical | Credit

  datatype Event = Event(stage: Stage, key: Key)

  function KeyOf(work: Work): Key { Key(work.worker, work.number) }

  // ---- Events ----

  /** The stages that a log reports of one WORK, in order. */
  function Trace(log: seq<Event>, k: Key): seq<Stage> {
    if log == [] then []
    else
      var e := log[|log| - 1];
      Trace(log[..|log| - 1], k) + if e.key == k then [e.stage] else []
  }

  lemma Regroup<T>(a: seq<T>, b: seq<T>, c: seq<T>)
    ensures a + (b + c) == a + b + c
  {
  }

  lemma TraceMore(log: seq<Event>, e: Event, k: Key)
    ensures Trace(log + [e], k) == Trace(log, k) + if e.key == k then [e.stage] else []
  {
    assert (log + [e])[..|log|] == log;
  }

  /** What has been reported of a WORK: nothing before it is sent, then what is done, and all three stages once it is gone. */
  function Told(sequences: map<nat, nat>, records: map<Key, Record>, k: Key): seq<Stage> {
    if k in records then
      (if records[k].computeDone then [Compute] else []) + if records[k].physicalDone then [Physical] else []
    else if k.worker in sequences && 1 <= k.number < sequences[k.worker] then [Compute, Physical, Credit]
    else []
  }

  ghost predicate AllTold(sequences: map<nat, nat>, records: map<Key, Record>, log: seq<Event>) {
    forall k :: Trace(log, k) == Told(sequences, records, k)
  }

  // ---- Records and authorizations ----

  predicate RecordOk(sequences: map<nat, nat>, banks: map<(nat, nat), nat>, k: Key, r: Record) {
    && r.work.worker == k.worker && r.work.number == k.number
    && k.worker in sequences && 1 <= k.number < sequences[k.worker]
    && (k.worker, r.work.bank) in banks && r.work.bankEpoch <= banks[(k.worker, r.work.bank)]
    && r.physicalDone == r.completion.Some? && (r.physicalDone ==> r.computeDone)
  }

  predicate Distinct(work: Work) {
    forall i, j | 0 <= i < j < |work.rows| :: IndexOf(work, i) != IndexOf(work, j)
  }

  /** A live WORK's rows are authorized, each once, and nothing else is. */
  ghost predicate Indexed(records: map<Key, Record>, index: map<Index, Key>) {
    && (forall k | k in records :: Distinct(records[k].work) && Authorized(index, records[k].work, k))
    && forall x | x in index :: index[x] in records && IsRow(records[index[x]].work, x)
  }

  predicate Authorized(index: map<Index, Key>, work: Work, k: Key) {
    forall i | 0 <= i < |work.rows| :: IndexOf(work, i) in index && index[IndexOf(work, i)] == k
  }

  predicate IsRow(work: Work, x: Index) {
    exists i | 0 <= i < |work.rows| :: IndexOf(work, i) == x
  }

  ghost predicate RecordsOk(sequences: map<nat, nat>, banks: map<(nat, nat), nat>, records: map<Key, Record>) {
    forall k | k in records :: RecordOk(sequences, banks, k, records[k])
  }

  ghost predicate ByWorker(records: map<Key, Record>, live: map<nat, set<nat>>) {
    && (forall w, n | w in live :: n in live[w] <==> Key(w, n) in records)
    && forall k | k in records :: k.worker in live
  }

  /** The rows of a WORK that is not live yet clash with no authorization. */
  predicate Unclaimed(index: map<Index, Key>, work: Work) {
    Distinct(work) && forall i | 0 <= i < |work.rows| :: IndexOf(work, i) !in index
  }

  /** The rows before row n have been added to the index. */
  ghost predicate Claimed(before: map<Index, Key>, now: map<Index, Key>, work: Work, n: nat)
    requires n <= |work.rows|
  {
    && (forall x :: x in now <==> x in before || IsRowBefore(work, n, x))
    && forall x | x in now :: now[x] == if x in before then before[x] else KeyOf(work)
  }

  predicate IsRowBefore(work: Work, n: nat, x: Index)
    requires n <= |work.rows|
  {
    exists a | 0 <= a < n :: IndexOf(work, a) == x
  }

  /** The rows before row n are authorized, and row n is so already, in another WORK or before in this one. */
  ghost predicate StoppedAt(before: map<Index, Key>, now: map<Index, Key>, work: Work, n: nat) {
    n < |work.rows| && IndexOf(work, n) in now && Claimed(before, now, work, n)
  }

  lemma ClaimOne(before: map<Index, Key>, now: map<Index, Key>, work: Work, n: nat)
    requires n < |work.rows| && Claimed(before, now, work, n) && IndexOf(work, n) !in now
    ensures Claimed(before, now[IndexOf(work, n) := KeyOf(work)], work, n + 1)
  {
    forall x ensures IsRowBefore(work, n + 1, x) <==> IsRowBefore(work, n, x) || x == IndexOf(work, n) {
      if IsRowBefore(work, n + 1, x) {
        var a :| 0 <= a < n + 1 && IndexOf(work, a) == x;
      }
    }
  }

  lemma SentIndexed(records: map<Key, Record>, index: map<Index, Key>, now: map<Index, Key>, work: Work)
    requires Indexed(records, index) && Unclaimed(index, work) && KeyOf(work) !in records
    requires Authorized(now, work, KeyOf(work)) && forall x :: x in now <==> x in index || IsRow(work, x)
    requires forall x | x in index :: now[x] == index[x]
    ensures Indexed(records[KeyOf(work) := Record(work, {}, None, false, false)], now)
  {
    var k := KeyOf(work);
    var after := records[k := Record(work, {}, None, false, false)];
    forall x | x in now ensures now[x] in after && IsRow(after[now[x]].work, x) {
      if x !in index {
        var i :| 0 <= i < |work.rows| && IndexOf(work, i) == x;
      }
    }
  }

  lemma GoneIndexed(records: map<Key, Record>, index: map<Index, Key>, now: map<Index, Key>, k: Key)
    requires Indexed(records, index) && k in records
    requires forall x :: x in now <==> x in index && !IsRow(records[k].work, x)
    requires forall x | x in now :: now[x] == index[x]
    ensures Indexed(records - {k}, now)
  {
    forall x | x in now ensures now[x] in records - {k} {
      assert IsRow(records[index[x]].work, x);
    }
    forall j | j in records - {k} ensures Authorized(now, records[j].work, j) {
      forall i | 0 <= i < |records[j].work.rows|
        ensures IndexOf(records[j].work, i) in now && now[IndexOf(records[j].work, i)] == j
      {
        var x := IndexOf(records[j].work, i);
        assert Authorized(index, records[k].work, k) && Authorized(index, records[j].work, j);
      }
    }
  }

  /** Facts that rows of the tables show: a bank's epoch and state, and the batch a worker runs. */
  datatype BankFact = BankFact(epoch: int, state: nat)

  datatype RuntimeFact = RuntimeFact(number: nat, started: bool, status: nat)

  datatype Facts = Facts(banks: map<(nat, nat), BankFact>, runtimes: map<nat, RuntimeFact>)

  /** The facts show that a WORK's compute is over: it started and stopped, or its bank is past it. */
  predicate ShowsComputed(facts: Facts, w: Work) {
    || (w.worker in facts.runtimes && var r := facts.runtimes[w.worker]; r.number == w.number && r.started && r.status == 0)
    || ((w.worker, w.bank) in facts.banks
        && var b := facts.banks[(w.worker, w.bank)]; b.epoch > w.bankEpoch || (b.epoch == w.bankEpoch && b.state <= 1))
  }

  /** A completion says what the WORK said. */
  predicate Matches(c: Completion, w: Work) {
    && c.generation == w.generation && c.number == w.number && c.bank == w.bank && c.bankEpoch == w.bankEpoch
    && |c.members| == |w.rows| && forall i | 0 <= i < |c.members| :: c.members[i].row == w.rows[i]
  }

  /** A WORK may go when its completion is there and the result of every executed member is applied. */
  predicate MayRetire(r: Record) {
    r.completion.Some? && forall i | 0 <= i < |r.completion.value.members| ::
      r.completion.value.members[i].executed ==> r.completion.value.members[i].row.slot in r.applied
  }

  function Seen(facts: Facts, r: Record): Record {
    r.(computeDone := r.computeDone || ShowsComputed(facts, r.work))
  }

  function Changes(k: Key, before: Record, now: Record): seq<Event> {
    (if !before.computeDone && now.computeDone then [Event(Compute, k)] else [])
    + if !before.physicalDone && now.physicalDone then [Event(Physical, k)] else []
  }

  lemma TraceChanges(log: seq<Event>, k: Key, before: Record, now: Record, j: Key)
    ensures Trace(log + Changes(k, before, now), j) == Trace(log, j)
              + (if j == k && !before.computeDone && now.computeDone then [Compute] else [])
              + if j == k && !before.physicalDone && now.physicalDone then [Physical] else []
  {
    var first := if !before.computeDone && now.computeDone then log + [Event(Compute, k)] else log;
    TraceMore(log, Event(Compute, k), j);
    TraceMore(first, Event(Physical, k), j);
    assert log + Changes(k, before, now) == if !before.physicalDone && now.physicalDone then first + [Event(Physical, k)] else first;
  }

  /** Reporting what has changed keeps the log telling all of every WORK. */
  lemma StillTold(sequences: map<nat, nat>, records: map<Key, Record>, log: seq<Event>, k: Key, now: Record)
    requires AllTold(sequences, records, log) && k in records
    requires var r := records[k]; (r.computeDone ==> now.computeDone) && (r.physicalDone ==> r.computeDone && now.physicalDone)
    requires now.physicalDone ==> now.computeDone
    ensures AllTold(sequences, records[k := now], log + Changes(k, records[k], now))
  {
    forall j ensures Trace(log + Changes(k, records[k], now), j) == Told(sequences, records[k := now], j) {
      assert Trace(log, j) == Told(sequences, records, j);
      TraceChanges(log, k, records[k], now, j);
    }
  }

  /** A WORK whose stages are both over goes with its credit. */
  lemma GoneTold(sequences: map<nat, nat>, records: map<Key, Record>, log: seq<Event>, k: Key)
    requires AllTold(sequences, records, log) && k in records && records[k].computeDone && records[k].physicalDone
    requires k.worker in sequences && 1 <= k.number < sequences[k.worker]
    ensures AllTold(sequences, records - {k}, log + [Event(Credit, k)])
  {
    forall j ensures Trace(log + [Event(Credit, k)], j) == Told(sequences, records - {k}, j) {
      assert Trace(log, j) == Told(sequences, records, j);
      TraceMore(log, Event(Credit, k), j);
    }
  }

  /** A new number has not been told of. */
  lemma SentTold(sequences: map<nat, nat>, records: map<Key, Record>, log: seq<Event>, k: Key, r: Record)
    requires AllTold(sequences, records, log) && k !in records && k.worker in sequences && k.number == sequences[k.worker] >= 1
    requires !r.computeDone && !r.physicalDone
    ensures AllTold(sequences[k.worker := k.number + 1], records[k := r], log)
  {
    forall j ensures Trace(log, j) == Told(sequences[k.worker := k.number + 1], records[k := r], j) {
      assert Trace(log, j) == Told(sequences, records, j);
    }
  }

  lemma SameRows(records: map<Key, Record>, index: map<Index, Key>, live: map<nat, set<nat>>, k: Key, now: Record)
    requires Indexed(records, index) && ByWorker(records, live) && k in records && now.work == records[k].work
    ensures Indexed(records[k := now], index) && ByWorker(records[k := now], live)
  {
  }

  /** Another authorization of the same request, no later than this one. */
  predicate Earlier(x: Index, y: Index) {
    y.draft == x.draft && y.slot == x.slot && y.epoch == x.epoch && y.round <= x.round
  }

  predicate Superseded(index: map<Index, Key>, x: Index, k: Key) {
    exists y | y in index :: Earlier(x, y) && index[y] == k
  }

  function Applied(records: map<Key, Record>, k: Key, slot: nat): map<Key, Record>
    requires k in records
  {
    records[k := records[k].(applied := records[k].applied + {slot})]
  }

  predicate SameButApplied(a: map<Key, Record>, b: map<Key, Record>) {
    a.Keys == b.Keys && forall k | k in a :: b[k] == a[k].(applied := b[k].applied)
  }

  /** Apply a slot to the WORK of each of these authorizations. */
  method AppliedAll(records: map<Key, Record>, index: map<Index, Key>, ys: set<Index>, slot: nat) returns (now: map<Key, Record>)
    requires forall y | y in ys :: y in index && index[y] in records
    ensures SameButApplied(records, now)
    ensures forall k | k in records :: now[k].applied == records[k].applied + if exists y | y in ys :: index[y] == k then {slot} else {}
  {
    now := records;
    var todo := ys;
    while todo != {}
      invariant todo <= ys && SameButApplied(records, now)
      invariant forall k | k in records :: now[k].applied == records[k].applied + if exists y | y in ys - todo :: index[y] == k then {slot} else {}
    {
      var y :| y in todo;
      assert ys - (todo - {y}) == (ys - todo) + {y};
      now := Applied(now, index[y], slot);
      todo := todo - {y};
    }
  }

  /** The slot of a result is applied in its own WORK and, after skipped rounds, in those it supersedes. */
  ghost predicate ResultIn(before: map<Key, Record>, now: map<Key, Record>, index: map<Index, Key>, x: Index, previousRound: int)
    requires x in index && before.Keys == now.Keys
  {
    forall k | k in before ::
      now[k].applied == before[k].applied + if k == index[x] || (x.round > previousRound + 1 && Superseded(index, x, k)) then {x.slot} else {}
  }

  method ApplyResult(records: map<Key, Record>, index: map<Index, Key>, x: Index, previousRound: int) returns (now: map<Key, Record>)
    requires x in index && forall y | y in index :: index[y] in records
    ensures SameButApplied(records, now) && ResultIn(records, now, index, x, previousRound)
  {
    now := Applied(records, index[x], x.slot);
    if x.round > previousRound + 1 {
      ghost var first := now;
      var earlier := set y | y in index && Earlier(x, y);
      now := AppliedAll(now, index, earlier, x.slot);
      forall k | k in records ensures (exists y | y in earlier :: index[y] == k) <==> Superseded(index, x, k) {
        if Superseded(index, x, k) {
          var y :| y in index && Earlier(x, y) && index[y] == k;
          assert y in earlier;
        }
      }
    }
  }

  lemma AppliedKeeps(sequences: map<nat, nat>, banks: map<(nat, nat), nat>, records: map<Key, Record>, index: map<Index, Key>,
                     live: map<nat, set<nat>>, log: seq<Event>, now: map<Key, Record>)
    requires RecordsOk(sequences, banks, records) && Indexed(records, index) && ByWorker(records, live) && AllTold(sequences, records, log)
    requires SameButApplied(records, now)
    ensures RecordsOk(sequences, banks, now) && Indexed(now, index) && ByWorker(now, live) && AllTold(sequences, now, log)
  {
    forall k | k in now ensures RecordOk(sequences, banks, k, now[k]) { assert RecordOk(sequences, banks, k, records[k]); }
    forall k ensures Trace(log, k) == Told(sequences, now, k) { assert Trace(log, k) == Told(sequences, records, k); }
  }

  /** In the middle of a refresh: the WORKs still to do are as before, and of the others those that may go are gone. */
  ghost predicate Midway(facts: Facts, before: map<Key, Record>, now: map<Key, Record>, todo: set<Key>) {
    && todo <= before.Keys
    && (forall k :: k in now <==> k in before && (k in todo || !MayRetire(before[k])))
    && forall k | k in now :: now[k] == if k in todo then before[k] else Seen(facts, before[k])
  }

  lemma MidwayStep(facts: Facts, before: map<Key, Record>, now: map<Key, Record>, todo: set<Key>, k: Key)
    requires Midway(facts, before, now, todo) && k in todo
    ensures k in now && now[k] == before[k]
    ensures Midway(facts, before, if MayRetire(now[k]) then now - {k} else now[k := Seen(facts, now[k])], todo - {k})
  {
  }

  lemma SentKeeps(sequences: map<nat, nat>, banks: map<(nat, nat), nat>, records: map<Key, Record>, live: map<nat, set<nat>>, log: seq<Event>, work: Work)
    requires AllTold(sequences, records, log) && RecordsOk(sequences, banks, records) && ByWorker(records, live) && work.worker in sequences && work.worker in live
    requires work.number == sequences[work.worker] >= 1 && (work.worker, work.bank) in banks && work.bankEpoch >= banks[(work.worker, work.bank)]
    ensures KeyOf(work) !in records && work.number !in live[work.worker]
    ensures var now := records[KeyOf(work) := Record(work, {}, None, false, false)];
            && RecordsOk(sequences[work.worker := work.number + 1], banks[(work.worker, work.bank) := work.bankEpoch], now)
            && ByWorker(now, live[work.worker := live[work.worker] + {work.number}])
            && AllTold(sequences[work.worker := work.number + 1], now, log)
  {
    var k := KeyOf(work);
    assert k in records ==> RecordOk(sequences, banks, k, records[k]);
    SentTold(sequences, records, log, k, Record(work, {}, None, false, false));
    var now := records[k := Record(work, {}, None, false, false)];
    forall j | j in now ensures RecordOk(sequences[work.worker := work.number + 1], banks[(work.worker, work.bank) := work.bankEpoch], j, now[j]) {
      if j != k { assert RecordOk(sequences, banks, j, records[j]); }
    }
  }

  function Refreshed(facts: Facts, records: map<Key, Record>): map<Key, Record> {
    map k | k in records && !MayRetire(records[k]) :: Seen(facts, records[k])
  }

  ghost predicate Sound(sequences: map<nat, nat>, banks: map<(nat, nat), nat>, records: map<Key, Record>, index: map<Index, Key>,
                        live: map<nat, set<nat>>, log: seq<Event>) {
    && RecordsOk(sequences, banks, records) && Indexed(records, index) && ByWorker(records, live) && AllTold(sequences, records, log)
  }

  /** A record may only learn that more is done, and that all is done with its completion. */
  predicate MoreDone(before: Record, now: Record) {
    && now.work == before.work && (before.computeDone ==> now.computeDone) && (before.physicalDone ==> now.physicalDone)
    && now.physicalDone == now.completion.Some? && (now.physicalDone ==> now.computeDone)
  }

  lemma UpdateKeeps(sequences: map<nat, nat>, banks: map<(nat, nat), nat>, records: map<Key, Record>, index: map<Index, Key>,
                    live: map<nat, set<nat>>, log: seq<Event>, k: Key, now: Record)
    requires Sound(sequences, banks, records, index, live, log) && k in records && MoreDone(records[k], now)
    ensures Sound(sequences, banks, records[k := now], index, live, log + Changes(k, records[k], now))
  {
    assert RecordOk(sequences, banks, k, records[k]);
    StillTold(sequences, records, log, k, now);
    SameRows(records, index, live, k, now);
    var after := records[k := now];
    forall j | j in after ensures RecordOk(sequences, banks, j, after[j]) {
      if j != k { assert RecordOk(sequences, banks, j, records[j]); }
    }
  }

  lemma GoneKeeps(sequences: map<nat, nat>, banks: map<(nat, nat), nat>, records: map<Key, Record>, index: map<Index, Key>,
                  live: map<nat, set<nat>>, log: seq<Event>, k: Key, index': map<Index, Key>)
    requires Sound(sequences, banks, records, index, live, log) && k in records && records[k].physicalDone && k.worker in live
    requires (forall x :: x in index' <==> x in index && !IsRow(records[k].work, x)) && forall x | x in index' :: index'[x] == index[x]
    ensures Sound(sequences, banks, records - {k}, index', live[k.worker := live[k.worker] - {k.number}], log + [Event(Credit, k)])
  {
    assert RecordOk(sequences, banks, k, records[k]);
    GoneTold(sequences, records, log, k);
    GoneIndexed(records, index, index', k);
    var rest := records - {k};
    forall j | j in rest ensures RecordOk(sequences, banks, j, rest[j]) { assert RecordOk(sequences, banks, j, records[j]); }
  }

  class WorkLedger {
    const generations: map<nat, nat>
    var sequences: map<nat, nat>
    var records: map<Key, Record>
    var index: map<Index, Key>
    var live: map<nat, set<nat>>
    var bankEpochs: map<(nat, nat), nat>
    var events: seq<Event>
    ghost var taken: seq<Event>

    ghost predicate Valid()
      reads this
    {
      && sequences.Keys == live.Keys == generations.Keys
      && (forall w | w in sequences :: sequences[w] >= 1 && (w, 0) in bankEpochs && (w, 1) in bankEpochs)
      && Sound(sequences, bankEpochs, records, index, live, taken + events)
    }

    constructor (generations: map<nat, nat>)
      ensures Valid() && this.generations == generations && records == map[] && events == []
      ensures forall w | w in generations :: sequences[w] == 1 && live[w] == {} && bankEpochs[(w, 0)] == 0 == bankEpochs[(w, 1)]
    {
      this.generations := generations;
      sequences := map w | w in generations :: 1;
      live := map w | w in generations :: {};
      bankEpochs := map w, b: nat | w in generations && b < 2 :: (w, b) := 0;
      records, index, events, taken := map[], map[], [], [];
    }

    /** The owner drains the queue of events. */
    method TakeEvents() returns (es: seq<Event>)
      requires Valid()
      modifies `events, `taken
      ensures Valid() && es == old(events) && events == [] && taken == old(taken) + es
    {
      es := events;
      taken := taken + es;
      events := [];
      assert taken + events == old(taken + events);
    }

    /**
     * Register a WORK that was sent under the worker's next number. It is refused exactly when one of its rows is
     * already authorized, or authorized twice in it; then the rows before that one stay authorized, for no record.
     */
    method Sent(work: Work) returns (ok: bool)
      requires Valid() && work.worker in sequences && work.number == sequences[work.worker]
      requires work.bank < 2 && work.bankEpoch > bankEpochs[(work.worker, work.bank)]
      modifies `records, `index, `live, `sequences, `bankEpochs
      ensures ok <==> Unclaimed(old(index), work)
      ensures !ok ==> (exists n :: StoppedAt(old(index), index, work, n)) && records == old(records) && live == old(live)
                      && sequences == old(sequences) && bankEpochs == old(bankEpochs)
      ensures ok ==> Valid() && records == old(records)[KeyOf(work) := Record(work, {}, None, false, false)]
      ensures ok ==> sequences == old(sequences)[work.worker := work.number + 1]
      ensures ok ==> bankEpochs == old(bankEpochs)[(work.worker, work.bank) := work.bankEpoch]
      ensures ok ==> live == old(live)[work.worker := old(live)[work.worker] + {work.number}] && work.number !in old(live)[work.worker]
      ensures ok ==> forall x :: x in index <==> x in old(index) || IsRow(work, x)
    {
      SentKeeps(sequences, bankEpochs, records, live, taken + events, work);
      ok := Claim(work);
      if !ok { return; }
      SentIndexed(records, old(index), index, work);
      Enter(work);
    }

    /** The new record and all that says so. */
    method Enter(work: Work)
      requires sequences.Keys == live.Keys == generations.Keys && work.worker in sequences && work.bank < 2
      requires forall w | w in sequences :: sequences[w] >= 1 && (w, 0) in bankEpochs && (w, 1) in bankEpochs
      requires Sound(sequences[work.worker := work.number + 1], bankEpochs[(work.worker, work.bank) := work.bankEpoch],
                     records[KeyOf(work) := Record(work, {}, None, false, false)], index, live[work.worker := live[work.worker] + {work.number}], taken + events)
      modifies `records, `live, `sequences, `bankEpochs
      ensures Valid() && records == old(records)[KeyOf(work) := Record(work, {}, None, false, false)]
      ensures sequences == old(sequences)[work.worker := work.number + 1]
      ensures bankEpochs == old(bankEpochs)[(work.worker, work.bank) := work.bankEpoch]
      ensures live == old(live)[work.worker := old(live)[work.worker] + {work.number}]
    {
      records := records[KeyOf(work) := Record(work, {}, None, false, false)];
      live := live[work.worker := live[work.worker] + {work.number}];
      sequences := sequences[work.worker := work.number + 1];
      bankEpochs := bankEpochs[(work.worker, work.bank) := work.bankEpoch];
    }

    method Claim(work: Work) returns (ok: bool)
      modifies `index
      ensures ok <==> Unclaimed(old(index), work)
      ensures !ok ==> exists n :: StoppedAt(old(index), index, work, n)
      ensures ok ==> Authorized(index, work, KeyOf(work)) && forall x :: x in index <==> x in old(index) || IsRow(work, x)
      ensures ok ==> forall x | x in old(index) :: index[x] == old(index)[x]
    {
      for i := 0 to |work.rows|
        invariant forall a | 0 <= a < i :: IndexOf(work, a) !in old(index)
        invariant forall a, b | 0 <= a < b < i :: IndexOf(work, a) != IndexOf(work, b)
        invariant Claimed(old(index), index, work, i)
      {
        var x := IndexOf(work, i);
        if x in index {
          assert StoppedAt(old(index), index, work, i);
          return false;
        }
        ClaimOne(old(index), index, work, i);
        forall a | 0 <= a < i ensures IndexOf(work, a) != x { assert IsRowBefore(work, i, IndexOf(work, a)); }
        index := index[x := KeyOf(work)];
      }
      ok := true;
      forall a | 0 <= a < |work.rows| ensures IndexOf(work, a) in index && IndexOf(work, a) !in old(index) {
        assert IsRowBefore(work, |work.rows|, IndexOf(work, a));
      }
    }

    /** _schedule_changes: report the stages that have just been reached. */
    method Report(k: Key, before: Record, now: Record)
      modifies `events
      ensures events == old(events) + Changes(k, before, now)
    {
      if !before.computeDone && now.computeDone { events := events + [Event(Compute, k)]; }
      if !before.physicalDone && now.physicalDone { events := events + [Event(Physical, k)]; }
    }

    /** A completion is read for a live WORK. A wrong one is an error; the right one is the proof that both stages are over. */
    method Observe(k: Key, completion: Completion) returns (ok: bool)
      requires Valid() && k in records && records[k].completion.None?
      modifies `records, `events
      ensures Valid() && (ok <==> Matches(completion, old(records)[k].work))
      ensures !ok ==> records == old(records) && events == old(events)
      ensures ok ==> records == old(records)[k := old(records)[k].(completion := Some(completion), computeDone := true, physicalDone := true)]
    {
      ok := Matches(completion, records[k].work);
      if !ok { return; }
      Update(k, records[k].(completion := Some(completion), computeDone := true, physicalDone := true));
    }

    /** A record learns that more is done, and what is new is reported. */
    method Update(k: Key, now: Record)
      requires Valid() && k in records && MoreDone(records[k], now)
      modifies `records, `events
      ensures Valid() && records == old(records)[k := now] && events == old(events) + Changes(k, old(records)[k], now)
    {
      UpdateKeeps(sequences, bankEpochs, records, index, live, taken + events, k, now);
      Report(k, records[k], now);
      Regroup(taken, old(events), Changes(k, records[k], now));
      records := records[k := now];
    }

    /**
     * The owner's state holds a member's result. When rounds were skipped, the member also counts as applied in every
     * live WORK of the same request up to this round, so no superseded result keeps a WORK alive.
     */
    method ResultApplied(x: Index, previousRound: int)
      requires Valid() && x in index
      modifies `records
      ensures Valid() && SameButApplied(old(records), records) && ResultIn(old(records), records, index, x, previousRound)
    {
      var now := ApplyResult(records, index, x, previousRound);
      AppliedKeeps(sequences, bankEpochs, records, index, live, taken + events, now);
      records := now;
    }

    /** A record goes when it may, with what it has just learned and its credit reported. */
    method Retire(k: Key, now: Record)
      requires Valid() && k in records && MoreDone(records[k], now) && MayRetire(now)
      modifies `records, `index, `live, `events
      ensures Valid() && records == old(records) - {k} && events == old(events) + Changes(k, old(records)[k], now) + [Event(Credit, k)]
      ensures live == old(live)[k.worker := old(live)[k.worker] - {k.number}]
      ensures forall x :: x in index <==> x in old(index) && !IsRow(now.work, x)
    {
      var before := records[k];
      assert RecordOk(sequences, bankEpochs, k, before) && Distinct(before.work) && Authorized(index, before.work, k);
      UpdateKeeps(sequences, bankEpochs, records, index, live, taken + events, k, now);
      Unclaim(now.work, k);
      GoneKeeps(sequences, bankEpochs, records[k := now], old(index), live, taken + events + Changes(k, before, now), k, index);
      Drop(k, before, now);
    }

    method Drop(k: Key, before: Record, now: Record)
      requires sequences.Keys == live.Keys == generations.Keys && k.worker in live
      requires forall w | w in sequences :: sequences[w] >= 1 && (w, 0) in bankEpochs && (w, 1) in bankEpochs
      requires Sound(sequences, bankEpochs, records[k := now] - {k}, index, live[k.worker := live[k.worker] - {k.number}],
                     taken + events + Changes(k, before, now) + [Event(Credit, k)])
      modifies `records, `live, `events
      ensures Valid() && records == old(records) - {k} && events == old(events) + Changes(k, before, now) + [Event(Credit, k)]
      ensures live == old(live)[k.worker := old(live)[k.worker] - {k.number}]
    {
      Report(k, before, now);
      events := events + [Event(Credit, k)];
      Regroup(taken, old(events), Changes(k, before, now));
      Regroup(taken, old(events) + Changes(k, before, now), [Event(Credit, k)]);
      assert records[k := now] - {k} == records - {k};
      records := records - {k};
      live := live[k.worker := live[k.worker] - {k.number}];
    }

    /** Take the rows of a WORK out of the index. Each one is there to be taken. */
    method Unclaim(work: Work, k: Key)
      requires Distinct(work) && Authorized(index, work, k)
      modifies `index
      ensures forall x :: x in index <==> x in old(index) && !IsRow(work, x)
      ensures forall x | x in index :: index[x] == old(index)[x]
    {
      for i := 0 to |work.rows|
        invariant forall x :: x in index <==> x in old(index) && !exists a | 0 <= a < i :: IndexOf(work, a) == x
        invariant forall x | x in index :: index[x] == old(index)[x]
      {
        assert IndexOf(work, i) in index;
        index := index - {IndexOf(work, i)};
      }
    }

    method RefreshOne(facts: Facts, k: Key)
      requires Valid() && k in records
      modifies `records, `index, `live, `events
      ensures Valid()
      ensures records == if MayRetire(old(records)[k]) then old(records) - {k} else old(records)[k := Seen(facts, old(records)[k])]
      ensures forall w | w in live :: w in old(live) && live[w] <= old(live)[w]
    {
      var now := Seen(facts, records[k]);
      assert RecordOk(sequences, bankEpochs, k, records[k]);
      if MayRetire(now) { Retire(k, now); } else { Update(k, now); }
    }

    /**
     * Refresh every live WORK from the facts: exactly those with their completion and all results applied go, and the
     * others learn whether their compute is over.
     */
    method Refresh(facts: Facts)
      requires Valid()
      modifies `records, `index, `live, `events
      ensures Valid() && records == Refreshed(facts, old(records))
      ensures forall w | w in live :: w in old(live) && live[w] <= old(live)[w]
    {
      var todo := records.Keys;
      while todo != {}
        invariant Valid() && Midway(facts, old(records), records, todo)
        invariant forall w | w in live :: w in old(live) && live[w] <= old(live)[w]
      {
        var k :| k in todo;
        MidwayStep(facts, old(records), records, todo, k);
        RefreshOne(facts, k);
        todo := todo - {k};
      }
      assert records == Refreshed(facts, old(records));
    }
  }
}
