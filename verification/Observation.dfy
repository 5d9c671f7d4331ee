/**
 * The engine's observation plane. Row writers commit a table row and then push a droppable hint; the reader
 * polls rings, a pending queue and a bounded rescan. Writers run between any two shared accesses of a poll.
 *
 * A sequence word is represented by the unbounded publication position it stands for. The code only ever
 * compares residues modulo the sentinel, as `SameWord` and `NewerWord` do.
 */
module Observation {
  import opened SeqNumbers

  const M: nat := 0xFFFF_FFFF_FFFF_FFFF
  const HALF: nat := 0x7FFF_FFFF_FFFF_FFFF
  /** The sentinel word. */
  const NONE: int := -1
  const RETRIES: nat := 16

  type Payload = seq<int>

  /** Where a row's single writer stands in publish-then-notify. */
  datatype Stage = Idle | Writing(next: nat, payload: Payload) | Announcing

  /** A shared row; `published` is the history of what each position committed. */
  datatype Row = Row(word: int, committed: int, stage: Stage, published: map<int, Payload>) {
    ghost predicate Valid() {
      && NONE <= committed
      && (committed != NONE ==> committed in published)
      && word == (if stage.Writing? then NONE else committed)
      && (stage.Writing? ==> committed < stage.next)
      && (stage.Announcing? ==> committed != NONE)
    }

    /** The newest position this row's writer has chosen. */
    ghost function Top(): int {
      if stage.Writing? then stage.next else committed
    }

    /** q is an earlier committed position still within half the sequence range of the writer. */
    ghost predicate Near(q: int) {
      0 <= q <= committed && Top() - q <= HALF
    }
  }

  datatype Entry = Hint(row: nat, pos: int) | Unregistered

  datatype RingMem = RingMem(capacity: nat, unread: seq<Entry>, overflow: bool)

  /** The reader's private state for one row. */
  datatype View = View(seen: int, hint: int, queued: bool, turn: nat, output: nat)

  datatype Output = Output(row: nat, pos: int, payload: Payload)

  /** The first load of a table read that has not made its second. */
  datatype Load = Nowhere | Reading(row: nat, pos: int)

  /** The rescan of a table of so many rows: whether it runs, and the row it looks at next. */
  datatype Rescan = Rescan(running: bool, at: nat, rows: nat) {
    /** Rows that a running rescan has still to visit. */
    function Left(): nat
      requires running ==> at < rows
    {
      if running then rows - at else 0
    }
  }

  function Min(a: nat, b: nat): nat { if a < b then a else b }

  predicate SameWord(a: int, b: nat) {
    a != NONE && a % M == b % M
  }

  predicate NewerWord(a: nat, b: nat) {
    NativeNewer(M, a % M, b % M)
  }

  /** Inside half the range the residue comparisons decide the order of publication. */
  lemma WordsOrdered(row: Row, a: nat, b: nat)
    requires row.Valid() && row.Near(a) && row.Near(b)
    ensures NewerWord(a, b) <==> a > b
    ensures SameWord(a, b) <==> a == b
  {
    WindowOrder(M, a, b);
    NativeNewerIsNewer(M, a % M, b % M);
  }

  ghost predicate ViewValid(row: Row, v: View, turn: nat) {
    && (v.seen != NONE ==> row.Near(v.seen))
    && (v.queued ==> row.Near(v.hint))
    && v.turn <= turn
  }

  ghost predicate EntryValid(rows: seq<Row>, home: seq<nat>, k: nat, e: Entry)
    requires |rows| == |home|
  {
    e.Hint? ==> e.row < |rows| && home[e.row] == k && rows[e.row].Near(e.pos)
  }

  /** Output i is the latest capture of its row, with the payload published under the sequence it reports. */
  ghost predicate OutputValid(rows: seq<Row>, views: seq<View>, turn: nat, i: nat, o: Output)
    requires |views| == |rows|
  {
    && o.row < |views| && views[o.row].turn == turn && views[o.row].output == i
    && o.pos == views[o.row].seen && o.pos in rows[o.row].published && o.pos <= rows[o.row].committed
    && o.payload == rows[o.row].published[o.pos]
  }

  class Reader {
    // Shared memory.
    var rows: seq<Row>
    var rings: seq<RingMem>
    /** The ring each row's writer notifies. */
    const home: seq<nat>
    // Private to the reader.
    const priority: seq<nat>
    var views: seq<View>
    var pending: seq<nat>
    var cursor: nat
    var scan: nat
    var scanning: bool
    var rescan: bool
    var turn: nat
    var outputs: seq<Output>
    /** How many more atomic steps the writers take: any number, shared out over the run in any way. */
    var writerSteps: nat
    /** The row the poll is dealing with right now, if any. */
    var held: int
    /** The position under which it will be queued again if it cannot be captured. */
    var heldPos: int

    /** Unpublished rows, empty rings, nothing seen; the writers will take `steps` atomic steps in all. */
    constructor (home: seq<nat>, priority: seq<nat>, capacities: seq<nat>, steps: nat)
      requires forall r | 0 <= r < |home| :: home[r] < |capacities|
      requires forall i | 0 <= i < |priority| :: priority[i] < |home|
      ensures Valid() && held == NONE && AllSafe(false) && AllIdle() && writerSteps == steps
      ensures this.home == home && this.priority == priority && |rows| == |home| && |rings| == |capacities|
    {
      this.home, this.priority := home, priority;
      rows := seq(|home|, _ => Row(NONE, NONE, Idle, map[]));
      rings := seq(|capacities|, k requires 0 <= k < |capacities| => RingMem(capacities[k], [], false));
      views := seq(|home|, _ => View(NONE, NONE, false, 0, 0));
      pending, outputs, cursor, scan, turn := [], [], 0, 0, 0;
      scanning, rescan, held, heldPos, writerSteps := false, false, NONE, NONE, steps;
    }

    ghost predicate RowsValid()
      reads this
    {
      && |rows| == |home| == |views|
      && (forall r | 0 <= r < |rows| :: rows[r].Valid())
      && (forall r | 0 <= r < |home| :: home[r] < |rings|)
      && (forall r | 0 <= r < |views| :: ViewValid(rows[r], views[r], turn))
    }

    ghost predicate RingsValid()
      requires |rows| == |home|
      reads this
    {
      forall k | 0 <= k < |rings| :: forall e <- rings[k].unread :: EntryValid(rows, home, k, e)
    }

    ghost predicate QueueValid()
      reads this
    {
      && (forall i | 0 <= i < |pending| :: pending[i] < |views| && views[pending[i]].queued)
      && (forall i, j | 0 <= i < j < |pending| :: pending[i] != pending[j])
      && (forall r | 0 <= r < |views| && views[r].queued :: r in pending)
    }

    ghost predicate Valid()
      reads this
    {
      && RowsValid() && RingsValid() && QueueValid()
      && (forall i | 0 <= i < |priority| :: priority[i] < |rows|)
      && (scanning ==> scan < |rows|)
      && (rings == [] || cursor < |rings|)
      && NONE <= held < |rows| && (held != NONE ==> rows[held].Near(heldPos))
    }

    /** The reader has row r's last publication, or something other than a rescan will still lead it there. */
    ghost predicate SafeAlready(r: nat)
      requires RowsValid() && r < |rows|
      reads this
    {
      || views[r].seen == rows[r].committed
      || !rows[r].stage.Idle?
      || (views[r].queued && views[r].hint == rows[r].committed)
      || Hint(r, rows[r].committed) in rings[home[r]].unread
      || rings[home[r]].overflow || rescan
    }

    /** No publication of row r is lost; `overflowed` is the poll's own note that it took an overflow flag. */
    ghost predicate Safe(r: nat, overflowed: bool)
      requires RowsValid() && r < |rows|
      reads this
    {
      SafeAlready(r) || overflowed || (scanning && scan <= r && r != held)
    }

    /** Every row but the one in hand. */
    ghost predicate AllSafe(overflowed: bool)
      requires RowsValid()
      reads this
    {
      forall r | 0 <= r < |rows| && r != held :: Safe(r, overflowed)
    }

    /** The poll's outputs so far: one per captured row, holding what was published under the sequence it reports. */
    ghost predicate OutputsValid()
      requires |views| == |rows|
      reads this
    {
      && (forall i | 0 <= i < |outputs| :: OutputValid(rows, views, turn, i, outputs[i]))
      && forall r | 0 <= r < |views| && views[r].turn == turn ::
           views[r].output < |outputs| && outputs[views[r].output].row == r
    }

    // ---- Writers ----

    /** The position that a table read has loaded is within half the range of the row's writer. */
    ghost predicate LoadValid(load: Load)
      reads this
    {
      load.Reading? ==> load.row < |rows| && rows[load.row].Near(load.pos)
    }

    /** A writer keeps every position still in circulation for its row within half the sequence range. */
    predicate InWindow(r: nat, next: nat)
      requires r < |rows| && r < |views| && r < |home| && home[r] < |rings|
      reads this
    {
      && rows[r].committed < next
      && (rows[r].committed != NONE ==> next - rows[r].committed <= HALF)
      && (views[r].seen != NONE ==> next - views[r].seen <= HALF)
      && (views[r].queued ==> next - views[r].hint <= HALF)
      && (held == r ==> next - heldPos <= HALF)
      && forall e | e in rings[home[r]].unread && e.Hint? && e.row == r :: next - e.pos <= HALF
    }

    /** What any number of writer steps can do to shared memory. */
    twostate predicate WritersOnly()
      reads this
    {
      && |rows| == |old(rows)| && |rings| == |old(rings)|
      && (forall r | 0 <= r < |rows| :: RowLater(old(rows)[r], rows[r]))
      && (forall k | 0 <= k < |rings| :: RingLater(old(rings)[k], rings[k]))
    }

    /** A safe row stays safe, and a row that was published again in the meantime is safe. */
    twostate predicate SafeKept(overflowed: bool)
      requires RowsValid() && old(RowsValid()) && |old(rows)| == |rows|
      reads this
    {
      forall r | 0 <= r < |rows| ::
        old(Safe(r, overflowed)) || rows[r].committed != old(rows)[r].committed ==> Safe(r, overflowed)
    }

    method Begin(r: nat, next: nat, payload: Payload, ghost overflowed: bool)
      requires Valid() && r < |rows| && rows[r].stage.Idle? && InWindow(r, next)
      modifies this`rows
      ensures Valid() && WritersOnly() && SafeKept(overflowed)
      ensures rows == old(rows)[r := old(rows)[r].(word := NONE, stage := Writing(next, payload))]
    {
      rows := rows[r := rows[r].(word := NONE, stage := Writing(next, payload))];
    }

    method Commit(r: nat, ghost overflowed: bool)
      requires Valid() && r < |rows| && rows[r].stage.Writing?
      modifies this`rows
      ensures Valid() && WritersOnly() && SafeKept(overflowed)
      ensures rows == old(rows)[r := rows[r]] && rows[r].Top() == old(rows[r].Top())
    {
      var next, payload := rows[r].stage.next, rows[r].stage.payload;
      rows := rows[r := Row(next, next, Announcing, rows[r].published[next := payload])];
    }

    /** The hint is pushed, or the overflow flag is raised; a stale head can make the ring look full when it no longer is. */
    method Announce(r: nat, ghost overflowed: bool)
      requires Valid() && r < |rows| && rows[r].stage.Announcing?
      modifies this`rows, this`rings
      ensures Valid() && WritersOnly() && SafeKept(overflowed)
      ensures rows == old(rows)[r := old(rows)[r].(stage := Idle)]
    {
      var looksFull := *;
      rings := rings[home[r] := Told(rings[home[r]], Hint(r, rows[r].committed), looksFull)];
      rows := rows[r := rows[r].(stage := Idle)];
    }

    /** One atomic step of some writer. */
    method WriterStep(ghost overflowed: bool, load: Load)
      requires Valid() && LoadValid(load)
      modifies this`rows, this`rings
      ensures Valid() && LoadValid(load) && WritersOnly() && SafeKept(overflowed)
      ensures old(OutputsValid()) ==> OutputsValid()
    {
      var r, next, payload := *, *, *;
      if 0 <= r < |rows| {
        if rows[r].stage.Writing? {
          Commit(r, overflowed);
        } else if rows[r].stage.Announcing? {
          Announce(r, overflowed);
        } else if 0 <= next && InWindow(r, next) && (load.Reading? && load.row == r ==> next - load.pos <= HALF) {
          Begin(r, next, payload, overflowed);
        }
      }
    }

    /** Any number of steps of any writers; none once the writers have finished. */
    method Interfere(ghost overflowed: bool, load: Load)
      requires Valid() && LoadValid(load)
      modifies this`rows, this`rings, this`writerSteps
      ensures Valid() && LoadValid(load) && WritersOnly() && SafeKept(overflowed)
      ensures old(writerSteps) == 0 ==> rows == old(rows) && rings == old(rings) && writerSteps == 0
      ensures old(OutputsValid()) ==> OutputsValid()
    {
      var steps: nat := *;
      ghost var start := rows;
      ghost var safe: set<nat> := set r | 0 <= r < |rows| && Safe(r, overflowed);
      while steps > 0 && writerSteps > 0
        invariant Valid() && LoadValid(load) && Since(start, old(rings), safe, overflowed)
        invariant old(writerSteps) == 0 ==> rows == old(rows) && rings == old(rings) && writerSteps == 0
        invariant old(OutputsValid()) ==> OutputsValid()
        decreases steps
      {
        steps := steps - 1;
        StepSince(overflowed, load, start, old(rings), safe);
      }
    }

    /** WritersOnly and SafeKept, against values of an earlier state. */
    ghost predicate Since(start: seq<Row>, before: seq<RingMem>, safe: set<nat>, overflowed: bool)
      requires RowsValid()
      reads this
    {
      && |rows| == |start| && |rings| == |before|
      && (forall r | 0 <= r < |rows| :: RowLater(start[r], rows[r]))
      && (forall k | 0 <= k < |rings| :: RingLater(before[k], rings[k]))
      && forall r | 0 <= r < |rows| && (r in safe || rows[r].committed != start[r].committed) :: Safe(r, overflowed)
    }

    method StepSince(ghost overflowed: bool, load: Load, ghost start: seq<Row>, ghost before: seq<RingMem>, ghost safe: set<nat>)
      requires Valid() && LoadValid(load) && Since(start, before, safe, overflowed) && writerSteps > 0
      modifies this`rows, this`rings, this`writerSteps
      ensures Valid() && LoadValid(load) && Since(start, before, safe, overflowed) && (old(OutputsValid()) ==> OutputsValid())
    {
      writerSteps := writerSteps - 1;
      label step:
      WriterStep(overflowed, load);
      forall r | 0 <= r < |rows| && (r in safe || rows[r].committed != start[r].committed) ensures Safe(r, overflowed) {
        assert old@step(Safe(r, overflowed)) || rows[r].committed != old@step(rows)[r].committed;
      }
    }

    // ---- The reader ----

    /** Reader::hint: queue the row, or let a newer hint replace the queued one. */
    method AddHint(id: nat, pos: int, ghost overflowed: bool)
      requires Valid() && id < |rows| && rows[id].Near(pos) && AllSafe(overflowed) && OutputsValid()
      modifies this`views, this`pending
      ensures Valid() && AllSafe(overflowed) && OutputsValid() && SeenKept()
      ensures forall r | 0 <= r < |views| && r != id :: views[r] == old(views)[r]
      ensures views[id].queued
      ensures views[id].hint == if old(views)[id].queued && old(views)[id].hint > pos then old(views)[id].hint else pos
      ensures pending == if old(views)[id].queued then old(pending) else old(pending) + [id]
      ensures old(Safe(id, overflowed)) || pos == rows[id].committed ==> Safe(id, overflowed)
    {
      if !views[id].queued {
        Enqueue(id, pos, overflowed);
      } else {
        WordsOrdered(rows[id], pos, views[id].hint);
        if NewerWord(pos, views[id].hint) {
          Renew(id, pos, overflowed);
        }
      }
    }

    method Enqueue(id: nat, pos: int, ghost overflowed: bool)
      requires Valid() && id < |rows| && rows[id].Near(pos) && AllSafe(overflowed) && OutputsValid() && !views[id].queued
      modifies this`views, this`pending
      ensures Valid() && AllSafe(overflowed) && OutputsValid() && SeenKept()
      ensures views == old(views)[id := old(views)[id].(queued := true, hint := pos)] && pending == old(pending) + [id]
      ensures old(Safe(id, overflowed)) || pos == rows[id].committed ==> Safe(id, overflowed)
    {
      views := views[id := views[id].(queued := true, hint := pos)];
      pending := pending + [id];
      assert AllSafe(overflowed) by {
        forall r | 0 <= r < |rows| && r != held ensures Safe(r, overflowed) { assert old(Safe(r, overflowed)); }
      }
    }

    method Renew(id: nat, pos: int, ghost overflowed: bool)
      requires Valid() && id < |rows| && rows[id].Near(pos) && AllSafe(overflowed) && OutputsValid()
      requires views[id].queued && views[id].hint < pos
      modifies this`views
      ensures Valid() && AllSafe(overflowed) && OutputsValid() && SeenKept()
      ensures views == old(views)[id := old(views)[id].(hint := pos)]
      ensures old(Safe(id, overflowed)) || pos == rows[id].committed ==> Safe(id, overflowed)
    {
      views := views[id := views[id].(hint := pos)];
      assert AllSafe(overflowed) by {
        forall r | 0 <= r < |rows| && r != held ensures Safe(r, overflowed) { assert old(Safe(r, overflowed)); }
      }
    }

    /**
     * sd_table_read at the granularity the stable table justifies: it succeeds when both loads see the same word, and
     * then returns what was committed under it. The word stands for the same publication both times, as the writer keeps
     * the loaded position in its window.
     */
    method TableRead(id: nat, ghost overflowed: bool) returns (ok: bool, pos: int, payload: Payload)
      requires Valid() && id < |rows|
      modifies this`rows, this`rings, this`writerSteps
      ensures Valid() && WritersOnly() && SafeKept(overflowed)
      ensures old(writerSteps) == 0 ==>
                rows == old(rows) && rings == old(rings) && writerSteps == 0 && ok == (rows[id].word != NONE)
      ensures old(OutputsValid()) ==> OutputsValid()
      ensures ok ==> pos == rows[id].word == rows[id].committed != NONE && payload == rows[id].published[pos]
    {
      var a := rows[id].word;
      if a == NONE { return false, NONE, []; }
      Interfere(overflowed, Reading(id, a));
      var b := rows[id].word;
      if b == NONE || !SameWord(a, b) { return false, NONE, []; }
      WordsOrdered(rows[id], a, b);
      return true, b, rows[id].published[b];
    }

    /** Everything a capture leaves alone. */
    twostate predicate OnlyCaptured(id: nat)
      reads this
    {
      && |views| == |old(views)| && id < |views|
      && (forall r | 0 <= r < |views| && r != id :: views[r] == old(views)[r])
      && views[id].hint == old(views)[id].hint && views[id].queued == old(views)[id].queued
      && (views[id] == old(views)[id] || (old(views)[id].seen < views[id].seen && views[id].turn == turn))
      && |outputs| <= |old(outputs)| + 1
    }

    /** Reader::capture: read the row stably, at most sixteen times, and record it unless it is already known. */
    method Capture(id: nat, ghost overflowed: bool) returns (ok: bool)
      requires Valid() && id < |rows| && OutputsValid()
      modifies this`rows, this`rings, this`writerSteps, this`views, this`outputs
      ensures Valid() && WritersOnly() && OutputsValid() && OnlyCaptured(id)
      ensures forall r | 0 <= r < |rows| :: old(Safe(r, overflowed)) || rows[r].committed != old(rows)[r].committed ==> Safe(r, overflowed)
      ensures ok ==> views[id].seen == rows[id].committed
      ensures !ok ==> views == old(views) && outputs == old(outputs)
      ensures old(writerSteps) == 0 ==>
                rows == old(rows) && rings == old(rings) && writerSteps == 0 && (rows[id].word != NONE ==> ok)
    {
      var pos, payload;
      ok, pos, payload := ReadStably(id, overflowed);
      if ok {
        Record(id, pos, payload, overflowed);
      }
    }

    /** The first half of a capture: table reads until one is stable, at most sixteen. */
    method ReadStably(id: nat, ghost overflowed: bool) returns (ok: bool, pos: int, payload: Payload)
      requires Valid() && id < |rows| && OutputsValid()
      modifies this`rows, this`rings, this`writerSteps
      ensures Valid() && WritersOnly() && SafeKept(overflowed) && OutputsValid()
      ensures ok ==> pos == rows[id].word == rows[id].committed != NONE && payload == rows[id].published[pos]
      ensures old(writerSteps) == 0 ==>
                rows == old(rows) && rings == old(rings) && writerSteps == 0 && (rows[id].word != NONE ==> ok)
    {
      ok, pos, payload := false, NONE, [];
      var retry := 0;
      while retry < RETRIES && !ok
        invariant Valid() && WritersOnly() && SafeKept(overflowed) && OutputsValid()
        invariant old(writerSteps) == 0 ==> rows == old(rows) && rings == old(rings) && writerSteps == 0
        invariant old(writerSteps) == 0 && rows[id].word != NONE ==> retry == 0 || ok
        invariant ok ==> pos == rows[id].word == rows[id].committed != NONE && payload == rows[id].published[pos]
        decreases RETRIES - retry, !ok
      {
        label before:
        ok, pos, payload := TableRead(id, overflowed);
        assert WritersOnly@before() && SafeKept@before(overflowed);
        retry := retry + 1;
      }
    }

    /** The second half of a capture: fill the row's output slot for this poll and remember the sequence. */
    method Record(id: nat, pos: int, payload: Payload, ghost overflowed: bool)
      requires Valid() && id < |rows| && OutputsValid()
      requires pos == rows[id].word == rows[id].committed != NONE && payload == rows[id].published[pos]
      modifies this`views, this`outputs
      ensures Valid() && OutputsValid() && OnlyCaptured(id)
      ensures views[id].seen == rows[id].committed
      ensures forall r | 0 <= r < |rows| && old(Safe(r, overflowed)) :: Safe(r, overflowed)
    {
      var v := views[id];
      if v.seen != NONE {
        WordsOrdered(rows[id], v.seen, pos);
        if SameWord(v.seen, pos) { return; }
      }
      if v.turn != turn {
        RecordFirst(id, pos, payload, overflowed);
      } else {
        RecordAgain(id, pos, payload, overflowed);
      }
    }

    method RecordFirst(id: nat, pos: int, payload: Payload, ghost overflowed: bool)
      requires Valid() && id < |rows| && OutputsValid() && views[id].turn != turn && views[id].seen < pos
      requires pos == rows[id].word == rows[id].committed != NONE && payload == rows[id].published[pos]
      modifies this`views, this`outputs
      ensures Valid() && OutputsValid() && OnlyCaptured(id) && views[id].seen == pos
      ensures forall r | 0 <= r < |rows| && old(Safe(r, overflowed)) :: Safe(r, overflowed)
    {
      views := views[id := views[id].(turn := turn, output := |outputs|, seen := pos)];
      outputs := outputs + [Output(id, pos, payload)];
    }

    method RecordAgain(id: nat, pos: int, payload: Payload, ghost overflowed: bool)
      requires Valid() && id < |rows| && OutputsValid() && views[id].turn == turn && views[id].seen < pos
      requires pos == rows[id].word == rows[id].committed != NONE && payload == rows[id].published[pos]
      modifies this`views, this`outputs
      ensures Valid() && OutputsValid() && OnlyCaptured(id) && views[id].seen == pos
      ensures forall r | 0 <= r < |rows| && old(Safe(r, overflowed)) :: Safe(r, overflowed)
    {
      outputs := outputs[views[id].output := Output(id, pos, payload)];
      views := views[id := views[id].(seen := pos)];
    }

    // ---- One poll ----

    /** No capture has happened: what the reader has seen and output is unchanged. */
    twostate predicate SeenKept()
      reads this
    {
      |views| == |old(views)| && forall r | 0 <= r < |views| ::
        views[r].seen == old(views)[r].seen && views[r].turn == old(views)[r].turn && views[r].output == old(views)[r].output
    }

    twostate predicate SameShape()
      reads this
    {
      |rows| == |old(rows)| && |rings| == |old(rings)|
    }

    /** The first access to a ring: take its overflow flag and clear it. */
    method TakeOverflow(k: nat, overflow: bool) returns (overflowed: bool)
      requires Valid() && held == NONE && AllSafe(overflow) && k < |rings| && OutputsValid()
      modifies this`rows, this`rings, this`writerSteps
      ensures Valid() && AllSafe(overflowed) && OutputsValid() && (overflow ==> overflowed) && SameShape()
      ensures old(writerSteps) == 0 ==>
                && rows == old(rows) && writerSteps == 0
                && rings == old(rings)[k := old(rings)[k].(overflow := false)]
                && overflowed == (overflow || old(rings)[k].overflow)
    {
      Interfere(overflow, Nowhere);
      overflowed := overflow || rings[k].overflow;
      rings := rings[k := rings[k].(overflow := false)];
    }

    /** The copy loop over a snapshot of `count` unread entries: each becomes, or is merged into, a queued hint. */
    method MergeEntries(k: nat, count: nat, ghost overflowed: bool)
      requires Valid() && held == NONE && AllSafe(overflowed) && k < |rings| && count <= |rings[k].unread| && OutputsValid()
      modifies this`rows, this`rings, this`writerSteps, this`views, this`pending
      ensures Valid() && AllSafe(overflowed) && OutputsValid() && SeenKept() && SameShape()
      ensures count <= |rings[k].unread| && Merged(views, rings[k].unread[..count])
      ensures |pending| <= |old(pending)| + count && old(pending) <= pending
      ensures old(writerSteps) == 0 ==> rows == old(rows) && writerSteps == 0 && rings == old(rings)
    {
      var i: nat := 0;
      while i < count
        invariant SameShape() && i <= count <= |rings[k].unread|
        invariant Valid() && AllSafe(overflowed) && OutputsValid() && SeenKept()
        invariant Merged(views, rings[k].unread[..i])
        invariant |pending| <= |old(pending)| + i && old(pending) <= pending
        invariant old(writerSteps) == 0 ==> rows == old(rows) && writerSteps == 0 && rings == old(rings)
      {
        label before:
        Interfere(overflowed, Nowhere);
        assert RingLater(old@before(rings)[k], rings[k]);
        assert rings[k].unread[..i] == old@before(rings)[k].unread[..i];
        MergeEntry(k, i, overflowed);
        i := i + 1;
      }
    }

    method MergeEntry(k: nat, i: nat, ghost overflowed: bool)
      requires Valid() && held == NONE && AllSafe(overflowed) && k < |rings| && i < |rings[k].unread| && OutputsValid()
      requires Merged(views, rings[k].unread[..i])
      modifies this`views, this`pending
      ensures Valid() && AllSafe(overflowed) && OutputsValid() && SeenKept()
      ensures Merged(views, rings[k].unread[..i + 1]) && |pending| <= |old(pending)| + 1 && old(pending) <= pending
    {
      var e := rings[k].unread[i];
      ghost var done := rings[k].unread[..i];
      assert rings[k].unread[..i + 1] == done + [e];
      if e.Hint? {
        assert EntryValid(rows, home, k, e) by { assert e in rings[k].unread; }
        AddHint(e.row, e.pos, overflowed);
      }
      MergedMore(old(views), views, done, e);
    }

    /** Storing the new head gives the merged entries back to the producer. */
    method ReleaseEntries(k: nat, count: nat, ghost overflowed: bool)
      requires Valid() && held == NONE && AllSafe(overflowed) && k < |rings| && count <= |rings[k].unread| && OutputsValid()
      requires Merged(views, rings[k].unread[..count])
      modifies this`rings
      ensures Valid() && AllSafe(overflowed) && OutputsValid()
      ensures rings == old(rings)[k := old(rings)[k].(unread := old(rings)[k].unread[count..])]
    {
      ghost var before := rings[k].unread;
      rings := rings[k := rings[k].(unread := rings[k].unread[count..])];
      assert before == before[..count] + rings[k].unread;
      forall r | 0 <= r < |rows| && r != held ensures Safe(r, overflowed) {
        assert old(Safe(r, overflowed));
        var h := Hint(r, rows[r].committed);
        if home[r] == k && h in before[..count] {
          assert views[r].hint == rows[r].committed;
        }
      }
    }

    /** One ring of the drain loop; only a fully merged prefix is released. */
    method DrainRing(k: nat, share: nat, overflow: bool) returns (count: nat, overflowed: bool)
      requires Valid() && held == NONE && AllSafe(overflow) && k < |rings| && OutputsValid()
      modifies this`rows, this`rings, this`writerSteps, this`views, this`pending
      ensures Valid() && AllSafe(overflowed) && OutputsValid() && SeenKept() && SameShape()
      ensures count <= share && (overflow ==> overflowed) && |pending| <= |old(pending)| + count && old(pending) <= pending
      ensures old(writerSteps) == 0 ==>
                && rows == old(rows) && writerSteps == 0
                && count == Min(|old(rings)[k].unread|, share)
                && rings == old(rings)[k := old(rings)[k].(overflow := false, unread := old(rings)[k].unread[count..])]
                && overflowed == (overflow || old(rings)[k].overflow)
    {
      overflowed := TakeOverflow(k, overflow);
      Interfere(overflowed, Nowhere);
      count := Min(|rings[k].unread|, share);
      MergeEntries(k, count, overflowed);
      Interfere(overflowed, Nowhere);
      ReleaseEntries(k, count, overflowed);
    }

    /** What is left, divided by the rings still to come; it never falls below an even share of the whole. */
    method EvenShare(remaining: nat, left: nat, ghost fair: nat) returns (share: nat)
      requires left > 0 && remaining >= left * fair
      ensures fair <= share <= remaining && (left == 1 ==> share == remaining)
      ensures remaining - share >= (left - 1) * fair
    {
      share := remaining / left;
      EvenShareIsFair(remaining, left, fair);
    }

    /** One turn of the drain loop: the ring `offset` places after the cursor gets an even share of what is left. */
    method DrainTurn(offset: nat, remaining: nat, overflow: bool, ghost start: seq<RingMem>, ghost total: nat, ghost fair: nat)
      returns (count: nat, overflowed: bool)
      requires Valid() && held == NONE && AllSafe(overflow) && OutputsValid() && offset < |rings| == |start|
      requires remaining >= (|rings| - offset) * fair
      modifies this`rows, this`rings, this`writerSteps, this`views, this`pending
      ensures Valid() && AllSafe(overflowed) && OutputsValid() && SeenKept() && SameShape()
      ensures count <= remaining && |pending| <= |old(pending)| + count && old(pending) <= pending
      ensures old(writerSteps) == 0 ==> rows == old(rows) && writerSteps == 0
      ensures old(writerSteps) == 0 && Drained(start, old(rings), cursor, offset, total, overflow, fair) ==>
                Drained(start, rings, cursor, offset + 1, total + count, overflowed, fair)
      ensures remaining - count >= (|rings| - offset - 1) * fair
      ensures old(writerSteps) == 0 && offset == |rings| - 1 ==>
                count == Min(|old(rings)[Turned(cursor, offset, |rings|)].unread|, remaining)
    {
      var k := Turned(cursor, offset, |rings|);
      var share := EvenShare(remaining, |rings| - offset, fair);
      count, overflowed := DrainRing(k, share, overflow);
      if old(writerSteps) == 0 && Drained(start, old(rings), cursor, offset, total, overflow, fair) {
        DrainedMore(start, old(rings), rings, cursor, offset, total, overflow, count, overflowed, fair);
      }
    }

    /** The drain loop of a poll: every ring once, starting at the cursor, within the budget. */
    method DrainRings(budget: nat) returns (overflowed: bool, total: nat)
      requires Valid() && held == NONE && AllSafe(false) && OutputsValid()
      modifies this`rows, this`rings, this`writerSteps, this`views, this`pending
      ensures Valid() && AllSafe(overflowed) && OutputsValid() && SeenKept() && SameShape()
      ensures total <= budget && |pending| <= |old(pending)| + total && old(pending) <= pending
      ensures old(writerSteps) == 0 ==>
                && rows == old(rows) && writerSteps == 0
                && Drained(old(rings), rings, cursor, |rings|, total, overflowed, FairShare(budget, |rings|))
                && (rings != [] && old(rings)[Turned(cursor, |rings| - 1, |rings|)].unread != [] ==> total > 0 || budget == 0)
    {
      overflowed, total := false, 0;
      var offset: nat := 0;
      ghost var fair := FairShare(budget, |rings|);
      SharesFit(budget, |rings|);
      while offset < |rings|
        invariant SameShape() && offset <= |rings| && total <= budget && |pending| <= |old(pending)| + total && old(pending) <= pending
        invariant Valid() && AllSafe(overflowed) && OutputsValid() && SeenKept()
        invariant old(writerSteps) == 0 ==> rows == old(rows) && writerSteps == 0
        invariant old(writerSteps) == 0 ==> Drained(old(rings), rings, cursor, offset, total, overflowed, fair)
        invariant budget - total >= (|rings| - offset) * fair
        invariant old(writerSteps) == 0 && offset == |rings| && offset > 0 ==>
                    total > 0 || budget == 0 || old(rings)[Turned(cursor, |rings| - 1, |rings|)].unread == []
      {
        var count;
        count, overflowed := DrainTurn(offset, budget - total, overflowed, old(rings), total, fair);
        total, offset := total + count, offset + 1;
      }
    }

    twostate predicate SeenGrew()
      reads this
    {
      |views| == |old(views)| && forall r | 0 <= r < |views| :: old(views)[r].seen <= views[r].seen
    }

    /** Compared with the poll's start, exactly the rows captured in this poll have moved, and they moved forward. */
    ghost predicate Moved(start: seq<View>)
      reads this
    {
      |start| == |views| && forall r | 0 <= r < |views| ::
        start[r].seen <= views[r].seen && (views[r].turn == turn <==> start[r].seen < views[r].seen)
    }

    ghost predicate AllIdle()
      reads this
    {
      forall r | 0 <= r < |rows| :: rows[r].stage.Idle?
    }

    /** The reader has the last publication of each of the first n urgent rows. */
    ghost predicate UrgentSeen(n: nat)
      reads this
    {
      forall i | 0 <= i < n && i < |priority| && priority[i] < |views| && priority[i] < |rows| ::
        views[priority[i]].seen == rows[priority[i]].committed
    }

    /** An overflow asks for a rescan; a rescan starts once no other is running. */
    method StartScan(overflowed: bool)
      requires Valid() && held == NONE && AllSafe(overflowed) && OutputsValid()
      modifies this`rescan, this`scan, this`scanning
      ensures Valid() && AllSafe(false) && OutputsValid()
      ensures RescanSet(old(Scan()), old(rescan) || overflowed, Scan(), rescan)
    {
      if overflowed { rescan := true; }
      if !scanning && rescan {
        scan, scanning, rescan := 0, rows != [], false;
      }
    }

    method PollUrgent(id: nat)
      requires Valid() && held == NONE && AllSafe(false) && OutputsValid() && id < |rows|
      modifies this`rows, this`rings, this`writerSteps, this`views, this`outputs
      ensures Valid() && AllSafe(false) && OutputsValid() && OnlyCaptured(id) && SameShape()
      ensures old(writerSteps) == 0 ==> rows == old(rows) && rings == old(rings) && writerSteps == 0
      ensures old(writerSteps) == 0 && AllIdle() ==> views[id].seen == rows[id].committed
    {
      Interfere(false, Nowhere);
      var word := rows[id].word;
      if word != NONE {
        if SameWord(views[id].seen, word) {
          WordsOrdered(rows[id], views[id].seen, word);
        } else {
          var _ := Capture(id, false);
        }
      }
    }

    /** Rows registered as urgent are looked at in every poll. */
    method PollPriority(ghost start: seq<View>)
      requires Valid() && held == NONE && AllSafe(false) && OutputsValid() && Moved(start)
      modifies this`rows, this`rings, this`writerSteps, this`views, this`outputs
      ensures Valid() && AllSafe(false) && OutputsValid() && Moved(start) && SameShape()
      ensures |outputs| <= |old(outputs)| + |priority|
      ensures old(writerSteps) == 0 ==> rows == old(rows) && rings == old(rings) && writerSteps == 0
      ensures old(writerSteps) == 0 && AllIdle() ==> UrgentSeen(|priority|)
    {
      var i: nat := 0;
      while i < |priority|
        invariant i <= |priority| && |outputs| <= |old(outputs)| + i && SameShape()
        invariant Valid() && AllSafe(false) && OutputsValid() && Moved(start)
        invariant old(writerSteps) == 0 ==> rows == old(rows) && rings == old(rings) && writerSteps == 0
        invariant old(writerSteps) == 0 && AllIdle() ==> UrgentSeen(i)
      {
        PollUrgentAt(i, start);
        i := i + 1;
      }
    }

    method PollUrgentAt(i: nat, ghost start: seq<View>)
      requires Valid() && held == NONE && AllSafe(false) && OutputsValid() && Moved(start) && i < |priority|
      modifies this`rows, this`rings, this`writerSteps, this`views, this`outputs
      ensures Valid() && AllSafe(false) && OutputsValid() && Moved(start) && SameShape() && |outputs| <= |old(outputs)| + 1
      ensures old(writerSteps) == 0 ==> rows == old(rows) && rings == old(rings) && writerSteps == 0
      ensures old(writerSteps) == 0 && AllIdle() && old(UrgentSeen(i)) ==> UrgentSeen(i + 1)
    {
      PollUrgent(priority[i]);
    }

    /** Take the oldest queued row; it stays in hand until it is captured, found stale, or queued again. */
    method PollHint(ghost start: seq<View>)
      requires Valid() && held == NONE && AllSafe(false) && OutputsValid() && Moved(start) && pending != []
      modifies this`rows, this`rings, this`writerSteps, this`views, this`outputs, this`pending, this`held, this`heldPos
      ensures Valid() && held == NONE && AllSafe(false) && OutputsValid() && Moved(start) && SameShape() && SeenGrew()
      ensures |outputs| <= |old(outputs)| + 1 && |pending| <= |old(pending)| && old(pending)[1..] <= pending
      ensures old(writerSteps) == 0 ==> rows == old(rows) && rings == old(rings) && writerSteps == 0
      ensures old(writerSteps) == 0 && AllIdle() ==> |pending| == |old(pending)| - 1
    {
      var id := TakeHint();
      ServeHint(id, start);
    }

    /** The row in hand is captured unless its hint is stale. */
    method ServeHint(id: nat, ghost start: seq<View>)
      requires Valid() && AllSafe(false) && OutputsValid() && Moved(start)
      requires held == id < |rows| && heldPos == views[id].hint
      requires Safe(id, false) || heldPos == rows[id].committed || (scanning && scan <= id)
      modifies this`rows, this`rings, this`writerSteps, this`views, this`outputs, this`pending, this`held
      ensures Valid() && held == NONE && AllSafe(false) && OutputsValid() && Moved(start) && SameShape() && SeenGrew()
      ensures |outputs| <= |old(outputs)| + 1 && |pending| <= |old(pending)| + 1 && old(pending) <= pending
      ensures old(writerSteps) == 0 ==> rows == old(rows) && rings == old(rings) && writerSteps == 0
      ensures old(writerSteps) == 0 && AllIdle() ==> |pending| == |old(pending)|
    {
      var stale := IsStale(id);
      if !stale {
        CaptureHeld(id);
      }
      Release();
    }

    /** A row whose hint is not newer than what was seen needs no capture. */
    method IsStale(id: nat) returns (stale: bool)
      requires Valid() && AllSafe(false) && held == id < |rows| && heldPos == views[id].hint
      requires Safe(id, false) || heldPos == rows[id].committed || (scanning && scan <= id)
      ensures stale ==> Safe(id, false) || (scanning && scan <= id)
    {
      var v := views[id];
      stale := false;
      if v.seen != NONE {
        WordsOrdered(rows[id], v.hint, v.seen);
        stale := !NewerWord(v.hint, v.seen);
      }
    }

    method TakeHint() returns (id: nat)
      requires Valid() && held == NONE && AllSafe(false) && OutputsValid() && pending != []
      modifies this`views, this`pending, this`held, this`heldPos
      ensures Valid() && AllSafe(false) && OutputsValid() && SeenKept()
      ensures held == id == old(pending)[0] < |rows| && pending == old(pending)[1..]
      ensures !views[id].queued && heldPos == views[id].hint
      ensures Safe(id, false) || heldPos == rows[id].committed || (scanning && scan <= id)
    {
      id := pending[0];
      pending := pending[1..];
      views := views[id := views[id].(queued := false)];
      held, heldPos := id, views[id].hint;
      assert old(Safe(id, false));
      forall r | 0 <= r < |rows| && r != held ensures Safe(r, false) { assert old(Safe(r, false)); }
    }

    /** Capture the row in hand, or queue it under the position it was taken with. */
    method CaptureHeld(id: nat)
      requires Valid() && AllSafe(false) && OutputsValid() && held == id < |rows|
      modifies this`rows, this`rings, this`writerSteps, this`views, this`outputs, this`pending
      ensures Valid() && AllSafe(false) && OutputsValid() && SameShape() && OnlySeenBy(id)
      ensures old(Safe(id, false)) || heldPos == old(rows)[id].committed ==> Safe(id, false)
      ensures old(pending) <= pending && |pending| <= |old(pending)| + 1
      ensures old(writerSteps) == 0 ==> rows == old(rows) && rings == old(rings) && writerSteps == 0
      ensures old(writerSteps) == 0 && rows[id].word != NONE ==> |pending| == |old(pending)|
    {
      var ok := Capture(id, false);
      if !ok {
        assert AllSafe(false);
        assert Safe(id, false) || rows[id].committed == old(rows)[id].committed;
        AddHint(id, heldPos, false);
      }
    }

    /** Only row id can have been captured. */
    twostate predicate OnlySeenBy(id: nat)
      reads this
    {
      && |views| == |old(views)| && id < |views| && |outputs| <= |old(outputs)| + 1
      && (forall r | 0 <= r < |views| && r != id :: views[r] == old(views)[r])
      && ((views[id].seen == old(views)[id].seen && views[id].turn == old(views)[id].turn)
          || (old(views)[id].seen < views[id].seen && views[id].turn == turn))
    }

    /** Put down the row in hand once something leads back to it. */
    method Release()
      requires Valid() && AllSafe(false) && OutputsValid() && 0 <= held < |rows|
      requires Safe(held, false) || (scanning && scan <= held)
      modifies this`held
      ensures Valid() && AllSafe(false) && OutputsValid() && held == NONE
    {
      var id := held;
      held := NONE;
      forall r | 0 <= r < |rows| ensures Safe(r, false) {
        assert r != id ==> old(Safe(r, false));
      }
    }

    /** The queue phase: at most `count` hints, oldest first. */
    method PollPending(count: nat, ghost start: seq<View>)
      requires Valid() && held == NONE && AllSafe(false) && OutputsValid() && Moved(start) && count <= |pending|
      modifies this`rows, this`rings, this`writerSteps, this`views, this`outputs, this`pending, this`held, this`heldPos
      ensures Valid() && held == NONE && AllSafe(false) && OutputsValid() && Moved(start) && SameShape() && SeenGrew()
      ensures |outputs| <= |old(outputs)| + count && old(pending)[count..] <= pending
      ensures old(writerSteps) == 0 ==> rows == old(rows) && rings == old(rings) && writerSteps == 0
      ensures old(writerSteps) == 0 && AllIdle() ==> |pending| + count == |old(pending)|
    {
      var i: nat := 0;
      while i < count
        invariant i <= count && |outputs| <= |old(outputs)| + i && old(pending)[i..] <= pending && SameShape() && SeenGrew()
        invariant Valid() && held == NONE && AllSafe(false) && OutputsValid() && Moved(start)
        invariant old(writerSteps) == 0 ==> rows == old(rows) && rings == old(rings) && writerSteps == 0
        invariant old(writerSteps) == 0 && AllIdle() ==> |pending| + i == |old(pending)|
      {
        NextInLine(old(pending), i, pending);
        PollHint(start);
        i := i + 1;
      }
    }

    /** One row of the rescan; the scan position moves past it only with the row safe. */
    method ScanRow(ghost start: seq<View>)
      requires Valid() && held == NONE && AllSafe(false) && OutputsValid() && Moved(start) && scanning
      modifies this`rows, this`rings, this`writerSteps, this`views, this`outputs, this`pending, this`held, this`heldPos, this`scan, this`scanning
      ensures Valid() && held == NONE && AllSafe(false) && OutputsValid() && Moved(start) && SameShape() && SeenGrew()
      ensures |outputs| <= |old(outputs)| + 1
      ensures scanning == (old(scan) + 1 < |rows|) && (scanning ==> scan == old(scan) + 1) && old(pending) <= pending
      ensures old(writerSteps) == 0 ==> rows == old(rows) && rings == old(rings) && writerSteps == 0 && |pending| == |old(pending)|
    {
      ScanLook(scan);
      MoveOn();
    }

    /** The row is captured if its word is not the one seen, or queued under that word if it cannot be. */
    method ScanLook(id: nat)
      requires Valid() && held == NONE && AllSafe(false) && OutputsValid() && id < |rows|
      modifies this`rows, this`rings, this`writerSteps, this`views, this`outputs, this`pending, this`held, this`heldPos
      ensures Valid() && held == NONE && AllSafe(false) && OutputsValid() && SameShape() && OnlySeenBy(id)
      ensures SafeAlready(id) && old(pending) <= pending
      ensures old(writerSteps) == 0 ==> rows == old(rows) && rings == old(rings) && writerSteps == 0 && |pending| == |old(pending)|
    {
      Interfere(false, Nowhere);
      var word := rows[id].word;
      if word != NONE {
        if SameWord(views[id].seen, word) {
          WordsOrdered(rows[id], views[id].seen, word);
        } else {
          ScanCapture(id, word);
        }
      }
    }

    method ScanCapture(id: nat, word: int)
      requires Valid() && held == NONE && AllSafe(false) && OutputsValid() && id < |rows|
      requires word == rows[id].word == rows[id].committed != NONE
      modifies this`rows, this`rings, this`writerSteps, this`views, this`outputs, this`pending, this`held, this`heldPos
      ensures Valid() && held == NONE && AllSafe(false) && OutputsValid() && SameShape() && OnlySeenBy(id)
      ensures SafeAlready(id) && old(pending) <= pending
      ensures old(writerSteps) == 0 ==> rows == old(rows) && rings == old(rings) && writerSteps == 0 && |pending| == |old(pending)|
    {
      held, heldPos := id, word;
      forall r | 0 <= r < |rows| && r != held ensures Safe(r, false) { assert old(Safe(r, false)); }
      CaptureHeld(id);
      assert SafeAlready(id);
      Release();
    }

    method MoveOn()
      requires Valid() && held == NONE && AllSafe(false) && OutputsValid() && scanning && SafeAlready(scan)
      modifies this`scan, this`scanning
      ensures Valid() && AllSafe(false) && OutputsValid()
      ensures scanning == (old(scan) + 1 < |rows|) && (scanning ==> scan == old(scan) + 1)
    {
      var id := scan;
      scan := scan + 1;
      if scan == |rows| { scanning := false; }
      forall r | 0 <= r < |rows| ensures Safe(r, false) {
        assert old(Safe(r, false));
        if r == id { assert SafeAlready(r); }
      }
    }

    /** The rescan phase: at most `limit` rows. */
    method PollScan(limit: nat, ghost start: seq<View>) returns (scanned: nat)
      requires Valid() && held == NONE && AllSafe(false) && OutputsValid() && Moved(start)
      modifies this`rows, this`rings, this`writerSteps, this`views, this`outputs, this`pending, this`held, this`heldPos, this`scan, this`scanning
      ensures Valid() && held == NONE && AllSafe(false) && OutputsValid() && Moved(start) && SameShape() && SeenGrew()
      ensures scanned == Min(limit, old(ScanLeft())) && |outputs| <= |old(outputs)| + scanned
      ensures scanning == (old(scanning) && old(scan) + limit < |rows|) && (scanning ==> scan == old(scan) + limit)
      ensures old(pending) <= pending
      ensures old(writerSteps) == 0 ==>
                rows == old(rows) && rings == old(rings) && writerSteps == 0 && |pending| == |old(pending)|
    {
      scanned := 0;
      while scanning && scanned < limit
        invariant scanned <= limit && |outputs| <= |old(outputs)| + scanned && SameShape() && SeenGrew()
        invariant Valid() && held == NONE && AllSafe(false) && OutputsValid() && Moved(start)
        invariant ScanLeft() + scanned == old(ScanLeft()) && (scanning ==> old(scanning) && scan == old(scan) + scanned)
        invariant old(pending) <= pending
        invariant old(writerSteps) == 0 ==>
                    rows == old(rows) && rings == old(rings) && writerSteps == 0 && |pending| == |old(pending)|
        decreases limit - scanned
      {
        ScanRow(start);
        scanned := scanned + 1;
      }
    }

    function Scan(): Rescan
      reads this
    {
      Rescan(scanning, scan, |rows|)
    }

    /** Rows a running rescan has still to visit. */
    function ScanLeft(): nat
      requires scanning ==> scan < |rows|
      reads this
    {
      Scan().Left()
    }

    /** What is left to do once the writers have stopped: draining, queued hints, and owed or running rescans. */
    ghost function Backlog(): nat
      requires scanning ==> scan < |rows|
      reads this
    {
      |pending| + Ahead(rings, Scan(), rescan)
    }

    /**
     * Reader::poll against arbitrary writers. Nothing published is lost; each row is output at most once, with
     * what was published under the sequence reported; and exactly the rows whose seen sequence advanced are output.
     */
    method Poll(budget: nat)
      requires Valid() && held == NONE && AllSafe(false) && budget > 0
      modifies this
      ensures Valid() && held == NONE && AllSafe(false) && OutputsValid() && SameShape()
      ensures |outputs| <= budget + |priority|
      ensures forall i, j | 0 <= i < j < |outputs| :: outputs[i].row != outputs[j].row
      ensures Moved(old(views))
      ensures Shared(old(Scan()), Scan(), budget, old(rescan), old(pending), pending)
      ensures old(writerSteps) == 0 ==> rows == old(rows) && writerSteps == 0 && RingsServed(old(rings), rings, budget)
      ensures old(writerSteps) == 0 && AllIdle() ==> UrgentSeen(|priority|)
      ensures old(writerSteps) == 0 && AllIdle() ==>
                || Backlog() < old(Backlog())
                || (Backlog() == old(Backlog()) && Stuck(old(rings), old(cursor)))
    {
      GatherHints(budget);
      DeliverRows(budget, old(views), old(Scan()), old(rescan), old(pending));
      assert old(writerSteps) == 0 && AllIdle() && Backlog() >= old(Backlog()) ==> Stuck(old(rings), old(cursor));
    }

    /** The first half of a poll: move hints from the rings to the queue, and start a rescan if one is owed. */
    method GatherHints(budget: nat)
      requires Valid() && held == NONE && AllSafe(false) && budget > 0
      modifies this
      ensures Valid() && held == NONE && AllSafe(false) && OutputsValid() && SameShape() && Moved(old(views)) && outputs == []
      ensures old(pending) <= pending
      ensures Started(old(Scan()), Scan(), old(rescan)) && (rescan ==> scanning)
      ensures old(writerSteps) == 0 ==>
                && rows == old(rows) && writerSteps == 0 && !AnyOverflow(rings)
                && RingsServed(old(rings), rings, budget) && Backlog() <= old(Backlog())
                && (Backlog() == old(Backlog()) ==> RingsStuck(old(rings), old(cursor)))
    {
      var overflowed, total := DrainInTurn(budget);
      EndDrain(overflowed);
      if old(writerSteps) == 0 {
        DrainingIsProgress(old(rings), rings, old(cursor), total, overflowed, FairShare(budget, |rings|), old(Scan()), old(rescan), Scan(), rescan, cursor);
      }
    }

    /** A new turn starts with no output, and with the drain loop. */
    method DrainInTurn(budget: nat) returns (overflowed: bool, total: nat)
      requires Valid() && held == NONE && AllSafe(false)
      modifies this`turn, this`outputs, this`rows, this`rings, this`writerSteps, this`views, this`pending
      ensures Valid() && AllSafe(overflowed) && OutputsValid() && SameShape() && Moved(old(views)) && outputs == []
      ensures |pending| <= |old(pending)| + total && old(pending) <= pending
      ensures old(writerSteps) == 0 ==>
                && rows == old(rows) && writerSteps == 0
                && Drained(old(rings), rings, cursor, |rings|, total, overflowed, FairShare(budget, |rings|))
                && (rings != [] && old(rings)[Turned(cursor, |rings| - 1, |rings|)].unread != [] ==> total > 0 || budget == 0)
    {
      BeginTurn();
      overflowed, total := DrainRings(budget);
    }

    /** Turn to the next ring, and to the rescan if one is owed. */
    method EndDrain(overflowed: bool)
      requires Valid() && held == NONE && AllSafe(overflowed) && OutputsValid()
      modifies this`cursor, this`rescan, this`scan, this`scanning
      ensures Valid() && AllSafe(false) && OutputsValid()
      ensures rings != [] ==> cursor == Turned(old(cursor), if |rings| > 1 then 1 else 0, |rings|)
      ensures RescanSet(old(Scan()), old(rescan) || overflowed, Scan(), rescan)
    {
      Rotate(overflowed);
      StartScan(overflowed);
    }

    /** The second half: urgent rows, queued hints, then a bounded piece of the rescan. */
    method DeliverRows(budget: nat, ghost start: seq<View>, ghost before: Rescan, ghost owed: bool, ghost queue: seq<nat>)
      requires Valid() && held == NONE && AllSafe(false) && OutputsValid() && Moved(start) && outputs == [] && budget > 0
      requires Started(before, Scan(), owed) && queue <= pending
      modifies this`rows, this`rings, this`writerSteps, this`views, this`outputs, this`pending, this`held, this`heldPos, this`scan, this`scanning
      ensures Valid() && held == NONE && AllSafe(false) && OutputsValid() && SameShape() && Moved(start)
      ensures |outputs| <= budget + |priority|
      ensures Shared(before, Scan(), budget, owed, queue, pending)
      ensures old(writerSteps) == 0 ==> rows == old(rows) && rings == old(rings) && writerSteps == 0
      ensures old(writerSteps) == 0 && AllIdle() ==>
                && UrgentSeen(|priority|)
                && (Backlog() < old(Backlog()) || (Backlog() == old(Backlog()) && !scanning && pending == [] && !old(scanning)))
    {
      PollPriority(start);
      ServeBoth(budget, start, before, owed, queue);
    }

    method ServeBoth(budget: nat, ghost start: seq<View>, ghost before: Rescan, ghost owed: bool, ghost queue: seq<nat>)
      requires Valid() && held == NONE && AllSafe(false) && OutputsValid() && Moved(start) && budget > 0
      requires Started(before, Scan(), owed) && queue <= pending
      modifies this`rows, this`rings, this`writerSteps, this`views, this`outputs, this`pending, this`held, this`heldPos, this`scan, this`scanning
      ensures Valid() && held == NONE && AllSafe(false) && OutputsValid() && SameShape() && Moved(start) && SeenGrew()
      ensures |outputs| <= |old(outputs)| + budget && Shared(before, Scan(), budget, owed, queue, pending)
      ensures old(writerSteps) == 0 ==> rows == old(rows) && rings == old(rings) && writerSteps == 0
      ensures old(writerSteps) == 0 && AllIdle() ==>
                Backlog() < old(Backlog()) || (Backlog() == old(Backlog()) && !scanning && pending == [] && !old(scanning))
    {
      ghost var started, gathered := Scan(), pending;
      DivideBudget(budget, start);
      AheadBySteps(rings, started, Scan(), rescan);
      SharedByBoth(before, started, Scan(), budget, owed, queue, gathered, pending);
    }

    /** While a rescan runs, hints get at most half of the budget; the rescan gets what they leave. */
    method DivideBudget(budget: nat, ghost start: seq<View>)
      requires Valid() && held == NONE && AllSafe(false) && OutputsValid() && Moved(start) && budget > 0
      modifies this`rows, this`rings, this`writerSteps, this`views, this`outputs, this`pending, this`held, this`heldPos, this`scan, this`scanning
      ensures Valid() && held == NONE && AllSafe(false) && OutputsValid() && SameShape() && Moved(start) && SeenGrew()
      ensures |outputs| <= |old(outputs)| + budget && Served(old(Scan()), Scan(), budget, old(pending), pending)
      ensures old(writerSteps) == 0 ==> rows == old(rows) && rings == old(rings) && writerSteps == 0
      ensures old(writerSteps) == 0 && AllIdle() ==>
                || |pending| + ScanLeft() < |old(pending)| + old(ScanLeft())
                || (!scanning && pending == [] == old(pending) && !old(scanning))
    {
      var count := Min(|pending|, if scanning then budget / 2 else budget);
      PollPending(count, start);
      var scanned := PollScan(budget - count, start);
    }

    method BeginTurn()
      requires Valid() && AllSafe(false)
      modifies this`turn, this`outputs
      ensures Valid() && AllSafe(false) && OutputsValid() && Moved(views) && outputs == []
    {
      turn, outputs := turn + 1, [];
      forall r | 0 <= r < |rows| && r != held ensures Safe(r, false) { assert old(Safe(r, false)); }
    }

    /** The next poll starts its drain loop one ring further on. */
    method Rotate(ghost overflowed: bool)
      requires Valid() && AllSafe(overflowed) && OutputsValid()
      modifies this`cursor
      ensures Valid() && AllSafe(overflowed) && OutputsValid()
      ensures rings != [] ==> cursor == Turned(old(cursor), if |rings| > 1 then 1 else 0, |rings|)
    {
      if rings != [] {
        cursor := if cursor + 1 == |rings| then 0 else cursor + 1;
      }
      forall r | 0 <= r < |rows| && r != held ensures Safe(r, overflowed) { assert old(Safe(r, overflowed)); }
    }

    /** No entry was in reach of the last ring's share; the next poll starts one ring later. */
    ghost predicate RingsStuck(before: seq<RingMem>, at: nat)
      reads this
    {
      OutOfReach(before, rings, at, cursor)
    }

    /** A poll that got nothing done. */
    ghost predicate Stuck(before: seq<RingMem>, at: nat)
      reads this
    {
      !scanning && !rescan && pending == [] && RingsStuck(before, at)
    }

    /** Reader::has_pending: is there anything a further poll could act on? */
    predicate HasPending()
      reads this
    {
      || pending != [] || scanning || rescan
      || exists k | 0 <= k < |rings| :: rings[k].unread != [] || rings[k].overflow
    }

    /** With no writer mid-publication, nothing pending means the reader has every row's last publication. */
    lemma NothingPendingNothingMissed()
      requires Valid() && held == NONE && AllSafe(false) && AllIdle() && !HasPending()
      ensures forall r | 0 <= r < |rows| :: views[r].seen == rows[r].committed
    {
      forall r | 0 <= r < |rows| ensures views[r].seen == rows[r].committed {
        assert Safe(r, false);
      }
    }

    /** How many polls until the first ring with unread entries is last in line, and so gets the whole budget. */
    ghost function TurnsToServe(): nat
      reads this
    {
      var k := FirstUnread(rings);
      if k < |rings| && cursor < |rings| then Behind(Turned(cursor, |rings| - 1, |rings|), k, |rings|) else 0
    }

    /** Whatever the writers do and however many hints they send, so many polls take a running rescan through every row. */
    method PollThroughScan(budget: nat) returns (polls: nat)
      requires Valid() && held == NONE && AllSafe(false) && budget > 0 && scanning
      modifies this
      ensures Valid() && held == NONE && AllSafe(false) && !scanning && |rows| == |old(rows)|
      ensures old(scan) + (polls - 1) * (budget - budget / 2) < |rows|
    {
      polls := 0;
      ghost var half := budget - budget / 2;
      while scanning
        invariant Valid() && held == NONE && AllSafe(false) && |rows| == |old(rows)|
        invariant scanning ==> old(scan) + polls * half <= scan
        invariant old(scan) + (polls - 1) * half < |rows|
        decreases ScanLeft()
      {
        ghost var at := scan;
        Poll(budget);
        assert scanning ==> at + half <= scan;
        assert (polls + 1) * half == polls * half + half;
        polls := polls + 1;
      }
    }

    /** With quiet writers a poll leaves less to do, or the entries in the rings one turn closer to being served. */
    method PollCloser(budget: nat)
      requires Valid() && held == NONE && AllSafe(false) && AllIdle() && writerSteps == 0 && budget > 0 && HasPending()
      modifies this
      ensures Valid() && held == NONE && AllSafe(false) && writerSteps == 0 && rows == old(rows)
      ensures Backlog() < old(Backlog()) || (Backlog() == old(Backlog()) && TurnsToServe() < old(TurnsToServe()))
    {
      ghost var before, at, backlog, other := rings, cursor, Backlog(), pending != [] || scanning || rescan || AnyOverflow(rings);
      Poll(budget);
      if Backlog() == backlog {
        assert Stuck(before, at);
        SameUnread(before, rings);
        assert !other;
        FirstUnreadFound(rings);
        NextIsCloser(|rings|, at, cursor, FirstUnread(rings));
      }
    }

    /** Once the writers stop, finitely many polls bring the reader every row's last publication. */
    method PollUntilIdle(budget: nat)
      requires Valid() && held == NONE && AllSafe(false) && AllIdle() && writerSteps == 0 && budget > 0
      modifies this
      ensures Valid() && !HasPending() && rows == old(rows)
      ensures forall r | 0 <= r < |rows| :: views[r].seen == rows[r].committed
    {
      while HasPending()
        invariant Valid() && held == NONE && AllSafe(false) && writerSteps == 0 && rows == old(rows)
        decreases Backlog(), TurnsToServe()
      {
        PollCloser(budget);
      }
      NothingPendingNothingMissed();
    }

    /**
     * Reader::reset at the retirement barrier: forget the selected rows and everything in flight. What it keeps safe is
     * stated twice: by what the reader had seen, and, for a caller that finds nothing pending before the call, by whether
     * the forgotten rows are unpublished.
     */
    method Reset(selected: set<nat>)
      requires Valid() && held == NONE && AllIdle()
      modifies this`views, this`pending, this`scanning, this`rescan, this`rings
      ensures Valid() && !HasPending()
      ensures AllSafe(false) <==>
                forall r | 0 <= r < |rows| :: rows[r].committed == if r in selected then NONE else old(views)[r].seen
      ensures old(AllSafe(false) && !HasPending()) ==>
                (AllSafe(false) <==> forall r | r in selected && r < |rows| :: rows[r].word == NONE)
    {
      if AllSafe(false) && !HasPending() { NothingPendingNothingMissed(); }
      Clear(selected);
      SafeExactly();
    }

    method Clear(selected: set<nat>)
      requires Valid() && held == NONE
      modifies this`views, this`pending, this`scanning, this`rescan, this`rings
      ensures Valid() && !HasPending() && views == Forgotten(old(views), selected)
    {
      ForgetRows(selected);
      EmptyQueues();
    }

    method ForgetRows(selected: set<nat>)
      requires Valid() && held == NONE
      modifies this`views, this`pending
      ensures Valid() && views == Forgotten(old(views), selected) && pending == []
    {
      views, pending := Forgotten(views, selected), [];
    }

    method EmptyQueues()
      requires Valid() && pending == []
      modifies this`scanning, this`rescan, this`rings
      ensures Valid() && !HasPending() && |rings| == |old(rings)|
    {
      rings, scanning, rescan := Emptied(rings), false, false;
    }

    /** With nothing pending, what is safe is what has been seen. */
    lemma SafeExactly()
      requires Valid() && held == NONE && AllIdle() && !HasPending()
      ensures AllSafe(false) <==> forall r | 0 <= r < |rows| :: views[r].seen == rows[r].committed
    {
      if AllSafe(false) { NothingPendingNothingMissed(); }
      forall r | 0 <= r < |rows| && views[r].seen == rows[r].committed ensures Safe(r, false) {}
    }
  }

  /** A ring after one push, or with its overflow flag raised. */
  function Told(ring: RingMem, e: Entry, looksFull: bool): (r: RingMem)
    ensures RingLater(ring, r) && (e in r.unread || r.overflow)
    ensures forall x :: x in r.unread ==> x == e || x in ring.unread
    ensures forall x :: x in ring.unread ==> x in r.unread
  {
    if |ring.unread| < ring.capacity && !looksFull then
      ring.(unread := ring.unread + [e])
    else
      ring.(overflow := true)
  }

  function Forgotten(views: seq<View>, selected: set<nat>): (vs: seq<View>)
    ensures |vs| == |views| && forall r | 0 <= r < |vs| ::
              vs[r] == views[r].(queued := false, seen := if r in selected then NONE else views[r].seen)
  {
    seq(|views|, r requires 0 <= r < |views| =>
      views[r].(queued := false, seen := if r in selected then NONE else views[r].seen))
  }

  function Emptied(rings: seq<RingMem>): (rs: seq<RingMem>)
    ensures |rs| == |rings| && forall k | 0 <= k < |rs| :: rs[k] == RingMem(rings[k].capacity, [], false)
  {
    seq(|rings|, k requires 0 <= k < |rings| => rings[k].(unread := [], overflow := false))
  }

  /** Moving the start one ring on brings every ring but the one now served one turn closer. */
  lemma NextIsCloser(n: nat, at: nat, next: nat, k: nat)
    requires at < n && k < n && next == Turned(at, if n > 1 then 1 else 0, n) && k != Turned(at, n - 1, n)
    ensures Behind(Turned(next, n - 1, n), k, n) < Behind(Turned(at, n - 1, n), k, n)
  {
  }

  lemma MergedMore(before: seq<View>, after: seq<View>, entries: seq<Entry>, e: Entry)
    requires Merged(before, entries) && |before| == |after|
    requires forall r | 0 <= r < |before| && before[r].queued :: after[r].queued && before[r].hint <= after[r].hint
    requires e.Hint? ==> e.row < |after| && after[e.row].queued && e.pos <= after[e.row].hint
    ensures Merged(after, entries + [e])
  {
  }

  /** The first ring holding unread entries. */
  function FirstUnread(rings: seq<RingMem>): (k: nat)
    ensures k <= |rings|
  {
    if rings == [] || rings[0].unread != [] then 0 else 1 + FirstUnread(rings[1..])
  }

  lemma {:induction false} FirstUnreadFound(rings: seq<RingMem>)
    ensures FirstUnread(rings) < |rings| ==> rings[FirstUnread(rings)].unread != []
    ensures FirstUnread(rings) == |rings| ==> forall k | 0 <= k < |rings| :: rings[k].unread == []
  {
    if rings != [] && rings[0].unread == [] {
      FirstUnreadFound(rings[1..]);
      assert forall k | 0 < k < |rings| :: rings[k] == rings[1..][k - 1];
    }
  }

  lemma {:induction false} SameUnread(a: seq<RingMem>, b: seq<RingMem>)
    requires |a| == |b| && forall k | 0 <= k < |a| :: a[k].unread == b[k].unread
    ensures FirstUnread(a) == FirstUnread(b) && UnreadTotal(a) == UnreadTotal(b)
  {
    if a != [] {
      SameUnread(a[1..], b[1..]);
    }
  }

  /** A rescan that runs goes on, and another one stays owed; otherwise an owed one starts at row 0. */
  ghost predicate RescanSet(from: Rescan, owed: bool, to: Rescan, owing: bool) {
    && to.rows == from.rows
    && (from.running ==> to == from && owing == owed)
    && (!from.running ==> to.running == (owed && to.rows > 0) && !owing && (to.running ==> to.at == 0))
  }

  /** A rescan that runs is carried on where it stands; otherwise one may start at row 0, and an owed one does. */
  ghost predicate Started(before: Rescan, now: Rescan, owed: bool) {
    && now.rows == before.rows
    && (before.running ==> now == before)
    && (!before.running ==> (now.running ==> now.at == 0) && (owed && now.rows > 0 ==> now.running))
  }

  /** While a rescan runs, hints take at most half of the budget; the rescan gets everything that they leave. */
  ghost predicate Served(before: Rescan, now: Rescan, budget: nat, queue: seq<nat>, left: seq<nat>) {
    && HintsTaken(queue, left, if before.running then budget / 2 else budget)
    && now.rows == before.rows
    && now.running == (before.running && before.at + budget - Min(|queue|, budget / 2) < now.rows)
    && (now.running ==> now.at == before.at + budget - Min(|queue|, budget / 2))
  }

  /** What one poll does for the rescan and for the hints that were queued before it. */
  ghost predicate Shared(before: Rescan, now: Rescan, budget: nat, owed: bool, queue: seq<nat>, left: seq<nat>) {
    && now.rows == before.rows
    && (before.running ==> HalfEach(before.at, now, budget, queue, left))
    && (!before.running && (now.running || (owed && now.rows > 0)) ==> HalfEach(0, now, budget, queue, left))
    && (HintsTaken(queue, left, budget / 2) || (!before.running && HintsTaken(queue, left, budget)))
  }

  /** A rescan went on from row `at` by at least half of the budget, and queued hints took at most the other half. */
  ghost predicate HalfEach(at: nat, now: Rescan, budget: nat, queue: seq<nat>, left: seq<nat>) {
    && HintsTaken(queue, left, budget / 2)
    && (now.running ==> at + budget - budget / 2 <= now.at <= at + budget - Min(|queue|, budget / 2))
    && (!now.running ==> now.rows <= at + budget - Min(|queue|, budget / 2))
  }

  lemma SharedByBoth(before: Rescan, started: Rescan, now: Rescan, budget: nat, owed: bool, queue: seq<nat>, gathered: seq<nat>, left: seq<nat>)
    requires Started(before, started, owed) && queue <= gathered && Served(started, now, budget, gathered, left)
    ensures Shared(before, now, budget, owed, queue, left)
  {
    HintsBehind(queue, gathered, left, if started.running then budget / 2 else budget);
  }

  /** What the rings, the rescan and an owed rescan still hold for the reader. */
  ghost function Ahead(rings: seq<RingMem>, scan: Rescan, owed: bool): nat
    requires scan.running ==> scan.at < scan.rows
  {
    2 * UnreadTotal(rings) + scan.Left()
    + (if owed then scan.rows + 1 else 0) + (if AnyOverflow(rings) then scan.rows + 2 else 0)
  }

  lemma AheadBySteps(rings: seq<RingMem>, before: Rescan, now: Rescan, owed: bool)
    requires (before.running ==> before.at < before.rows) && (now.running ==> now.at < now.rows) && before.rows == now.rows
    ensures Ahead(rings, now, owed) + before.Left() == Ahead(rings, before, owed) + now.Left()
  {
  }

  /** The drain loop starting at ring `at` took nothing; the next one starts one ring later. */
  ghost predicate OutOfReach(before: seq<RingMem>, now: seq<RingMem>, at: nat, next: nat) {
    && |now| == |before|
    && (forall k | 0 <= k < |now| :: now[k].unread == before[k].unread && !now[k].overflow)
    && (now != [] ==>
          && at < |now| && next == Turned(at, if |now| > 1 then 1 else 0, |now|)
          && now[Turned(at, |now| - 1, |now|)].unread == [])
  }

  /** Draining `total` entries, of which each becomes at most one queued hint, leaves less to do unless nothing happened. */
  lemma DrainingIsProgress(before: seq<RingMem>, now: seq<RingMem>, cursor: nat, total: nat, overflowed: bool, fair: nat,
                           from: Rescan, owed: bool, to: Rescan, owing: bool, next: nat)
    requires |now| == |before| && (before == [] || cursor < |before|)
    requires Drained(before, now, cursor, |before|, total, overflowed, fair)
    requires RescanSet(from, owed || overflowed, to, owing) && (from.running ==> from.at < from.rows)
    requires before != [] && before[Turned(cursor, |before| - 1, |before|)].unread != [] ==> total > 0
    requires before != [] ==> next == Turned(cursor, if |before| > 1 then 1 else 0, |before|)
    ensures forall k | 0 <= k < |now| :: RingServed(before[k], now[k], fair)
    ensures !AnyOverflow(now) && Ahead(now, to, owing) + total <= Ahead(before, from, owed)
    ensures Ahead(now, to, owing) + total == Ahead(before, from, owed) ==>
              total == 0 && OutOfReach(before, now, cursor, next)
  {
  }

  /** So many of the oldest hints have left the queue; the others keep their order, and new ones come behind them. */
  ghost predicate HintsTaken(before: seq<nat>, now: seq<nat>, count: nat) {
    count < |before| ==> before[count..] <= now
  }

  lemma HintsBehind(before: seq<nat>, between: seq<nat>, now: seq<nat>, count: nat)
    requires before <= between && HintsTaken(between, now, count)
    ensures HintsTaken(before, now, count)
  {
    if |before| > count {
      assert before[count..] <= between[count..];
    }
  }

  lemma NextInLine(queue: seq<nat>, i: nat, now: seq<nat>)
    requires i < |queue| && queue[i..] <= now
    ensures queue[i + 1..] <= now[1..] && now != []
  {
  }

  ghost predicate AnyOverflow(rings: seq<RingMem>) {
    exists k | 0 <= k < |rings| :: rings[k].overflow
  }

  /** Counters modulo n, for an index less than n away. */
  function Turned(cursor: nat, offset: nat, n: nat): (k: nat)
    requires cursor < n && offset < n
    ensures k < n && k == (cursor + offset) % n
  {
    TurnedIsModulo(cursor, offset, n);
    if cursor + offset < n then cursor + offset else cursor + offset - n
  }

  lemma TurnedIsModulo(cursor: nat, offset: nat, n: nat)
    requires cursor < n && offset < n
    ensures (cursor + offset) % n == if cursor + offset < n then cursor + offset else cursor + offset - n
  {
    if cursor + offset < n {
      SameResidue(n, cursor + offset, 0, cursor + offset);
    } else {
      SameResidue(n, cursor + offset, 1, cursor + offset - n);
    }
  }

  /** How many rings after the cursor ring k comes. */
  function Behind(cursor: nat, k: nat, n: nat): nat
    requires cursor < n && k < n
  {
    if k >= cursor then k - cursor else k + n - cursor
  }

  /** `total` entries have left the first `offset` rings after the cursor, `fair` of each if it had them; the others are untouched. */
  ghost predicate Drained(before: seq<RingMem>, now: seq<RingMem>, cursor: nat, offset: nat, total: nat, overflowed: bool, fair: nat)
    requires |now| == |before| && (before == [] || cursor < |before|)
  {
    && UnreadTotal(now) + total == UnreadTotal(before)
    && (forall k | 0 <= k < |now| ::
          if Behind(cursor, k, |now|) < offset then RingServed(before[k], now[k], fair) else now[k] == before[k])
    && (overflowed ==> exists k | 0 <= k < |before| :: before[k].overflow)
    && (total == 0 ==> forall k | 0 <= k < |now| :: now[k].unread == before[k].unread)
  }

  /** The next ring gives up so many entries and its overflow flag. */
  lemma DrainedMore(start: seq<RingMem>, before: seq<RingMem>, now: seq<RingMem>, cursor: nat, offset: nat, total: nat, overflow: bool, count: nat, overflowed: bool, fair: nat)
    requires |start| == |before| == |now| && offset < |start| && cursor < |start| && Drained(start, before, cursor, offset, total, overflow, fair)
    requires var k := Turned(cursor, offset, |start|);
             && Min(|before[k].unread|, fair) <= count <= |before[k].unread| && now == before[k := before[k].(overflow := false, unread := before[k].unread[count..])]
             && overflowed == (overflow || before[k].overflow)
    ensures Drained(start, now, cursor, offset + 1, total + count, overflowed, fair)
  {
    var k := Turned(cursor, offset, |start|);
    UnreadUpdated(before, k, now[k]);
    assert count == 0 ==> now[k].unread == before[k].unread;
  }

  /** An even share of the budget for each of n rings, counted off in rounds. */
  ghost function FairShare(budget: nat, n: nat): (share: nat)
  {
    if n == 0 || budget < n then 0 else 1 + FairShare(budget - n, n)
  }

  lemma {:induction false} SharesFit(budget: nat, n: nat)
    ensures n * FairShare(budget, n) <= budget
    ensures n > 0 ==> budget < n * FairShare(budget, n) + n
  {
    if n > 0 && budget >= n {
      SharesFit(budget - n, n);
    }
  }

  lemma TimesKeepsOrder(n: nat, a: nat, b: nat)
    requires a <= b
    ensures n * a <= n * b
  {
    assert n * b == n * a + n * (b - a);
  }

  /** Dividing by the number left gives at least any share that would have been enough for all of them. */
  lemma ShareIsFair(share: nat, rest: nat, left: nat, fair: nat)
    requires left > 0 && rest < left && left * share + rest >= left * fair
    ensures fair <= share <= left * share && left * share + rest - share >= (left - 1) * fair
  {
    assert left * (share + 1) == left * share + left;
    if share < fair {
      TimesKeepsOrder(left, share + 1, fair);
    }
    TimesKeepsOrder(left - 1, fair, share);
    assert left * share == share + (left - 1) * share;
  }

  lemma EvenShareIsFair(n: nat, left: nat, fair: nat)
    requires left > 0 && n >= left * fair
    ensures fair <= n / left <= n && n - n / left >= (left - 1) * fair && (left == 1 ==> n / left == n)
  {
    var share, rest := n / left, n % left;
    assert n == left * share + rest;
    ShareIsFair(share, rest, left, fair);
  }

  ghost predicate RingServed(before: RingMem, now: RingMem, fair: nat) {
    !now.overflow && |now.unread| <= |before.unread| - Min(|before.unread|, fair)
  }

  /** However many entries the other rings hold, each ring gives up all of its entries or an even share of the budget. */
  ghost predicate RingsServed(before: seq<RingMem>, now: seq<RingMem>, budget: nat) {
    |now| == |before| && forall k | 0 <= k < |now| :: RingServed(before[k], now[k], FairShare(budget, |now|))
  }

  function UnreadTotal(rings: seq<RingMem>): nat {
    if rings == [] then 0 else |rings[0].unread| + UnreadTotal(rings[1..])
  }

  lemma {:induction false} UnreadUpdated(rings: seq<RingMem>, k: nat, r: RingMem)
    requires k < |rings|
    ensures UnreadTotal(rings[k := r]) + |rings[k].unread| == UnreadTotal(rings) + |r.unread|
  {
    if k > 0 {
      UnreadUpdated(rings[1..], k - 1, r);
      assert rings[k := r][1..] == rings[1..][k - 1 := r];
    }
  }

  ghost predicate Merged(views: seq<View>, entries: seq<Entry>) {
    forall e | e in entries && e.Hint? :: e.row < |views| && views[e.row].queued && e.pos <= views[e.row].hint
  }

  ghost predicate RowLater(a: Row, b: Row) {
    && a.committed <= b.committed
    && forall p | p in a.published :: p in b.published && (p <= a.committed ==> b.published[p] == a.published[p])
  }

  ghost predicate RingLater(a: RingMem, b: RingMem) {
    a.capacity == b.capacity && a.unread <= b.unread && (a.overflow ==> b.overflow)
  }
}
