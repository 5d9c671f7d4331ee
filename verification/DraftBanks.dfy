/** Reserved draft sessions on the two banks of the block manager: reserve, import, compute, lease and retire. */
module DraftBanks {
  import opened Wrappers
  import opened Sorting
  import opened BlockMath
  import opened Banks
  import opened BankManager
  import opened DraftSessions

  datatype Item = Item(key: Key, blocks: nat, length: nat, version: nat)

  datatype Batch = Batch(bankId: nat, epoch: nat, seqNo: nat, items: seq<Item>, locations: seq<Location>, restored: bool) {
    predicate Has(k: Key) { exists i | 0 <= i < |items| :: items[i].key == k }

    function IndexOf(k: Key): (i: nat)
      requires Has(k)
      ensures i < |items| && items[i].key == k
    {
      Find(items, k)
    }
  }

  /** The first item with the key, or the number of items. */
  function Find(items: seq<Item>, k: Key): (i: nat)
    ensures i <= |items| && (i < |items| ==> items[i].key == k) && (i == |items| ==> forall j | 0 <= j < |items| :: items[j].key != k)
  {
    if items == [] || items[0].key == k then 0 else 1 + Find(items[1..], k)
  }

  datatype Lease = Lease(bankId: nat, epoch: nat, seqNo: nat, sequence: nat)

  /** The batch name under which the manager knows a batch. */
  function Name(n: nat): string {
    if n < 10 then ["0123456789"[n]] else Name(n / 10) + ["0123456789"[n % 10]]
  }

  // ---- What always holds ----

  /** The bank holds exactly the batch's ranges, one for each item. */
  ghost predicate Holds(c: Config, bank: Bank, b: Batch) {
    && |b.items| == |b.locations| > 0 && bank.epoch == b.epoch && bank.batch == Some(Name(b.seqNo))
    && (forall i | 0 <= i < |b.items| :: HoldsItem(c, bank, b, i))
    && (forall r | r in bank.ranges :: exists i | 0 <= i < |b.locations| :: b.locations[i].row == r)
    && (forall i, j | 0 <= i < j < |b.items| :: b.items[i].key != b.items[j].key && b.locations[i].row != b.locations[j].row)
  }

  ghost predicate HoldsItem(c: Config, bank: Bank, b: Batch, i: nat)
    requires i < |b.items| == |b.locations|
  {
    var l := b.locations[i];
    && l.row in bank.ranges && 0 <= l.row < c.rows && b.items[i].blocks == l.blocks == bank.ranges[l.row].blocks
    && bank.ranges[l.row].start == l.start
  }

  /** The adapter's own state. */
  datatype Desk = Desk(batches: map<nat, Batch>, ready: set<nat>, consumed: set<nat>, computing: Option<nat>,
                       leases: set<Lease>, sessions: map<Key, Session>, free: seq<int>)

  /** Each bank with a batch is its batch's, and a bank without one is empty. */
  ghost predicate Owned(c: Config, s: State, d: Desk)
    requires |s.banks| == 2
  {
    && (forall id | id in d.batches :: id < 2 && d.batches[id].bankId == id && Holds(c, s.banks[id], d.batches[id]))
    && forall id | 0 <= id < 2 && id !in d.batches :: s.banks[id].ranges == map[]
  }

  /** No bank is both computing and leased, none is leased twice, and only ready batches compute. */
  ghost predicate Flags(d: Desk) {
    && d.ready <= d.batches.Keys && d.consumed <= d.ready && (d.computing.Some? ==> d.computing.value in d.consumed)
    && (forall l | l in d.leases :: l.bankId in d.batches && d.computing != Some(l.bankId) && l.epoch == d.batches[l.bankId].epoch)
    && forall l, m | l in d.leases && m in d.leases && l.bankId == m.bankId :: l == m
  }

  /** Free rows are exactly the rows that no live batch has. */
  ghost predicate RowsSplit(c: Config, s: State, free: seq<int>)
    requires |s.banks| == 2
  {
    NoDup(free) && forall r :: r in free <==> 0 <= r < c.rows && !Live(s, r)
  }

  /** A key is in at most one bank. */
  ghost predicate KeysApart(d: Desk) {
    forall a, b, k | a in d.batches && b in d.batches && d.batches[a].Has(k) && d.batches[b].Has(k) :: a == b
  }

  /** A batch that is not restored brings no cells. */
  ghost predicate Imports(d: Desk) {
    forall id | id in d.batches && !d.batches[id].restored :: NothingImported(d.batches[id])
  }

  ghost predicate NothingImported(b: Batch) {
    forall i | 0 <= i < |b.items| :: b.items[i].length == 0
  }

  /** How long the item's cells are: as its session says, or as imported. */
  function LengthOf(d: Desk, item: Item): nat {
    if item.key in d.sessions then d.sessions[item.key].length else item.length
  }

  ghost predicate Counted(c: Config, s: State, d: Desk, b: Batch, i: nat)
    requires i < |b.items| && |b.items| == |b.locations| && c.blockSize > 0
  {
    var row := b.locations[i].row;
    && 0 <= row < |s.counts| && s.counts[row] == Blocks(LengthOf(d, b.items[i]), c.blockSize)
    && (b.items[i].key in d.sessions ==> d.sessions[b.items[i].key].row == row)
  }

  /** Sessions belong to batches that have begun. */
  ghost predicate SessionsPlaced(d: Desk) {
    forall k | k in d.sessions :: exists id | id in d.consumed && id in d.batches :: d.batches[id].Has(k)
  }

  /** The block table covers exactly the cells of the sessions. */
  ghost predicate AllCounted(c: Config, s: State, d: Desk) {
    && c.blockSize > 0 && (forall id | id in d.batches :: |d.batches[id].items| == |d.batches[id].locations|)
    && forall id, i | id in d.batches && 0 <= i < |d.batches[id].items| :: Counted(c, s, d, d.batches[id], i)
  }

  ghost predicate DeskOk(c: Config, s: State, d: Desk) {
    && |s.banks| == 2 && |s.counts| == c.rows && Owned(c, s, d) && Flags(d) && RowsSplit(c, s, d.free) && KeysApart(d) && Imports(d)
    && SessionsPlaced(d) && AllCounted(c, s, d)
  }

  /** No session is longer than the capacity reserved for it. */
  lemma WithinReservation(c: Config, s: State, d: Desk, id: nat, i: nat)
    requires Inv(c, s) && DeskOk(c, s, d) && id in d.batches && i < |d.batches[id].items| && d.batches[id].items[i].key in d.sessions
    ensures var b := d.batches[id]; d.sessions[b.items[i].key].length <= Span(b.items[i].blocks, c.blockSize)
  {
    var b := d.batches[id];
    var row, length := b.locations[i].row, d.sessions[b.items[i].key].length;
    assert HoldsItem(c, s.banks[id], b, i) && Counted(c, s, d, b, i) && Mapped(s.banks[id].ranges[row], s.counts, s.table);
    assert Placed(c, s.banks[id], id, row);
    BlocksCover(length, c.blockSize);
    SpanGrows(Blocks(length, c.blockSize), b.items[i].blocks, c.blockSize);
  }

  /** Free rows and the rows of live batches are all rows. */
  lemma RowsOnce(c: Config, s: State, d: Desk, r: int)
    requires DeskOk(c, s, d) && 0 <= r < c.rows
    ensures r !in d.free <==> exists id, i | id in d.batches && 0 <= i < |d.batches[id].locations| :: d.batches[id].locations[i].row == r
  {
    forall id, i | id in d.batches && 0 <= i < |d.batches[id].locations|
      ensures d.batches[id].locations[i].row in s.banks[id].ranges
    {
      assert HoldsItem(c, s.banks[id], d.batches[id], i);
    }
    if r in s.banks[0].ranges {
      var i :| 0 <= i < |d.batches[0].locations| && d.batches[0].locations[i].row == r;
    } else if r in s.banks[1].ranges {
      var i :| 0 <= i < |d.batches[1].locations| && d.batches[1].locations[i].row == r;
    }
  }

  /** No row belongs to two items. */
  lemma RowsApart(c: Config, s: State, d: Desk, a: nat, i: nat, b: nat, j: nat)
    requires |s.banks| == 2 && Owned(c, s, d) && (forall r | r in s.banks[0].ranges :: r !in s.banks[1].ranges) && a in d.batches && b in d.batches && i < |d.batches[a].locations| && j < |d.batches[b].locations|
    ensures d.batches[a].locations[i].row == d.batches[b].locations[j].row ==> a == b && i == j
  {
    assert HoldsItem(c, s.banks[a], d.batches[a], i) && HoldsItem(c, s.banks[b], d.batches[b], j);
  }

  // ---- Reserving ----

  function SumBlocks(items: seq<Item>, n: nat): nat
    requires n <= |items|
  {
    if n == 0 then 0 else SumBlocks(items, n - 1) + items[n - 1].blocks
  }

  function RequestFor(row: int, item: Item, seqNo: nat): Request {
    Request(row, item.blocks, Some(item.length), item.version, Some(Name(seqNo)))
  }

  lemma {:induction false} TotalIsSum(requests: seq<Request>, items: seq<Item>, n: nat)
    requires n <= |requests| == |items| && forall i | 0 <= i < |items| :: requests[i].blocks == items[i].blocks
    ensures Total(requests, n) == SumBlocks(items, n)
  {
    if n > 0 { TotalIsSum(requests, items, n - 1); }
  }

  lemma LastBatch(batch: Option<string>, requests: seq<Request>, name: string)
    requires requests != [] && forall i | 0 <= i < |requests| :: requests[i].batch == Some(name)
    ensures BatchAfter(batch, requests, |requests|) == Some(name)
  {
  }

  /** The items that a bank can take: each fits a table line and its own reservation, and together they fit the bank. */
  ghost predicate Reservable(c: Config, items: seq<Item>) {
    && items != [] && c.blockSize > 0 && SumBlocks(items, |items|) <= c.bankSize
    && (forall i | 0 <= i < |items| :: items[i].blocks <= c.width && Blocks(items[i].length, c.blockSize) <= items[i].blocks)
    && forall i, j | 0 <= i < j < |items| :: items[i].key != items[j].key
  }

  ghost predicate Unused(c: Config, s: State, rows: seq<int>)
    requires |s.banks| == 2
  {
    && (forall i | 0 <= i < |rows| :: 0 <= rows[i] < c.rows && !Live(s, rows[i]))
    && forall i, j | 0 <= i < j < |rows| :: rows[i] != rows[j]
  }

  /** What reserving the rows for the items does to the manager. */
  ghost predicate ReservedFor(c: Config, s: State, now: State, rows: seq<int>, b: Batch) {
    && |s.banks| == |now.banks| == 2 && b.bankId < 2 && now.banks[1 - b.bankId] == s.banks[1 - b.bankId] && c.blockSize > 0
    && Holds(c, now.banks[b.bankId], b) && |rows| == |b.locations| && |s.counts| == |now.counts| == c.rows
    && (forall i | 0 <= i < |rows| :: b.locations[i].row == rows[i] && 0 <= rows[i] < c.rows && now.counts[rows[i]] == Blocks(b.items[i].length, c.blockSize))
    && forall r | 0 <= r < c.rows && r !in rows :: now.counts[r] == s.counts[r]
  }

  lemma ExposeKeeps(c: Config, s: State, id: nat, l: Location, n: nat)
    requires Inv(c, s) && id < 2 && l.row in s.banks[id].ranges && s.banks[id].ranges[l.row] == l && n <= l.blocks
    ensures 0 <= l.row < c.rows && l.blocks <= c.width && Inv(c, Remap(s, l, n))
    ensures l.bankId == id && l.epoch == s.banks[id].epoch && l.base == s.banks[id].base && l.start + l.blocks <= s.banks[id].size
  {
    assert Placed(c, s.banks[id], id, l.row);
    assert s.banks[id].ranges[l.row := l] == s.banks[id].ranges;
    assert WithRange(s, id, l.row, l) == s;
    UpdateKeeps(c, s, id, l, n);
  }

  /** The first n rows cover what their items bring, the others are as they were. */
  ghost predicate Exposed(c: Config, s: State, now: State, items: seq<Item>, locations: seq<Location>, n: nat)
    requires n <= |items| == |locations| && c.blockSize > 0
  {
    && now.banks == s.banks && |now.counts| == |s.counts|
    && (forall i | 0 <= i < n :: 0 <= locations[i].row < |now.counts| && now.counts[locations[i].row] == Blocks(items[i].length, c.blockSize))
    && forall r | 0 <= r < |now.counts| && (forall i | 0 <= i < n :: locations[i].row != r) :: now.counts[r] == s.counts[r]
  }

  lemma ExposedMore(c: Config, s: State, now: State, items: seq<Item>, locations: seq<Location>, n: nat)
    requires n < |items| == |locations| && c.blockSize > 0 && Exposed(c, s, now, items, locations, n)
    requires 0 <= locations[n].row < |now.counts| == |now.table| && Blocks(items[n].length, c.blockSize) <= |now.table[locations[n].row]|
    requires forall i, j | 0 <= i < j < |locations| :: locations[i].row != locations[j].row
    ensures Exposed(c, s, Remap(now, locations[n], Blocks(items[n].length, c.blockSize)), items, locations, n + 1)
  {
    var next := Remap(now, locations[n], Blocks(items[n].length, c.blockSize));
    forall r | 0 <= r < |next.counts| && (forall i | 0 <= i < n + 1 :: locations[i].row != r) ensures next.counts[r] == s.counts[r] {
      assert locations[n].row != r && forall i | 0 <= i < n :: locations[i].row != r;
    }
  }

  ghost predicate AsGranted(bank: Bank, b: Batch) {
    forall i | 0 <= i < |b.locations| :: b.locations[i].row in bank.ranges && bank.ranges[b.locations[i].row] == b.locations[i]
  }

  /** The manager takes these requests. */
  lemma {:induction false} Acceptable(c: Config, s: State, id: nat, rows: seq<int>, items: seq<Item>, requests: seq<Request>, seqNo: nat)
    requires Inv(c, s) && id < 2 && Reservable(c, items) && Unused(c, s, rows)
    requires |rows| == |items| == |requests| && forall i | 0 <= i < |rows| :: requests[i] == RequestFor(rows[i], items[i], seqNo)
    ensures forall i | 0 <= i < |requests| :: Sane(c, requests[i]) && requests[i].row !in s.banks[0].ranges && requests[i].row !in s.banks[1].ranges
    ensures forall i, j | 0 <= i < j < |requests| :: requests[i].row != requests[j].row
    ensures Total(requests, |requests|) <= s.banks[id].size
  {
    TotalIsSum(requests, items, |items|);
  }

  /** The i-th location is the i-th row's, for its item, and the bank has it. */
  ghost predicate Gives(c: Config, bank: Bank, rows: seq<int>, items: seq<Item>, locations: seq<Location>, i: nat)
    requires i < |rows| == |items| == |locations|
  {
    var l := locations[i];
    l.row == rows[i] && 0 <= l.row < c.rows && l.blocks == items[i].blocks && l.row in bank.ranges && bank.ranges[l.row] == l
  }

  lemma GrantGives(c: Config, s: State, mid: State, id: nat, rows: seq<int>, items: seq<Item>, requests: seq<Request>, seqNo: nat,
                   locations: seq<Location>, i: nat)
    requires i < |rows| == |items| == |requests| && |mid.counts| == c.rows && requests[i] == RequestFor(rows[i], items[i], seqNo)
    requires Applied(s, mid, id, requests, |requests|, locations)
    ensures Gives(c, mid.banks[id], rows, items, locations, i)
  {
    assert Granted(s, mid, id, requests, i, locations[i]);
  }

  lemma GrantCovers(s: State, mid: State, id: nat, requests: seq<Request>, locations: seq<Location>, r: int)
    requires Applied(s, mid, id, requests, |requests|, locations) && s.banks[id].ranges == map[] && r in mid.banks[id].ranges
    ensures exists k | 0 <= k < |requests| :: requests[k].row == r
  {
  }

  lemma GrantLines(s: State, mid: State, id: nat, rows: seq<int>, requests: seq<Request>, locations: seq<Location>, r: int)
    requires Applied(s, mid, id, requests, |requests|, locations) && |rows| == |requests| && 0 <= r < |s.counts| && r !in rows
    requires forall k | 0 <= k < |rows| :: requests[k].row == rows[k]
    ensures |mid.counts| == |s.counts| && mid.counts[r] == s.counts[r]
  {
    assert r !in NamedRows(requests, |requests|);
  }

  /** What the manager grants, item by item. */
  lemma GrantFacts(c: Config, s: State, mid: State, id: nat, rows: seq<int>, items: seq<Item>, requests: seq<Request>, seqNo: nat,
                   locations: seq<Location>)
    requires |s.banks| == 2 && id < 2 && |s.counts| == |mid.counts| == c.rows && items != []
    requires |rows| == |items| == |requests| && forall i | 0 <= i < |rows| :: requests[i] == RequestFor(rows[i], items[i], seqNo)
    requires Applied(Emptied(s, id), mid, id, requests, |requests|, locations)
    ensures |locations| == |items| && forall i | 0 <= i < |rows| :: Gives(c, mid.banks[id], rows, items, locations, i)
    ensures forall r | r in mid.banks[id].ranges :: r in rows
    ensures |mid.banks| == 2 && mid.banks[id].epoch == s.banks[id].epoch + 1 && mid.banks[id].batch == Some(Name(seqNo))
    ensures mid.banks[1 - id] == s.banks[1 - id] && forall r | 0 <= r < c.rows && r !in rows :: mid.counts[r] == s.counts[r]
  {
    var empty := Emptied(s, id);
    forall i | 0 <= i < |rows| ensures Gives(c, mid.banks[id], rows, items, locations, i) {
      GrantGives(c, empty, mid, id, rows, items, requests, seqNo, locations, i);
    }
    forall r | r in mid.banks[id].ranges ensures r in rows {
      GrantCovers(empty, mid, id, requests, locations, r);
      var k :| 0 <= k < |requests| && requests[k].row == r;
      assert rows[k] == r;
    }
    forall r | 0 <= r < c.rows && r !in rows ensures mid.counts[r] == s.counts[r] {
      GrantLines(empty, mid, id, rows, requests, locations, r);
    }
    LastBatch(None, requests, Name(seqNo));
  }

  /** What is granted is what the batch should hold. */
  lemma GrantsHold(c: Config, bank: Bank, rows: seq<int>, b: Batch)
    requires |rows| == |b.items| == |b.locations| > 0 && bank.epoch == b.epoch && bank.batch == Some(Name(b.seqNo))
    requires forall i | 0 <= i < |rows| :: Gives(c, bank, rows, b.items, b.locations, i)
    requires forall r | r in bank.ranges :: r in rows
    requires forall i, j | 0 <= i < j < |rows| :: rows[i] != rows[j] && b.items[i].key != b.items[j].key
    ensures Holds(c, bank, b) && AsGranted(bank, b)
  {
    forall i | 0 <= i < |rows|
      ensures b.locations[i].row == rows[i] && HoldsItem(c, bank, b, i) && bank.ranges[b.locations[i].row] == b.locations[i]
    {
      assert Gives(c, bank, rows, b.items, b.locations, i);
    }
  }

  /** The manager's locations and the exposed prefixes make the batch's reservation. */
  lemma ReservationDone(c: Config, s: State, mid: State, now: State, rows: seq<int>, b: Batch)
    requires |s.banks| == |mid.banks| == 2 && c.blockSize > 0 && b.bankId < 2 && mid.banks[1 - b.bankId] == s.banks[1 - b.bankId]
    requires Holds(c, mid.banks[b.bankId], b) && |rows| == |b.items| && forall i | 0 <= i < |rows| :: b.locations[i].row == rows[i]
    requires |s.counts| == |mid.counts| == c.rows && forall r | 0 <= r < c.rows && r !in rows :: mid.counts[r] == s.counts[r]
    requires Exposed(c, mid, now, b.items, b.locations, |b.items|)
    ensures ReservedFor(c, s, now, rows, b)
  {
    forall i | 0 <= i < |rows| ensures 0 <= rows[i] < c.rows { assert HoldsItem(c, mid.banks[b.bankId], b, i); }
    forall r | 0 <= r < c.rows && r !in rows ensures now.counts[r] == s.counts[r] {
      assert forall i | 0 <= i < |rows| :: b.locations[i].row != r;
    }
  }

  /** Rows taken from the end of the free list. */
  lemma RowsTaken(free: seq<int>, rows: seq<int>)
    requires NoDup(free) && |rows| <= |free| && forall i | 0 <= i < |rows| :: rows[i] == free[|free| - 1 - i]
    ensures var rest := free[..|free| - |rows|];
            && NoDup(rest) && (forall r :: r in rest <==> r in free && r !in rows) && (forall r | r in rows :: r in free)
    ensures forall i, j | 0 <= i < j < |rows| :: rows[i] != rows[j]
  {
    var n := |free| - |rows|;
    var rest, last := free[..n], free[n..];
    assert free == rest + last;
    NoDupSplit(rest, last);
    forall r ensures r in rows <==> r in last {
      if r in rows {
        var i :| 0 <= i < |rows| && rows[i] == r;
        assert last[|rows| - 1 - i] == r;
      }
      if r in last {
        var i :| 0 <= i < |last| && last[i] == r;
        assert rows[|rows| - 1 - i] == r;
      }
    }
    forall i, j | 0 <= i < j < |rows| ensures rows[i] != rows[j] { NoDupAt(free, |free| - 1 - j, |free| - 1 - i); }
  }

  /** The desk with a new batch on an empty bank. */
  function WithBatch(d: Desk, b: Batch, free: seq<int>): Desk {
    d.(batches := d.batches[b.bankId := b], ready := if b.restored then d.ready else d.ready + {b.bankId}, free := free)
  }

  lemma ReserveKeepsDesk(c: Config, s: State, now: State, d: Desk, rows: seq<int>, b: Batch, free: seq<int>)
    requires DeskOk(c, s, d) && b.bankId < 2 && b.bankId !in d.batches && ReservedFor(c, s, now, rows, b)
    requires Unused(c, s, rows) && NoDup(free) && forall r :: r in free <==> r in d.free && r !in rows
    requires !b.restored ==> NothingImported(b)
    requires forall i, id | 0 <= i < |b.items| && id in d.batches :: !d.batches[id].Has(b.items[i].key)
    ensures DeskOk(c, now, WithBatch(d, b, free))
  {
    BatchAddsRows(c, s, now, d.free, rows, b, free);
    BatchAddsKeys(d, b, free);
    BatchAddsSessions(c, s, now, d, rows, b, free);
    BatchAddsOwner(c, s, now, d, rows, b, free);
  }

  lemma BatchAddsRows(c: Config, s: State, now: State, before: seq<int>, rows: seq<int>, b: Batch, free: seq<int>)
    requires |s.banks| == 2 && RowsSplit(c, s, before) && b.bankId < 2 && ReservedFor(c, s, now, rows, b) && Unused(c, s, rows)
    requires s.banks[b.bankId].ranges == map[] && NoDup(free) && forall r :: r in free <==> r in before && r !in rows
    ensures RowsSplit(c, now, free)
  {
    forall r ensures Live(now, r) <==> Live(s, r) || r in rows { RowHeld(c, now.banks[b.bankId], b, rows, r); }
  }

  lemma BatchAddsOwner(c: Config, s: State, now: State, d: Desk, rows: seq<int>, b: Batch, free: seq<int>)
    requires |s.banks| == 2 && Owned(c, s, d) && Flags(d) && b.bankId < 2 && b.bankId !in d.batches && ReservedFor(c, s, now, rows, b)
    ensures Owned(c, now, WithBatch(d, b, free)) && Flags(WithBatch(d, b, free))
  {
    assert b.bankId == 0 || b.bankId == 1;
  }

  lemma BatchAddsKeys(d: Desk, b: Batch, free: seq<int>)
    requires KeysApart(d) && b.bankId !in d.batches
    requires forall i, id | 0 <= i < |b.items| && id in d.batches :: !d.batches[id].Has(b.items[i].key)
    ensures KeysApart(WithBatch(d, b, free))
  {
    assert forall k | b.Has(k) :: exists i | 0 <= i < |b.items| :: b.items[i].key == k;
  }

  lemma BatchAddsSessions(c: Config, s: State, now: State, d: Desk, rows: seq<int>, b: Batch, free: seq<int>)
    requires |s.banks| == 2 && Owned(c, s, d) && SessionsPlaced(d) && AllCounted(c, s, d) && |s.counts| == c.rows
    requires b.bankId < 2 && b.bankId !in d.batches && ReservedFor(c, s, now, rows, b) && Unused(c, s, rows)
    requires forall i, id | 0 <= i < |b.items| && id in d.batches :: !d.batches[id].Has(b.items[i].key)
    ensures SessionsPlaced(WithBatch(d, b, free)) && AllCounted(c, now, WithBatch(d, b, free))
  {
    BatchKeepsPlaces(d, b, free);
    BatchCounts(c, s, now, d, rows, b, free);
  }

  ghost predicate LessRows(free: seq<int>, before: seq<int>, rows: seq<int>) {
    NoDup(free) && forall r :: r in free <==> r in before && r !in rows
  }

  ghost predicate KeysNew(d: Desk, items: seq<Item>) {
    forall i, id | 0 <= i < |items| && id in d.batches :: !d.batches[id].Has(items[i].key)
  }

  lemma BatchKeepsPlaces(d: Desk, b: Batch, free: seq<int>)
    requires SessionsPlaced(d) && b.bankId !in d.batches
    ensures SessionsPlaced(WithBatch(d, b, free))
  {
    var next := WithBatch(d, b, free);
    forall k | k in d.sessions ensures exists id | id in next.consumed && id in next.batches :: next.batches[id].Has(k) {
      var id :| id in d.consumed && id in d.batches && d.batches[id].Has(k);
      assert next.batches[id].Has(k);
    }
  }

  lemma BatchCounts(c: Config, s: State, now: State, d: Desk, rows: seq<int>, b: Batch, free: seq<int>)
    requires |s.banks| == 2 && Owned(c, s, d) && SessionsPlaced(d) && AllCounted(c, s, d) && |s.counts| == c.rows
    requires b.bankId < 2 && b.bankId !in d.batches && ReservedFor(c, s, now, rows, b) && Unused(c, s, rows)
    requires forall i, id | 0 <= i < |b.items| && id in d.batches :: !d.batches[id].Has(b.items[i].key)
    ensures AllCounted(c, now, WithBatch(d, b, free))
  {
    var next := WithBatch(d, b, free);
    forall id, i | id in next.batches && 0 <= i < |next.batches[id].items| ensures Counted(c, now, next, next.batches[id], i) {
      if id == b.bankId {
        NoSession(d, b, i);
      } else {
        assert Counted(c, s, d, d.batches[id], i) && HoldsItem(c, s.banks[id], d.batches[id], i);
        OtherCounted(c, s, now, d, rows, id, d.batches[id], i);
      }
    }
  }

  lemma OtherCounted(c: Config, s: State, now: State, d: Desk, rows: seq<int>, id: nat, b: Batch, i: nat)
    requires |s.banks| == 2 && id < 2 && i < |b.items| == |b.locations| && c.blockSize > 0
    requires Counted(c, s, d, b, i) && HoldsItem(c, s.banks[id], b, i) && Unused(c, s, rows)
    requires |now.counts| == |s.counts| == c.rows && forall r | 0 <= r < c.rows && r !in rows :: now.counts[r] == s.counts[r]
    ensures Counted(c, now, d, b, i)
  {
    var row := b.locations[i].row;
    assert Live(s, row) by { assert id == 0 || id == 1; }
    assert forall k | 0 <= k < |rows| :: rows[k] != row;
  }

  lemma RowHeld(c: Config, bank: Bank, b: Batch, rows: seq<int>, r: int)
    requires Holds(c, bank, b) && |rows| == |b.locations| && forall i | 0 <= i < |rows| :: b.locations[i].row == rows[i]
    ensures r in bank.ranges <==> r in rows
  {
    if r in rows {
      var i :| 0 <= i < |rows| && rows[i] == r;
      assert HoldsItem(c, bank, b, i);
    }
    if r in bank.ranges {
      var i :| 0 <= i < |b.locations| && b.locations[i].row == r;
      assert rows[i] == r;
    }
  }

  lemma NoSession(d: Desk, b: Batch, i: nat)
    requires SessionsPlaced(d) && i < |b.items| && forall j, id | 0 <= j < |b.items| && id in d.batches :: !d.batches[id].Has(b.items[j].key)
    ensures b.items[i].key !in d.sessions
  {
    forall id | id in d.batches ensures !d.batches[id].Has(b.items[i].key) {}
  }

  class DraftAdapter {
    const manager: BlockManager
    const lim: Limits
    /** Keys released by name; in bank mode nothing is. */
    const released: seq<Key>
    var batches: map<nat, Batch>
    var ready: set<nat>
    var consumed: set<nat>
    var computing: Option<nat>
    var leases: set<Lease>
    var leaseSeq: nat
    var sessions: map<Key, Session>
    var free: seq<int>
    /** Every bank and epoch that ever began to compute. */
    ghost var begun: set<(nat, nat)>

    ghost function Here(): Desk
      reads this
    {
      Desk(batches, ready, consumed, computing, leases, sessions, free)
    }

    ghost predicate Valid()
      reads this, manager
    {
      && manager.Valid() && DeskOk(manager.c, manager.Now(), Here()) && lim.rows == manager.c.rows
      && (computing.Some? ==> manager.active == computing.value) && BegunOk(manager.banks, Here(), begun)
    }

    constructor (manager: BlockManager, lim: Limits)
      requires manager.Valid() && manager.banks[0].ranges == manager.banks[1].ranges == map[] && lim.rows == manager.c.rows
      ensures Valid() && this.manager == manager && this.lim == lim && batches == map[] && sessions == map[] && computing == None
    {
      this.manager, this.lim, released := manager, lim, [];
      batches, ready, consumed, computing, leases, leaseSeq, sessions, begun := map[], {}, {}, None, {}, 0, map[], {};
      free := seq(lim.rows, i requires 0 <= i < lim.rows => lim.rows - 1 - i);
      new;
      NoDupByIndex(free);
      forall r | 0 <= r < lim.rows ensures r in free { assert free[lim.rows - 1 - r] == r; }
    }

    // ---- Reserving ----

    /** Everything that reserve_batch checks before it acquires anything. */
    ghost predicate MayReserve(items: seq<Item>, id: int, epoch: int, seqNo: int, restored: bool)
      reads this, manager
      requires |manager.banks| == 2
    {
      && 0 <= id < 2 && id !in batches && epoch == manager.banks[id].epoch + 1 && seqNo >= 0
      && !(computing.Some? && id == manager.active)
      && items != [] && |items| <= lim.maxBatch && |items| <= |free| && SumBlocks(items, |items|) <= manager.banks[id].size
      && (forall i, j | 0 <= i < j < |items| :: items[i].key != items[j].key)
      && (forall i | 0 <= i < |items| :: items[i].key !in released && ItemOk(items[i], restored))
      && forall i, b | 0 <= i < |items| && b in batches :: !batches[b].Has(items[i].key)
    }

    predicate ItemOk(item: Item, restored: bool) {
      && item.blocks <= manager.c.width && item.length <= lim.capacity && item.length <= Span(item.blocks, manager.c.blockSize)
      && if restored then item.length > 0 else item.length == 0 && item.version == 0
    }

    /** The identity and membership checks. */
    method CheckItems(items: seq<Item>, restored: bool) returns (ok: bool)
      ensures ok <==> (forall i, j | 0 <= i < j < |items| :: items[i].key != items[j].key)
                      && (forall i | 0 <= i < |items| :: items[i].key !in released && ItemOk(items[i], restored))
                      && forall i, b | 0 <= i < |items| && b in batches :: !batches[b].Has(items[i].key)
    {
      ok := true;
      var seen: set<Key> := {};
      for i := 0 to |items|
        invariant seen == set j | 0 <= j < i :: items[j].key
        invariant forall j, k | 0 <= j < k < i :: items[j].key != items[k].key
        invariant forall j | 0 <= j < i :: items[j].key !in released && ItemOk(items[j], restored)
        invariant forall j, b | 0 <= j < i && b in batches :: !batches[b].Has(items[j].key)
      {
        if items[i].key in seen || items[i].key in released || !ItemOk(items[i], restored) { return false; }
        if exists b | b in batches :: batches[b].Has(items[i].key) { return false; }
        seen := seen + {items[i].key};
      }
    }

    method Count(items: seq<Item>) returns (n: nat)
      ensures n == SumBlocks(items, |items|)
    {
      n := 0;
      for i := 0 to |items|
        invariant n == SumBlocks(items, i)
      {
        n := n + items[i].blocks;
      }
    }

    /** Rows come off the end of the free list. */
    method TakeRows(n: nat) returns (rows: seq<int>)
      requires n <= |free|
      modifies `free
      ensures |rows| == n && free == old(free)[..|old(free)| - n] && forall i | 0 <= i < n :: rows[i] == old(free)[|old(free)| - 1 - i]
    {
      rows := [];
      for i := 0 to n
        invariant |rows| == i && free == old(free)[..|old(free)| - i]
        invariant forall j | 0 <= j < i :: rows[j] == old(free)[|old(free)| - 1 - j]
      {
        rows, free := rows + [free[|free| - 1]], free[..|free| - 1];
      }
    }

    /** Reserve a range for every row in the emptied bank, and expose only the cells that are imported. */
    method ReserveRanges(id: nat, rows: seq<int>, items: seq<Item>, seqNo: nat, restored: bool) returns (b: Batch)
      requires manager.Valid() && id < 2 && manager.banks[id].ranges == map[] && |rows| == |items|
      requires Reservable(manager.c, items) && Unused(manager.c, manager.Now(), rows)
      modifies manager`banks, manager`counts, manager`table
      ensures manager.Valid() && ReservedFor(manager.c, old(manager.Now()), manager.Now(), rows, b)
      ensures b == Batch(id, old(manager.banks[id].epoch) + 1, seqNo, items, b.locations, restored)
    {
      ghost var s := manager.Now();
      var locations := GrantRanges(id, rows, items, seqNo);
      b := Batch(id, manager.banks[id].epoch, seqNo, items, locations, restored);
      ExposeGranted(s, rows, b);
    }

    method ExposeGranted(ghost s: State, rows: seq<int>, b: Batch)
      requires manager.Valid() && b.bankId < 2 && |rows| == |b.items| == |b.locations| && Reservable(manager.c, b.items)
      requires forall i | 0 <= i < |rows| :: Gives(manager.c, manager.banks[b.bankId], rows, b.items, b.locations, i)
      requires forall r | r in manager.banks[b.bankId].ranges :: r in rows
      requires manager.banks[b.bankId].epoch == b.epoch && manager.banks[b.bankId].batch == Some(Name(b.seqNo))
      requires forall i, j | 0 <= i < j < |rows| :: rows[i] != rows[j]
      requires |s.banks| == 2 && manager.banks[1 - b.bankId] == s.banks[1 - b.bankId] && |s.counts| == manager.c.rows
      requires forall r | 0 <= r < manager.c.rows && r !in rows :: manager.counts[r] == s.counts[r]
      modifies manager`counts, manager`table
      ensures manager.Valid() && ReservedFor(manager.c, s, manager.Now(), rows, b)
    {
      ghost var mid := manager.Now();
      GrantsHold(manager.c, mid.banks[b.bankId], rows, b);
      forall i | 0 <= i < |rows| ensures b.locations[i].row == rows[i] && b.locations[i].blocks == b.items[i].blocks {
        assert Gives(manager.c, mid.banks[b.bankId], rows, b.items, b.locations, i);
      }
      ExposeAll(b);
      ReservationDone(manager.c, s, mid, manager.Now(), rows, b);
    }

    /** The manager's part: the ranges, for the emptied bank's next epoch. */
    method GrantRanges(id: nat, rows: seq<int>, items: seq<Item>, seqNo: nat) returns (locations: seq<Location>)
      requires manager.Valid() && id < 2 && manager.banks[id].ranges == map[] && |rows| == |items|
      requires Reservable(manager.c, items) && Unused(manager.c, manager.Now(), rows)
      modifies manager`banks, manager`counts, manager`table
      ensures manager.Valid() && |locations| == |items|
      ensures forall i | 0 <= i < |rows| :: Gives(manager.c, manager.banks[id], rows, items, locations, i)
      ensures forall r | r in manager.banks[id].ranges :: r in rows
      ensures manager.banks[id].epoch == old(manager.banks[id].epoch) + 1 && manager.banks[id].batch == Some(Name(seqNo))
      ensures manager.banks[1 - id] == old(manager.banks[1 - id])
      ensures forall r | 0 <= r < manager.c.rows && r !in rows :: manager.counts[r] == old(manager.counts[r])
    {
      ghost var s := manager.Now();
      var requests := seq(|rows|, i requires 0 <= i < |rows| => RequestFor(rows[i], items[i], seqNo));
      Acceptable(manager.c, s, id, rows, items, requests, seqNo);
      var r := manager.ReserveBatch(id, requests, true);
      locations := r.value;
      GrantFacts(manager.c, s, manager.Now(), id, rows, items, requests, seqNo, locations);
    }

    method ExposeAll(b: Batch)
      requires manager.Valid() && b.bankId < 2 && Holds(manager.c, manager.banks[b.bankId], b)
      requires AsGranted(manager.banks[b.bankId], b)
      requires forall i | 0 <= i < |b.items| :: Blocks(b.items[i].length, manager.c.blockSize) <= b.locations[i].blocks
      modifies manager`counts, manager`table
      ensures manager.Valid() && Exposed(manager.c, old(manager.Now()), manager.Now(), b.items, b.locations, |b.items|)
    {
      ghost var start := manager.Now();
      for i := 0 to |b.items|
        invariant manager.Valid() && Exposed(manager.c, start, manager.Now(), b.items, b.locations, i)
      {
        var l, n := b.locations[i], Blocks(b.items[i].length, manager.c.blockSize);
        ExposeKeeps(manager.c, manager.Now(), b.bankId, l, n);
        ExposedMore(manager.c, start, manager.Now(), b.items, b.locations, i);
        manager.SetValidBlocks(l, n);
      }
    }

    /**
     * reserve_batch. Once its own checks pass, neither the row manager nor the block manager refuses: the fail-stop state is
     * not entered here, and nothing is half reserved.
     */
    method Reserve(items: seq<Item>, id: int, epoch: int, seqNo: int, restored: bool) returns (r: Result<Batch>)
      requires Valid()
      modifies `batches, `ready, `free, manager`banks, manager`counts, manager`table
      ensures Valid() && (r.Ok? <==> old(MayReserve(items, id, epoch, seqNo, restored)))
      ensures r.Err? ==> Here() == old(Here()) && manager.Now() == old(manager.Now())
      ensures r.Ok? ==>
                && r.value == Batch(id, epoch, seqNo, items, r.value.locations, restored)
                && Here() == WithBatch(old(Here()), r.value, old(free)[..|old(free)| - |items|])
                && manager.banks[1 - id] == old(manager.banks[1 - id])
    {
      var refused := Refusal(items, id, epoch, seqNo, restored);
      if refused != "" { return Err(refused); }
      CanReserve(manager.c, items);
      var b := Commit(items, id, seqNo, restored);
      r := Ok(b);
    }

    /** The checks in their order; the empty text means that nothing is wrong. */
    method Refusal(items: seq<Item>, id: int, epoch: int, seqNo: int, restored: bool) returns (why: string)
      requires Valid()
      ensures why == "" <==> MayReserve(items, id, epoch, seqNo, restored)
    {
      if !(0 <= id < 2) || id in batches || manager.banks[id].ranges != map[] { return "Draft Bank still owns a batch"; }
      if epoch != manager.banks[id].epoch + 1 || seqNo < 0 { return "Draft Bank epoch/batch fence mismatch"; }
      if computing.Some? && id == manager.active { return "cannot prepare the computing Bank"; }
      if items == [] || |items| > lim.maxBatch { return "invalid Draft reservation batch size"; }
      var checked := CheckItems(items, restored);
      if !checked { return "invalid Draft reservation key, length or capacity"; }
      var blocks := Count(items);
      if |items| > |free| || blocks > manager.banks[id].size { return "Draft Bank row/block capacity exhausted"; }
      why := "";
    }

    /** Rows, ranges and the new batch. */
    method Commit(items: seq<Item>, id: nat, seqNo: nat, restored: bool) returns (b: Batch)
      requires Valid() && id < 2 && id !in batches && |items| <= |free| && Reservable(manager.c, items)
      requires (!restored ==> forall i | 0 <= i < |items| :: items[i].length == 0) && KeysNew(Here(), items)
      modifies `batches, `ready, `free, manager`banks, manager`counts, manager`table
      ensures Valid() && b == Batch(id, old(manager.banks[id].epoch) + 1, seqNo, items, b.locations, restored)
      ensures Here() == WithBatch(old(Here()), b, old(free)[..|old(free)| - |items|])
      ensures manager.banks[1 - id] == old(manager.banks[1 - id])
    {
      ghost var d, s := Here(), manager.Now();
      ghost var rows;
      b, rows := TakeRanges(items, id, seqNo, restored);
      Settle(s, d, rows, b);
    }

    method TakeRanges(items: seq<Item>, id: nat, seqNo: nat, restored: bool) returns (b: Batch, ghost rows: seq<int>)
      requires manager.Valid() && RowsSplit(manager.c, manager.Now(), free) && id < 2 && manager.banks[id].ranges == map[]
      requires |items| <= |free| && Reservable(manager.c, items)
      modifies `free, manager`banks, manager`counts, manager`table
      ensures manager.Valid() && ReservedFor(manager.c, old(manager.Now()), manager.Now(), rows, b) && Unused(manager.c, old(manager.Now()), rows)
      ensures b == Batch(id, old(manager.banks[id].epoch) + 1, seqNo, items, b.locations, restored)
      ensures free == old(free)[..|old(free)| - |items|] && LessRows(free, old(free), rows)
    {
      ghost var s, before := manager.Now(), free;
      var taken := TakeRows(|items|);
      rows := taken;
      RowsTaken(before, rows);
      FreeUnused(manager.c, s, before, rows);
      b := ReserveRanges(id, taken, items, seqNo, restored);
    }

    method Settle(ghost s: State, ghost d: Desk, ghost rows: seq<int>, b: Batch)
      requires manager.Valid() && lim.rows == manager.c.rows && (computing.Some? ==> manager.active == computing.value)
      requires DeskOk(manager.c, s, d) && BegunOk(s.banks, d, begun) && Here() == d.(free := free)
      requires b.bankId < 2 && b.bankId !in batches && ReservedFor(manager.c, s, manager.Now(), rows, b) && b.epoch == s.banks[b.bankId].epoch + 1
      requires Unused(manager.c, s, rows) && LessRows(free, d.free, rows) && KeysNew(d, b.items)
      requires !b.restored ==> NothingImported(b)
      modifies `batches, `ready
      ensures Valid() && Here() == WithBatch(d, b, free)
    {
      CommitKeeps(manager.c, s, manager.Now(), d, rows, b, free, begun);
      Install(b);
    }

    method Install(b: Batch)
      requires manager.Valid() && lim.rows == manager.c.rows && b.bankId < 2
      requires DeskOk(manager.c, manager.Now(), WithBatch(Here(), b, free)) && BegunOk(manager.banks, WithBatch(Here(), b, free), begun)
      requires computing.Some? ==> manager.active == computing.value
      modifies `batches, `ready
      ensures Valid() && Here() == WithBatch(old(Here()), b, free)
    {
      batches := batches[b.bankId := b];
      if !b.restored { ready := ready + {b.bankId}; }
    }

    // ---- The life of a batch ----

    /** _require_batch. */
    predicate Known(b: Batch)
      reads this
    {
      b.bankId in batches && batches[b.bankId] == b
    }

    predicate Leased(id: nat)
      reads this
    {
      exists l | l in leases :: l.bankId == id
    }

    /** complete_import: once, for a restored batch, with no copy in flight. */
    method CompleteImport(b: Batch) returns (ok: bool)
      requires Valid()
      modifies `ready
      ensures Valid() && ok == old(Known(b) && b.restored && b.bankId !in ready && !Leased(b.bankId))
      ensures ready == if ok then old(ready) + {b.bankId} else old(ready)
    {
      ok := Known(b) && b.restored && b.bankId !in ready && !Leased(b.bankId);
      if ok {
        FlagsKeep(manager.c, manager.Now(), Here(), Here().(ready := ready + {b.bankId}));
        ready := ready + {b.bankId};
      }
    }

    /** begin_compute. It succeeds at most once for a bank and epoch, and never while the bank is leased. */
    method BeginCompute(b: Batch) returns (ok: bool)
      requires Valid()
      modifies `computing, `consumed, `sessions, `begun, manager`banks, manager`active
      ensures Valid() && ok == old(Known(b) && computing.None? && b.bankId in ready && b.bankId !in consumed && !Leased(b.bankId))
      ensures ok ==> (b.bankId, b.epoch) !in old(begun) && begun == old(begun) + {(b.bankId, b.epoch)} && !Leased(b.bankId)
      ensures ok ==> Here() == Began(old(Here()), b)
      ensures !ok ==> Here() == old(Here()) && begun == old(begun) && manager.Now() == old(manager.Now()) && manager.active == old(manager.active)
    {
      ok := Known(b) && computing.None? && b.bankId in ready && b.bankId !in consumed && !Leased(b.bankId);
      if !ok { return; }
      Activate(b.bankId);
      FirstTime(manager.c, manager.Now(), Here(), b, begun);
      BeginKeeps(manager.c, manager.Now(), Here(), b);
      Begin(b);
    }

    method Begin(b: Batch)
      requires manager.Valid() && lim.rows == manager.c.rows && |b.locations| == |b.items| && manager.active == b.bankId
      requires DeskOk(manager.c, manager.Now(), Began(Here(), b))
      requires BegunOk(manager.banks, Began(Here(), b), begun + {(b.bankId, b.epoch)})
      modifies `computing, `consumed, `sessions, `begun
      ensures Valid() && Here() == Began(old(Here()), b) && begun == old(begun) + {(b.bankId, b.epoch)}
    {
      var live := Opened(b);
      sessions, computing, consumed := live, Some(b.bankId), consumed + {b.bankId};
      begun := begun + {(b.bankId, b.epoch)};
    }

    method Activate(id: nat)
      requires Valid() && id < 2 && computing.None?
      modifies manager`banks, manager`active
      ensures Valid() && manager.active == id && forall i | 0 <= i < 2 :: manager.banks[i].epoch == old(manager.banks[i].epoch)
    {
      if manager.active != id {
        ghost var s := manager.Now();
        manager.Swap();
        RolesKeep(manager.c, s, manager.Now(), Here());
      }
    }

    /** The sessions that an imported batch brings. */
    method OpenSessions(b: Batch) returns (live: map<Key, Session>)
      requires |b.locations| == |b.items|
      ensures live == Imported(sessions, b, |b.items|)
    {
      live := sessions;
      for i := 0 to |b.items|
        invariant live == Imported(sessions, b, i)
      {
        live := live[b.items[i].key := Session(b.locations[i].row, b.items[i].length)];
      }
    }

    method Opened(b: Batch) returns (live: map<Key, Session>)
      requires |b.locations| == |b.items|
      ensures live == if b.restored then Imported(sessions, b, |b.items|) else sessions
    {
      live := sessions;
      if b.restored { live := OpenSessions(b); }
    }

    /** end_compute. */
    method EndCompute(b: Batch) returns (ok: bool)
      requires Valid()
      modifies `computing
      ensures Valid() && ok == old(Known(b) && computing == Some(b.bankId))
      ensures computing == if ok then None else old(computing)
    {
      ok := Known(b) && computing == Some(b.bankId);
      if ok {
        FlagsKeep(manager.c, manager.Now(), Here(), Here().(computing := None));
        computing := None;
      }
    }

    /** acquire_copy_lease: refused while the bank computes or is leased. */
    method AcquireLease(b: Batch) returns (r: Result<Lease>)
      requires Valid()
      modifies `leases, `leaseSeq
      ensures Valid() && (r.Ok? <==> old(Known(b) && computing != Some(b.bankId) && !Leased(b.bankId)))
      ensures r.Ok? ==> leases == old(leases) + {r.value} && r.value == Lease(b.bankId, b.epoch, b.seqNo, leaseSeq) && leaseSeq == old(leaseSeq) + 1
      ensures r.Err? ==> leases == old(leases) && leaseSeq == old(leaseSeq)
    {
      if !Known(b) || computing == Some(b.bankId) || Leased(b.bankId) { return Err("Draft Bank is computing or already leased"); }
      leaseSeq := leaseSeq + 1;
      var l := Lease(b.bankId, b.epoch, b.seqNo, leaseSeq);
      FlagsKeep(manager.c, manager.Now(), Here(), Here().(leases := leases + {l}));
      leases := leases + {l};
      r := Ok(l);
    }

    /** release_copy_lease. */
    method ReleaseLease(l: Lease) returns (ok: bool)
      requires Valid()
      modifies `leases
      ensures Valid() && ok == old(l in leases) && leases == old(leases) - {l}
    {
      ok := l in leases;
      FlagsKeep(manager.c, manager.Now(), Here(), Here().(leases := leases - {l}));
      leases := leases - {l};
    }

    /**
     * retire_batch, when the stream has retired. The manager's exact release never refuses and no row is free already, so
     * the fail-stop state is not entered; the batch's rows, and no others, are free again.
     */
    method Retire(b: Batch, retired: bool) returns (ok: bool)
      requires Valid()
      modifies `batches, `ready, `consumed, `sessions, `free, manager`banks, manager`counts
      ensures Valid() && ok == old(Known(b) && computing != Some(b.bankId) && !Leased(b.bankId) && retired)
      ensures Here() == if ok then Retired(old(Here()), b) else old(Here())
      ensures !ok ==> manager.Now() == old(manager.Now())
      ensures ok ==> manager.banks[b.bankId].ranges == map[] && manager.banks[1 - b.bankId] == old(manager.banks[1 - b.bankId])
    {
      ok := Known(b) && computing != Some(b.bankId) && !Leased(b.bankId) && retired;
      if !ok { return; }
      ghost var s, d := manager.Now(), Here();
      GiveBack(b);
      RetireKeeps(manager.c, s, manager.Now(), d, b);
      Forget(b);
    }

    method Forget(b: Batch)
      requires manager.Valid() && lim.rows == manager.c.rows && |b.locations| == |b.items| && BegunOk(manager.banks, Retired(Here(), b), begun)
      requires DeskOk(manager.c, manager.Now(), Retired(Here(), b)) && (computing.Some? ==> manager.active == computing.value)
      requires NoDup(free + RowList(b)) && forall i | 0 <= i < |b.locations| :: 0 <= b.locations[i].row < lim.rows
      modifies `batches, `ready, `consumed, `sessions, `free
      ensures Valid() && Here() == Retired(old(Here()), b)
    {
      CloseSessions(b);
      batches, ready, consumed := batches - {b.bankId}, ready - {b.bankId}, consumed - {b.bankId};
    }

    /** The dry run and the release: neither is refused. */
    method GiveBack(b: Batch)
      requires manager.Valid() && b.bankId < 2 && Holds(manager.c, manager.banks[b.bankId], b)
      modifies manager`banks, manager`counts
      ensures manager.Valid() && Released(old(manager.Now()), manager.Now(), RowSet(b))
    {
      var qs := Releases(b);
      RowsOfReleases(b);
      ReleaseAs(b, qs, false);
      ReleaseAs(b, qs, true);
    }

    method ReleaseAs(b: Batch, qs: seq<Release>, apply: bool)
      requires manager.Valid() && b.bankId < 2 && Holds(manager.c, manager.banks[b.bankId], b) && qs == Releases(b)
      modifies manager`banks, manager`counts
      ensures manager.Valid()
      ensures if apply then Released(old(manager.Now()), manager.Now(), RowsOf(qs, |qs|)) else manager.Now() == old(manager.Now())
    {
      ExactlyHeld(manager.c, manager.Now(), b);
      var ok := manager.ReleaseExact(qs, apply);
      assert ok;
    }

    method CloseSessions(b: Batch)
      requires |b.locations| == |b.items| && NoDup(free + RowList(b)) && forall i | 0 <= i < |b.locations| :: 0 <= b.locations[i].row < lim.rows
      modifies `sessions, `free
      ensures sessions == old(sessions) - KeySet(b) && free == old(free) + RowList(b)
    {
      for i := 0 to |b.items|
        invariant sessions == old(sessions) - (set j | 0 <= j < i :: b.items[j].key)
        invariant free == old(free) + RowList(b)[..i]
      {
        var row := b.locations[i].row;
        assert RowList(b)[..i + 1] == RowList(b)[..i] + [row];
        assert row !in free && 0 <= row < lim.rows by { NotFreeYet(old(free), RowList(b), i); }
        sessions, free := sessions - {b.items[i].key}, free + [row];
      }
      assert RowList(b)[..|b.items|] == RowList(b);
    }

    // ---- Prefill, decode and crop in the computing bank ----

    /** What one group of prefills, decodes or crops must meet. */
    ghost predicate MayRun(g: Group)
      reads this, manager
    {
      && computing.Some? && computing.value in batches
      && Members(batches[computing.value], g.Steps(), manager.c.blockSize) && (g.Prefills? ==> !batches[computing.value].restored)
      && Allowed(lim, released, LengthsOf(sessions), g)
    }

    /**
     * prefill_batch, decode_batch and crop_batch with the checks of their preflight. Growth stays inside the reservation, so
     * once the checks pass the block manager never refuses.
     */
    method Run(g: Group) returns (ok: bool)
      requires Valid()
      modifies `sessions, manager`banks, manager`counts, manager`table
      ensures Valid() && ok == old(MayRun(g))
      ensures LengthsOf(sessions) == if ok then After(old(LengthsOf(sessions)), g.Steps()) else old(LengthsOf(sessions))
      ensures !ok ==> sessions == old(sessions) && manager.Now() == old(manager.Now())
      ensures Here() == old(Here()).(sessions := sessions) && manager.active == old(manager.active)
    {
      if computing.None? { return false; }
      var b, steps := batches[computing.value], g.Steps();
      var inside := CheckMembers(b, steps);
      if !inside || (g.Prefills? && b.restored) { return false; }
      ok := Check(lim, released, LengthsOf(sessions), g);
      if ok { RunSteps(b, steps, g); }
    }

    /** What a transaction of the computing bank must meet: crops and decodes in turn, and new sessions on their own. */
    ghost predicate MayRunAll(live: seq<Group>, news: seq<Group>)
      reads this, manager
    {
      && computing.Some? && computing.value in batches
      && AllMembers(batches[computing.value], live + news, manager.c.blockSize) && (news != [] ==> !batches[computing.value].restored)
      && Simulated(lim, released, LengthsOf(sessions), live) && Simulated(lim, released, LengthsOf(sessions), news)
    }

    /** preflight_batch. */
    method Preflight(crops: seq<seq<Crop>>, decodes: seq<seq<Decode>>, prefills: seq<seq<Prefill>>) returns (ok: bool)
      requires computing.Some? ==> computing.value in batches
      ensures ok == MayRunAll(LiveGroups(crops, decodes), PrefillGroups(prefills))
    {
      var live, news := LiveGroups(crops, decodes), PrefillGroups(prefills);
      if computing.None? { return false; }
      var b := batches[computing.value];
      var inside := CheckAll(b, live + news);
      if !inside { return false; }
      if news != [] && b.restored { return false; }
      var now: Lengths;
      ok, now := Simulate(lim, released, LengthsOf(sessions), news);
      if ok { ok, now := Simulate(lim, released, LengthsOf(sessions), live); }
    }

    method CheckAll(b: Batch, groups: seq<Group>) returns (ok: bool)
      ensures ok == AllMembers(b, groups, manager.c.blockSize)
    {
      for i := 0 to |groups|
        invariant forall j | 0 <= j < i :: Members(b, groups[j].Steps(), manager.c.blockSize)
      {
        ok := CheckMembers(b, groups[i].Steps());
        if !ok { return; }
      }
      ok := true;
    }

    /**
     * Preflight once, then the groups one by one: everything happens, or nothing does. No group is refused half way, although
     * each one checks again, and the manager refuses none.
     */
    method Transaction(crops: seq<seq<Crop>>, decodes: seq<seq<Decode>>, prefills: seq<seq<Prefill>>) returns (ok: bool)
      requires Valid()
      modifies `sessions, manager`banks, manager`counts, manager`table
      ensures Valid() && ok == old(MayRunAll(LiveGroups(crops, decodes), PrefillGroups(prefills)))
      ensures LengthsOf(sessions)
              == if ok then LengthsAfter(old(LengthsOf(sessions)), Plan(crops, decodes, prefills)) else old(LengthsOf(sessions))
      ensures ok ==> Finally(old(LengthsOf(sessions)), crops, decodes, prefills, LengthsOf(sessions))
      ensures !ok ==> sessions == old(sessions) && manager.Now() == old(manager.Now())
      ensures Here() == old(Here()).(sessions := sessions)
    {
      ok := Preflight(crops, decodes, prefills);
      if !ok { return; }
      var live, news := LiveGroups(crops, decodes), PrefillGroups(prefills);
      JointlySimulated(lim, released, LengthsOf(sessions), live, news);
      PlanFinally(lim, released, LengthsOf(sessions), crops, decodes, prefills);
      RunAll(live + news, batches[computing.value]);
    }

    method RunAll(groups: seq<Group>, ghost b: Batch)
      requires Valid() && computing.Some? && computing.value in batches && batches[computing.value] == b
      requires AllMembers(b, groups, manager.c.blockSize) && ((exists g :: g in groups && g.Prefills?) ==> !b.restored)
      requires Simulated(lim, released, LengthsOf(sessions), groups)
      modifies `sessions, manager`banks, manager`counts, manager`table
      ensures Valid() && LengthsOf(sessions) == LengthsAfter(old(LengthsOf(sessions)), groups)
      ensures Here() == old(Here()).(sessions := sessions)
    {
      ghost var start := LengthsOf(sessions);
      for i := 0 to |groups|
        invariant Valid() && LengthsOf(sessions) == LengthsAfter(start, groups[..i]) && Here() == old(Here()).(sessions := sessions)
      {
        assert AllowedAt(lim, released, start, groups, i) && groups[i] in groups;
        OneMore(start, groups, i);
        var done := Run(groups[i]);
        assert done;
      }
      assert groups[..|groups|] == groups;
    }

    method CheckMembers(b: Batch, steps: seq<Step>) returns (ok: bool)
      ensures ok == Members(b, steps, manager.c.blockSize)
    {
      for i := 0 to |steps|
        invariant forall j | 0 <= j < i :: Member(b, steps[j], manager.c.blockSize)
      {
        if !Member(b, steps[i], manager.c.blockSize) { return false; }
      }
      ok := true;
    }

    /** The forward pass or the crop, and the sessions' new lengths. */
    method RunSteps(b: Batch, steps: seq<Step>, g: Group)
      requires Valid() && computing == Some(b.bankId) && b.bankId in batches && batches[b.bankId] == b && steps == g.Steps()
      requires Members(b, steps, manager.c.blockSize) && Allowed(lim, released, LengthsOf(sessions), g) && (g.Prefills? ==> !b.restored)
      modifies `sessions, manager`banks, manager`counts, manager`table
      ensures Valid() && LengthsOf(sessions) == After(old(LengthsOf(sessions)), steps)
      ensures Here() == old(Here()).(sessions := sessions) && manager.active == old(manager.active)
    {
      ghost var s := manager.Now();
      ResizeDesk(b, steps, g);
      UpdatedLengths(sessions, b, steps);
      Lengthen(b, steps, s);
    }

    method ResizeDesk(b: Batch, steps: seq<Step>, g: Group)
      requires Valid() && computing == Some(b.bankId) && b.bankId in batches && batches[b.bankId] == b && steps == g.Steps()
      requires Members(b, steps, manager.c.blockSize) && Allowed(lim, released, LengthsOf(sessions), g) && (g.Prefills? ==> !b.restored)
      modifies manager`banks, manager`counts, manager`table
      ensures manager.Valid() && |b.items| == |b.locations| && forall t | t in steps :: b.Has(t.key)
      ensures DeskOk(manager.c, manager.Now(), Here().(sessions := Updated(sessions, b, steps)))
      ensures forall i | 0 <= i < 2 :: manager.banks[i].epoch == old(manager.banks[i].epoch)
    {
      ghost var s := manager.Now();
      var rows, lens := ResizeSteps(b, steps, g);
      ResizeKeeps(manager.c, s, manager.Now(), Here(), Here().(sessions := Updated(sessions, b, steps)), b, steps, rows, lens);
      SameEpochs(manager.c, s, manager.Now(), b.bankId, rows, lens);
    }

    method Lengthen(b: Batch, steps: seq<Step>, ghost s: State)
      requires manager.Valid() && lim.rows == manager.c.rows && computing == Some(b.bankId) && manager.active == b.bankId
      requires |b.items| == |b.locations| && forall t | t in steps :: b.Has(t.key)
      requires DeskOk(manager.c, manager.Now(), Here().(sessions := Updated(sessions, b, steps))) && BegunOk(s.banks, Here(), begun)
      requires |manager.banks| == 2 && forall i | 0 <= i < 2 :: manager.banks[i].epoch == s.banks[i].epoch
      modifies `sessions
      ensures Valid() && sessions == Updated(old(sessions), b, steps)
    {
      ghost var d := Here();
      SetSessions(b, steps);
      RunKeepsBegun(s, manager.Now(), d, sessions, begun);
    }

    method ResizeSteps(b: Batch, steps: seq<Step>, g: Group) returns (rows: seq<int>, lens: seq<int>)
      requires Valid() && computing == Some(b.bankId) && b.bankId in batches && batches[b.bankId] == b && steps == g.Steps()
      requires Members(b, steps, manager.c.blockSize) && Allowed(lim, released, LengthsOf(sessions), g) && (g.Prefills? ==> !b.restored)
      modifies manager`banks, manager`counts, manager`table
      ensures |rows| == |lens| == |steps| && (forall i | 0 <= i < |steps| :: b.Has(steps[i].key))
      ensures |b.items| == |b.locations|
      ensures forall i | 0 <= i < |steps| :: rows[i] == b.locations[b.IndexOf(steps[i].key)].row && lens[i] == steps[i].next
      ensures manager.Valid() && Resized(manager.c, old(manager.Now()), manager.Now(), b.bankId, rows, lens)
    {
      ghost var s, d := manager.Now(), Here();
      assert Holds(manager.c, s.banks[b.bankId], b);
      rows := seq(|steps|, i requires 0 <= i < |steps| => b.locations[b.IndexOf(steps[i].key)].row);
      lens := seq(|steps|, i requires 0 <= i < |steps| => steps[i].next);
      StepRows(manager.c, s, d, b, steps, rows);
      StepCounts(manager.c, s, d, lim, released, b, g, rows);
      Resize(b, g.Crops?, rows, lens);
    }

    /** The block manager's part. */
    method Resize(b: Batch, crop: bool, rows: seq<int>, lens: seq<int>)
      requires manager.Valid() && b.bankId == manager.active && |rows| == |lens| && Distinct2(rows) && forall i | 0 <= i < |lens| :: lens[i] >= 0
      requires forall i | 0 <= i < |rows| :: rows[i] in manager.banks[b.bankId].ranges && 0 <= rows[i] < manager.c.rows
      requires forall i | 0 <= i < |rows| ::
                 if crop then Blocks(lens[i], manager.c.blockSize) <= manager.counts[rows[i]]
                 else manager.counts[rows[i]] <= Blocks(lens[i], manager.c.blockSize) <= manager.banks[b.bankId].ranges[rows[i]].blocks
      modifies manager`banks, manager`counts, manager`table
      ensures manager.Valid() && Resized(manager.c, old(manager.Now()), manager.Now(), b.bankId, rows, lens)
    {
      ghost var s := manager.Now();
      if crop {
        var r := manager.Crop(rows, lens);
        CroppedResized(manager.c, s, manager.Now(), b.bankId, rows, lens, r.value);
      } else {
        CanAllocate(manager.c, s, b.bankId, rows, lens);
        var r := manager.Allocate(rows, lens);
        AllocatedResized(manager.c, s, manager.Now(), b.bankId, rows, lens);
      }
    }

    method SetSessions(b: Batch, steps: seq<Step>)
      requires |b.items| == |b.locations| && forall t | t in steps :: b.Has(t.key)
      modifies `sessions
      ensures sessions == Updated(old(sessions), b, steps)
    {
      ghost var start := sessions;
      for i := 0 to |steps|
        invariant sessions == Updated(start, b, steps[..i])
      {
        assert steps[..i + 1][..i] == steps[..i];
        sessions := sessions[steps[i].key := Session(b.locations[b.IndexOf(steps[i].key)].row, steps[i].next)];
      }
      assert steps[..|steps|] == steps;
    }
  }

  /** The two checks of a preflight, both on the lengths before, are the check of all groups in their turn. */
  lemma JointlySimulated(lim: Limits, gone: seq<Key>, s: Lengths, live: seq<Group>, news: seq<Group>)
    requires (forall g | g in live :: !g.Prefills?) && (forall g | g in news :: g.Prefills?)
    ensures Simulated(lim, gone, s, live + news) <==> Simulated(lim, gone, s, live) && Simulated(lim, gone, s, news)
  {
    SimulatedBoth(lim, gone, s, live, news);
    if Simulated(lim, gone, s, live) {
      LiveKeepsKeys(lim, gone, s, live);
      PrefillsAnywhere(lim, gone, s, LengthsAfter(s, live), news);
    }
  }

  ghost predicate AllMembers(b: Batch, groups: seq<Group>, size: nat) {
    forall i | 0 <= i < |groups| :: Members(b, groups[i].Steps(), size)
  }

  // ---- What a group keeps ----

  /** The step names an item of the batch, and its length fits what is reserved for the item. */
  predicate Member(b: Batch, t: Step, size: nat) {
    b.Has(t.key) && t.next <= Span(b.items[b.IndexOf(t.key)].blocks, size)
  }

  predicate Members(b: Batch, steps: seq<Step>, size: nat) {
    forall i | 0 <= i < |steps| :: Member(b, steps[i], size)
  }

  predicate Distinct2(rows: seq<int>) {
    forall i, j | 0 <= i < j < |rows| :: rows[i] != rows[j]
  }

  function Updated(sessions: map<Key, Session>, b: Batch, steps: seq<Step>): map<Key, Session>
    requires |b.items| == |b.locations| && forall t | t in steps :: b.Has(t.key)
  {
    if steps == [] then sessions
    else
      var n := |steps| - 1;
      Updated(sessions, b, steps[..n])[steps[n].key := Session(b.locations[b.IndexOf(steps[n].key)].row, steps[n].next)]
  }

  lemma {:induction false} UpdatedLengths(sessions: map<Key, Session>, b: Batch, steps: seq<Step>)
    requires |b.items| == |b.locations| && forall t | t in steps :: b.Has(t.key)
    ensures LengthsOf(Updated(sessions, b, steps)) == After(LengthsOf(sessions), steps)
  {
    if steps != [] {
      var n := |steps| - 1;
      assert forall t | t in steps[..n] :: t in steps;
      UpdatedLengths(sessions, b, steps[..n]);
    }
  }

  lemma {:induction false} UpdatedElsewhere(sessions: map<Key, Session>, b: Batch, steps: seq<Step>, k: Key)
    requires |b.items| == |b.locations| && (forall t | t in steps :: b.Has(t.key)) && forall i | 0 <= i < |steps| :: steps[i].key != k
    ensures k in Updated(sessions, b, steps) <==> k in sessions
    ensures k in sessions ==> Updated(sessions, b, steps)[k] == sessions[k]
  {
    if steps != [] {
      var n := |steps| - 1;
      assert forall t | t in steps[..n] :: t in steps;
      UpdatedElsewhere(sessions, b, steps[..n], k);
    }
  }

  lemma {:induction false} UpdatedAt(sessions: map<Key, Session>, b: Batch, steps: seq<Step>, i: nat)
    requires |b.items| == |b.locations| && (forall t | t in steps :: b.Has(t.key)) && Distinct(steps) && i < |steps|
    ensures steps[i].key in Updated(sessions, b, steps)
    ensures Updated(sessions, b, steps)[steps[i].key] == Session(b.locations[b.IndexOf(steps[i].key)].row, steps[i].next)
  {
    var n := |steps| - 1;
    assert forall t | t in steps[..n] :: t in steps;
    if i < n {
      assert steps[..n][i] == steps[i];
      UpdatedAt(sessions, b, steps[..n], i);
    }
  }

  /** Only the rows of one bank have other lengths; every range is where it was. */
  ghost predicate Resized(c: Config, s: State, now: State, a: nat, rows: seq<int>, lens: seq<int>) {
    && |s.banks| == |now.banks| == 2 && a < 2 && now.banks[1 - a] == s.banks[1 - a] && SamePlaces(s.banks[a], now.banks[a])
    && |now.counts| == |s.counts| == c.rows && |rows| == |lens| && c.blockSize > 0
    && (forall i | 0 <= i < |rows| :: lens[i] >= 0 && 0 <= rows[i] < c.rows && now.counts[rows[i]] == Blocks(lens[i], c.blockSize))
    && forall r | 0 <= r < c.rows && r !in rows :: now.counts[r] == s.counts[r]
  }

  ghost predicate SamePlaces(x: Bank, y: Bank) {
    && y.epoch == x.epoch && y.batch == x.batch && y.ranges.Keys == x.ranges.Keys
    && forall r | r in x.ranges :: y.ranges[r].start == x.ranges[r].start && y.ranges[r].blocks == x.ranges[r].blocks
  }

  lemma CroppedResized(c: Config, s: State, now: State, a: nat, rows: seq<int>, lens: seq<int>, wants: seq<Want>)
    requires |s.banks| == 2 && a < 2 && |s.counts| == c.rows && c.blockSize > 0 && |wants| == |rows| == |lens| && Cropped(s, now, wants, |wants|)
    requires forall i | 0 <= i < |rows| :: lens[i] >= 0 && wants[i] == Want(rows[i], Blocks(lens[i], c.blockSize), lens[i])
    requires forall i | 0 <= i < |rows| :: 0 <= rows[i] < c.rows && rows[i] in s.banks[a].ranges && rows[i] !in s.banks[1 - a].ranges
    requires Distinct2(rows)
    ensures Resized(c, s, now, a, rows, lens)
  {
    assert a == 0 || a == 1;
    CroppedPlaces(s.banks[a], now.banks[a], wants);
    var other, after := s.banks[1 - a], now.banks[1 - a];
    assert CroppedBank(other, after, wants, |wants|);
    forall r | r in other.ranges ensures after.ranges[r] == other.ranges[r] {
      assert forall i | 0 <= i < |wants| :: wants[i].row != r;
    }
    assert after.ranges == other.ranges;
    forall r | 0 <= r < c.rows && r !in rows ensures now.counts[r] == s.counts[r] {
      assert forall i | 0 <= i < |wants| :: wants[i].row != r by { assert forall i | 0 <= i < |rows| :: rows[i] in rows; }
    }
  }

  lemma CroppedPlaces(x: Bank, y: Bank, wants: seq<Want>)
    requires CroppedBank(x, y, wants, |wants|)
    ensures SamePlaces(x, y)
  {
    forall r | r in x.ranges ensures y.ranges[r].start == x.ranges[r].start && y.ranges[r].blocks == x.ranges[r].blocks {
      if i :| 0 <= i < |wants| && wants[i].row == r {
        assert y.ranges[wants[i].row] == CropLocation(x.ranges[wants[i].row], wants[i]);
      }
    }
  }

  lemma {:induction false} NothingFresh(s: State, a: nat, wants: seq<Want>, n: nat)
    requires InRange(s, a, wants) && n <= |wants| && forall i | 0 <= i < |wants| :: wants[i].row in s.banks[a].ranges
    ensures FreshOf(s, a, wants, n) == []
  {
    if n > 0 { NothingFresh(s, a, wants, n - 1); }
  }

  lemma CanAllocate(c: Config, s: State, a: nat, rows: seq<int>, lens: seq<int>)
    requires Inv(c, s) && a < 2 && c.blockSize > 0 && |rows| == |lens| && forall i | 0 <= i < |lens| :: lens[i] >= 0
    requires forall i | 0 <= i < |rows| :: 0 <= rows[i] < c.rows && rows[i] in s.banks[a].ranges
    requires forall i | 0 <= i < |rows| :: Blocks(lens[i], c.blockSize) <= s.banks[a].ranges[rows[i]].blocks
    ensures InRange(s, a, WantsOf(c, rows, lens)) && Allocatable(c, s, a, WantsOf(c, rows, lens))
    ensures forall i | 0 <= i < |rows| :: rows[i] !in s.banks[1 - a].ranges
  {
    NothingFresh(s, a, WantsOf(c, rows, lens), |rows|);
    assert a == 0 || a == 1;
  }

  lemma AllocatedResized(c: Config, s: State, now: State, a: nat, rows: seq<int>, lens: seq<int>)
    requires |s.banks| == 2 && a < 2 && |s.counts| == c.rows && c.blockSize > 0 && |rows| == |lens|
    requires forall i | 0 <= i < |rows| :: lens[i] >= 0 && 0 <= rows[i] < c.rows && rows[i] in s.banks[a].ranges
    requires forall i | 0 <= i < |rows| :: s.counts[rows[i]] <= Blocks(lens[i], c.blockSize)
    requires Allocated(s, now, a, WantsOf(c, rows, lens))
    ensures Resized(c, s, now, a, rows, lens)
  {
    var wants := WantsOf(c, rows, lens);
    forall i | 0 <= i < |rows| ensures now.counts[rows[i]] == Blocks(lens[i], c.blockSize) {
      assert BankManager.Brought(s, now, a, wants[i]);
    }
    AllocatedPlaces(s, now, a, wants, rows);
    forall r | 0 <= r < c.rows && r !in rows ensures now.counts[r] == s.counts[r] {
      assert forall i | 0 <= i < |wants| :: wants[i].row != r by { assert forall i | 0 <= i < |rows| :: rows[i] in rows; }
    }
  }

  lemma AllocatedPlaces(s: State, now: State, a: nat, wants: seq<Want>, rows: seq<int>)
    requires Allocated(s, now, a, wants) && |rows| == |wants| && forall i | 0 <= i < |rows| :: wants[i].row == rows[i] && rows[i] in s.banks[a].ranges
    ensures SamePlaces(s.banks[a], now.banks[a])
  {
    forall r | r in s.banks[a].ranges
      ensures r in now.banks[a].ranges && now.banks[a].ranges[r].start == s.banks[a].ranges[r].start
      ensures now.banks[a].ranges[r].blocks == s.banks[a].ranges[r].blocks
    {
      if i :| 0 <= i < |wants| && wants[i].row == r { assert BankManager.Brought(s, now, a, wants[i]); }
    }
    assert forall i | 0 <= i < |wants| :: wants[i].row in s.banks[a].ranges;
    forall r ensures r in now.banks[a].ranges.Keys <==> r in s.banks[a].ranges.Keys {}
  }

  /** The rows of the steps are the batch's own, each once. */
  lemma StepRows(c: Config, s: State, d: Desk, b: Batch, steps: seq<Step>, rows: seq<int>)
    requires |s.banks| == 2 && b.bankId < 2 && Holds(c, s.banks[b.bankId], b) && Distinct(steps) && |rows| == |steps|
    requires forall i | 0 <= i < |steps| :: b.Has(steps[i].key) && rows[i] == b.locations[b.IndexOf(steps[i].key)].row
    ensures Distinct2(rows)
    ensures forall i | 0 <= i < |rows| :: 0 <= rows[i] < c.rows && rows[i] in s.banks[b.bankId].ranges
                                        && s.banks[b.bankId].ranges[rows[i]].blocks == b.items[b.IndexOf(steps[i].key)].blocks
  {
    forall i | 0 <= i < |rows|
      ensures 0 <= rows[i] < c.rows && rows[i] in s.banks[b.bankId].ranges
      ensures s.banks[b.bankId].ranges[rows[i]].blocks == b.items[b.IndexOf(steps[i].key)].blocks
    {
      assert HoldsItem(c, s.banks[b.bankId], b, b.IndexOf(steps[i].key));
    }
    forall i, j | 0 <= i < j < |rows| ensures rows[i] != rows[j] {
      assert b.IndexOf(steps[i].key) != b.IndexOf(steps[j].key);
    }
  }

  /** A crop shortens and the others lengthen what the block table covers, and the new length fits the reservation. */
  lemma StepCounts(c: Config, s: State, d: Desk, lim: Limits, gone: seq<Key>, b: Batch, g: Group, rows: seq<int>)
    requires AllCounted(c, s, d) && b.bankId in d.batches && d.batches[b.bankId] == b && Members(b, g.Steps(), c.blockSize)
    requires Allowed(lim, gone, LengthsOf(d.sessions), g) && (g.Prefills? ==> NothingImported(b)) && |rows| == |g.Steps()|
    requires forall i | 0 <= i < |rows| :: rows[i] == b.locations[b.IndexOf(g.Steps()[i].key)].row
    ensures forall i | 0 <= i < |rows| ::
              var t := g.Steps()[i];
              && 0 <= rows[i] < |s.counts| && Blocks(t.next, c.blockSize) <= b.items[b.IndexOf(t.key)].blocks
              && if g.Crops? then Blocks(t.next, c.blockSize) <= s.counts[rows[i]] else s.counts[rows[i]] <= Blocks(t.next, c.blockSize)
  {
    forall i | 0 <= i < |rows|
      ensures var t := g.Steps()[i];
              && 0 <= rows[i] < |s.counts| && Blocks(t.next, c.blockSize) <= b.items[b.IndexOf(t.key)].blocks
              && if g.Crops? then Blocks(t.next, c.blockSize) <= s.counts[rows[i]] else s.counts[rows[i]] <= Blocks(t.next, c.blockSize)
    {
      StepCount(c, s, d, lim, gone, b, g, i);
    }
  }

  lemma StepCount(c: Config, s: State, d: Desk, lim: Limits, gone: seq<Key>, b: Batch, g: Group, i: nat)
    requires AllCounted(c, s, d) && b.bankId in d.batches && d.batches[b.bankId] == b && i < |g.Steps()|
    requires Member(b, g.Steps()[i], c.blockSize) && (g.Prefills? ==> NothingImported(b))
    requires StepOk(lim, gone, LengthsOf(d.sessions), g, g.Steps()[i])
    ensures var t := g.Steps()[i];
            var row := b.locations[b.IndexOf(t.key)].row;
            && 0 <= row < |s.counts| && Blocks(t.next, c.blockSize) <= b.items[b.IndexOf(t.key)].blocks
            && if g.Crops? then Blocks(t.next, c.blockSize) <= s.counts[row] else s.counts[row] <= Blocks(t.next, c.blockSize)
  {
    var t := g.Steps()[i];
    var k := b.IndexOf(t.key);
    assert Counted(c, s, d, b, k);
    BlocksFit(t.next, c.blockSize, b.items[k].blocks);
    if g.Crops? {
      BlocksMonotone(t.next, LengthOf(d, b.items[k]), c.blockSize);
    } else {
      BlocksMonotone(LengthOf(d, b.items[k]), t.next, c.blockSize);
    }
  }

  /** The rows and lengths are those of the steps. */
  ghost predicate RowsOfSteps(b: Batch, steps: seq<Step>, rows: seq<int>, lens: seq<int>) {
    && |b.items| == |b.locations| && Distinct(steps) && (forall t | t in steps :: b.Has(t.key)) && |rows| == |lens| == |steps|
    && forall i | 0 <= i < |steps| :: rows[i] == b.locations[b.IndexOf(steps[i].key)].row && lens[i] == steps[i].next
  }

  ghost predicate Separate(b: Batch) {
    |b.items| == |b.locations| && forall i, j | 0 <= i < j < |b.items| :: b.items[i].key != b.items[j].key && b.locations[i].row != b.locations[j].row
  }

  lemma ResizeKeeps(c: Config, s: State, now: State, d: Desk, e: Desk, b: Batch, steps: seq<Step>, rows: seq<int>, lens: seq<int>)
    requires DeskOk(c, s, d) && b.bankId in d.consumed && b.bankId in d.batches && d.batches[b.bankId] == b
    requires forall r | r in s.banks[0].ranges :: r !in s.banks[1].ranges
    requires RowsOfSteps(b, steps, rows, lens)
    requires Resized(c, s, now, b.bankId, rows, lens) && e == d.(sessions := Updated(d.sessions, b, steps))
    ensures DeskOk(c, now, e)
  {
    assert RowsSplit(c, now, e.free) by { ResizedRows(c, s, now, d, b.bankId, rows, lens); }
    assert Owned(c, now, e) by { ResizedOwner(c, s, now, d, e, b.bankId, rows, lens); }
    assert Flags(e) && KeysApart(e) && Imports(e) by { SameMarks(d, e); }
    assert SessionsPlaced(e) by { ResizedPlaced(d, e, b, steps); }
    assert AllCounted(c, now, e) by { ResizedAll(c, s, now, d, e, b, steps, rows, lens); }
  }

  lemma ResizedAll(c: Config, s: State, now: State, d: Desk, e: Desk, b: Batch, steps: seq<Step>, rows: seq<int>, lens: seq<int>)
    requires |s.banks| == 2 && Owned(c, s, d) && KeysApart(d) && AllCounted(c, s, d) && b.bankId in d.batches && d.batches[b.bankId] == b
    requires forall r | r in s.banks[0].ranges :: r !in s.banks[1].ranges
    requires RowsOfSteps(b, steps, rows, lens)
    requires Resized(c, s, now, b.bankId, rows, lens) && e == d.(sessions := Updated(d.sessions, b, steps))
    ensures AllCounted(c, now, e)
  {
    OthersRows(c, s, d, b);
    ItemsApart(c, s.banks[b.bankId], b);
    ResizedCounts(c, s, now, d, e, b, steps, rows, lens);
  }

  lemma SameEpochs(c: Config, s: State, now: State, a: nat, rows: seq<int>, lens: seq<int>)
    requires Resized(c, s, now, a, rows, lens)
    ensures forall i | 0 <= i < 2 :: now.banks[i].epoch == s.banks[i].epoch
  {
    assert a == 0 || a == 1;
  }

  lemma ItemsApart(c: Config, bank: Bank, b: Batch)
    requires Holds(c, bank, b)
    ensures Separate(b)
  {
  }

  lemma SameMarks(d: Desk, e: Desk)
    requires Flags(d) && KeysApart(d) && Imports(d) && e == d.(sessions := e.sessions)
    ensures Flags(e) && KeysApart(e) && Imports(e)
  {
  }

  lemma ResizedRows(c: Config, s: State, now: State, d: Desk, a: nat, rows: seq<int>, lens: seq<int>)
    requires |s.banks| == 2 && RowsSplit(c, s, d.free) && Resized(c, s, now, a, rows, lens)
    ensures RowsSplit(c, now, d.free)
  {
    assert a == 0 || a == 1;
    forall r ensures Live(now, r) == Live(s, r) {
      assert r in now.banks[a].ranges.Keys <==> r in s.banks[a].ranges.Keys;
    }
  }

  lemma ResizedOwner(c: Config, s: State, now: State, d: Desk, e: Desk, a: nat, rows: seq<int>, lens: seq<int>)
    requires |s.banks| == 2 && Owned(c, s, d) && Resized(c, s, now, a, rows, lens) && e.batches == d.batches
    ensures Owned(c, now, e)
  {
    assert a == 0 || a == 1;
    forall id | id in d.batches ensures Holds(c, now.banks[id], d.batches[id]) {
      if id == a { PlacesHold(c, s.banks[a], now.banks[a], d.batches[a]); }
    }
    if a !in d.batches { assert now.banks[a].ranges.Keys == {}; }
  }

  lemma PlacesHold(c: Config, x: Bank, y: Bank, b: Batch)
    requires Holds(c, x, b) && SamePlaces(x, y)
    ensures Holds(c, y, b)
  {
    forall i | 0 <= i < |b.items| ensures HoldsItem(c, y, b, i) { assert HoldsItem(c, x, b, i); }
    forall r | r in y.ranges ensures exists i | 0 <= i < |b.locations| :: b.locations[i].row == r { assert r in x.ranges; }
  }

  lemma ResizedPlaced(d: Desk, e: Desk, b: Batch, steps: seq<Step>)
    requires SessionsPlaced(d) && b.bankId in d.consumed && b.bankId in d.batches && d.batches[b.bankId] == b
    requires |b.items| == |b.locations| && (forall t | t in steps :: b.Has(t.key))
    requires e == d.(sessions := Updated(d.sessions, b, steps))
    ensures SessionsPlaced(e)
  {
    forall k | k in e.sessions ensures exists id | id in e.consumed && id in e.batches :: e.batches[id].Has(k) {
      if i :| 0 <= i < |steps| && steps[i].key == k {
        assert steps[i] in steps && e.batches[b.bankId].Has(k);
      } else {
        UpdatedElsewhere(d.sessions, b, steps, k);
        var id :| id in d.consumed && id in d.batches && d.batches[id].Has(k);
        assert e.batches[id].Has(k);
      }
    }
  }

  lemma ResizedCounts(c: Config, s: State, now: State, d: Desk, e: Desk, b: Batch, steps: seq<Step>, rows: seq<int>, lens: seq<int>)
    requires AllCounted(c, s, d) && KeysApart(d) && b.bankId in d.batches && d.batches[b.bankId] == b && Resized(c, s, now, b.bankId, rows, lens)
    requires RowsOfSteps(b, steps, rows, lens)
    requires Separate(b) && RowsElsewhere(d, b)
    requires e == d.(sessions := Updated(d.sessions, b, steps))
    ensures AllCounted(c, now, e)
  {
    forall id, i | id in e.batches && 0 <= i < |e.batches[id].items| ensures Counted(c, now, e, e.batches[id], i) {
      var x := d.batches[id];
      assert Counted(c, s, d, x, i);
      if k :| id == b.bankId && 0 <= k < |steps| && steps[k].key == x.items[i].key {
        UpdatedAt(d.sessions, b, steps, k);
        assert b.IndexOf(steps[k].key) == i && now.counts[rows[k]] == Blocks(lens[k], c.blockSize);
      } else {
        if id != b.bankId { OthersKey(d, b, id, i); }
        forall k | 0 <= k < |steps| ensures steps[k].key != x.items[i].key && rows[k] != x.locations[i].row {
          var j := b.IndexOf(steps[k].key);
          assert steps[k] in steps && b.items[j].key == steps[k].key && (id == b.bankId ==> j != i);
        }
        UpdatedElsewhere(d.sessions, b, steps, x.items[i].key);
      }
    }
  }

  lemma RunKeepsBegun(s: State, now: State, d: Desk, sessions: map<Key, Session>, begun: set<(nat, nat)>)
    requires BegunOk(s.banks, d, begun) && |now.banks| == 2 && forall i | 0 <= i < 2 :: now.banks[i].epoch == s.banks[i].epoch
    ensures BegunOk(now.banks, d.(sessions := sessions), begun)
  {
  }

  // ---- What the life of a batch keeps ----

  function RowList(b: Batch): seq<int> { seq(|b.locations|, i requires 0 <= i < |b.locations| => b.locations[i].row) }

  function Releases(b: Batch): (qs: seq<Release>)
    ensures |qs| == |b.locations| && forall i | 0 <= i < |qs| ::
              qs[i] == Release(b.bankId, b.epoch, b.locations[i].row, b.locations[i].start, b.locations[i].blocks, Some(Name(b.seqNo)))
  {
    seq(|b.locations|, i requires 0 <= i < |b.locations| =>
      Release(b.bankId, b.epoch, b.locations[i].row, b.locations[i].start, b.locations[i].blocks, Some(Name(b.seqNo))))
  }

  lemma RowsOfReleases(b: Batch)
    ensures RowsOf(Releases(b), |Releases(b)|) == RowSet(b)
  {
  }

  function RowSet(b: Batch): set<int> { set i | 0 <= i < |b.locations| :: b.locations[i].row }

  function KeySet(b: Batch): set<Key> { set i | 0 <= i < |b.items| :: b.items[i].key }

  /** The sessions after the first n items of an imported batch. */
  function Imported(sessions: map<Key, Session>, b: Batch, n: nat): map<Key, Session>
    requires n <= |b.items| == |b.locations|
  {
    if n == 0 then sessions
    else Imported(sessions, b, n - 1)[b.items[n - 1].key := Session(b.locations[n - 1].row, b.items[n - 1].length)]
  }

  function Began(d: Desk, b: Batch): Desk
    requires |b.items| == |b.locations|
  {
    d.(computing := Some(b.bankId), consumed := d.consumed + {b.bankId},
       sessions := if b.restored then Imported(d.sessions, b, |b.items|) else d.sessions)
  }

  function Retired(d: Desk, b: Batch): Desk {
    d.(batches := d.batches - {b.bankId}, ready := d.ready - {b.bankId}, consumed := d.consumed - {b.bankId},
       sessions := d.sessions - KeySet(b), free := d.free + RowList(b))
  }

  /** Marks and leases do not matter to the rest of the invariant. */
  lemma FlagsKeep(c: Config, s: State, d: Desk, e: Desk)
    requires DeskOk(c, s, d) && Flags(e) && d.consumed <= e.consumed
    requires e == d.(ready := e.ready, consumed := e.consumed, computing := e.computing, leases := e.leases)
    ensures DeskOk(c, s, e)
  {
    forall id, i | id in e.batches && 0 <= i < |e.batches[id].items| ensures Counted(c, s, e, e.batches[id], i) {
      assert Counted(c, s, d, d.batches[id], i);
    }
  }

  lemma RolesKeep(c: Config, s: State, now: State, d: Desk)
    requires DeskOk(c, s, d) && |now.banks| == 2 && now.counts == s.counts
    requires forall i | 0 <= i < 2 :: now.banks[i] == s.banks[i].(role := now.banks[i].role)
    ensures DeskOk(c, now, d)
  {
    forall id | id in d.batches ensures Holds(c, now.banks[id], d.batches[id]) {
      forall i | 0 <= i < |d.batches[id].items| ensures HoldsItem(c, now.banks[id], d.batches[id], i) {
        assert HoldsItem(c, s.banks[id], d.batches[id], i);
      }
    }
    forall r ensures Live(now, r) == Live(s, r) {}
    forall id, i | id in d.batches && 0 <= i < |d.batches[id].items| ensures Counted(c, now, d, d.batches[id], i) {
      assert Counted(c, s, d, d.batches[id], i);
    }
  }

  lemma {:induction false} ImportedFacts(sessions: map<Key, Session>, b: Batch, n: nat)
    requires n <= |b.items| == |b.locations| && forall i, j | 0 <= i < j < |b.items| :: b.items[i].key != b.items[j].key
    ensures forall k :: k in Imported(sessions, b, n) <==> k in sessions || exists i | 0 <= i < n :: b.items[i].key == k
    ensures forall i | 0 <= i < n :: Imported(sessions, b, n)[b.items[i].key] == Session(b.locations[i].row, b.items[i].length)
    ensures forall k | k in sessions && (forall i | 0 <= i < n :: b.items[i].key != k) :: Imported(sessions, b, n)[k] == sessions[k]
  {
    if n > 0 { ImportedFacts(sessions, b, n - 1); }
  }

  /** A bank that begins to compute: the imported lengths are the sessions' lengths. */
  lemma BeginKeeps(c: Config, s: State, d: Desk, b: Batch)
    requires DeskOk(c, s, d) && b.bankId in d.batches && d.batches[b.bankId] == b && d.computing.None? && b.bankId in d.ready
    requires b.bankId !in d.consumed && forall l | l in d.leases :: l.bankId != b.bankId
    ensures |b.items| == |b.locations| && DeskOk(c, s, Began(d, b))
  {
    assert Holds(c, s.banks[b.bankId], b);
    BeginSessions(c, s, d, b);
    assert Flags(Began(d, b)) && Owned(c, s, Began(d, b));
  }

  lemma BeginSessions(c: Config, s: State, d: Desk, b: Batch)
    requires SessionsPlaced(d) && KeysApart(d) && AllCounted(c, s, d) && b.bankId in d.batches && d.batches[b.bankId] == b
    requires b.bankId !in d.consumed && forall i, j | 0 <= i < j < |b.items| :: b.items[i].key != b.items[j].key
    ensures |b.items| == |b.locations| && SessionsPlaced(Began(d, b)) && AllCounted(c, s, Began(d, b))
  {
    var e := Began(d, b);
    ImportedFacts(d.sessions, b, |b.items|);
    forall k | k in e.sessions ensures exists id | id in e.consumed && id in e.batches :: e.batches[id].Has(k) {
      if k in d.sessions {
        var id :| id in d.consumed && id in d.batches && d.batches[id].Has(k);
        assert e.batches[id].Has(k);
      } else {
        assert e.batches[b.bankId].Has(k);
      }
    }
    forall id, i | id in e.batches && 0 <= i < |e.batches[id].items| ensures Counted(c, s, e, e.batches[id], i) {
      assert Counted(c, s, d, d.batches[id], i);
      if id == b.bankId { NotBegun(d, b, i); } else { OthersKey(d, b, id, i); }
    }
  }

  /** The bank and epoch of a batch that has not been consumed never began before. */
  lemma FirstTime(c: Config, s: State, d: Desk, b: Batch, begun: set<(nat, nat)>)
    requires |s.banks| == 2 && b.bankId < 2 && b.bankId in d.batches && Holds(c, s.banks[b.bankId], b) && BegunOk(s.banks, d, begun)
    requires b.bankId !in d.consumed
    ensures (b.bankId, b.epoch) !in begun && |b.items| == |b.locations| && BegunOk(s.banks, Began(d, b), begun + {(b.bankId, b.epoch)})
  {
  }

  /** A batch that has not begun has no sessions. */
  lemma NotBegun(d: Desk, b: Batch, i: nat)
    requires SessionsPlaced(d) && KeysApart(d) && b.bankId in d.batches && d.batches[b.bankId] == b && b.bankId !in d.consumed && i < |b.items|
    ensures b.items[i].key !in d.sessions
  {
    assert b.Has(b.items[i].key);
    forall id | id in d.consumed && id in d.batches ensures !d.batches[id].Has(b.items[i].key) {}
  }

  /** Another bank's key is not among the batch's. */
  lemma OthersKey(d: Desk, b: Batch, id: nat, i: nat)
    requires KeysApart(d) && b.bankId in d.batches && d.batches[b.bankId] == b && id in d.batches && id != b.bankId && i < |d.batches[id].items|
    ensures forall j | 0 <= j < |b.items| :: b.items[j].key != d.batches[id].items[i].key
  {
    var k := d.batches[id].items[i].key;
    assert d.batches[id].Has(k) && !b.Has(k);
  }

  /** The manager's exact release finds every range as the batch has it. */
  lemma ExactlyHeld(c: Config, s: State, b: Batch)
    requires Inv(c, s) && b.bankId < 2 && Holds(c, s.banks[b.bankId], b)
    ensures forall i | 0 <= i < |b.locations| ::
              var l := b.locations[i];
              && 0 <= l.row < c.rows && l.row in s.banks[b.bankId].ranges && s.banks[b.bankId].ranges[l.row].epoch == b.epoch
              && s.banks[b.bankId].ranges[l.row].start == l.start && s.banks[b.bankId].ranges[l.row].blocks == l.blocks
    ensures s.banks[b.bankId].epoch == b.epoch && s.banks[b.bankId].batch == Some(Name(b.seqNo))
  {
    forall i | 0 <= i < |b.locations| ensures HoldsItem(c, s.banks[b.bankId], b, i) && Placed(c, s.banks[b.bankId], b.bankId, b.locations[i].row) {
      assert HoldsItem(c, s.banks[b.bankId], b, i);
    }
  }

  lemma NotFreeYet(free: seq<int>, rows: seq<int>, i: nat)
    requires NoDup(free + rows) && i < |rows|
    ensures rows[i] !in free + rows[..i]
  {
    var all := free + rows;
    assert all[|free| + i] == rows[i];
    forall j | 0 <= j < |free| + i ensures (free + rows[..i])[j] != rows[i] {
      NoDupAt(all, j, |free| + i);
      assert all[j] == (free + rows[..i])[j];
    }
  }

  /** Retiring a batch empties its bank and frees exactly its rows. */
  lemma RetireKeeps(c: Config, s: State, now: State, d: Desk, b: Batch)
    requires DeskOk(c, s, d) && b.bankId in d.batches && d.batches[b.bankId] == b && d.computing != Some(b.bankId)
    requires forall r | r in s.banks[0].ranges :: r !in s.banks[1].ranges
    requires (forall l | l in d.leases :: l.bankId != b.bankId) && Released(s, now, RowSet(b))
    ensures DeskOk(c, now, Retired(d, b)) && NoDup(d.free + RowList(b))
    ensures now.banks[b.bankId].ranges == map[] && now.banks[1 - b.bankId] == s.banks[1 - b.bankId]
    ensures forall i | 0 <= i < |b.locations| :: 0 <= b.locations[i].row < c.rows
  {
    ReleasedBanks(c, s, now, d, b);
    RetiredRows(c, s, now, d, b);
    OthersRows(c, s, d, b);
    RetiredSessions(c, s, now, d, b);
    RetiredOwner(c, s, now, d, b);
    RetiredFlags(d, b);
  }

  /** No other batch has a row of the batch. */
  ghost predicate RowsElsewhere(d: Desk, b: Batch) {
    forall id, i, j | id in d.batches && id != b.bankId && 0 <= i < |d.batches[id].locations| && 0 <= j < |b.locations| ::
      d.batches[id].locations[i].row != b.locations[j].row
  }

  lemma OthersRows(c: Config, s: State, d: Desk, b: Batch)
    requires |s.banks| == 2 && Owned(c, s, d) && (forall r | r in s.banks[0].ranges :: r !in s.banks[1].ranges)
    requires b.bankId in d.batches && d.batches[b.bankId] == b
    ensures RowsElsewhere(d, b)
  {
    forall id, i, j | id in d.batches && id != b.bankId && 0 <= i < |d.batches[id].locations| && 0 <= j < |b.locations|
      ensures d.batches[id].locations[i].row != b.locations[j].row
    {
      RowsApart(c, s, d, b.bankId, j, id, i);
    }
  }

  lemma RetiredOwner(c: Config, s: State, now: State, d: Desk, b: Batch)
    requires |s.banks| == |now.banks| == 2 && Owned(c, s, d) && b.bankId in d.batches
    requires now.banks[b.bankId].ranges == map[] && now.banks[1 - b.bankId] == s.banks[1 - b.bankId]
    ensures Owned(c, now, Retired(d, b))
  {
    assert b.bankId == 0 || b.bankId == 1;
  }

  lemma RetiredFlags(d: Desk, b: Batch)
    requires Flags(d) && KeysApart(d) && d.computing != Some(b.bankId) && forall l | l in d.leases :: l.bankId != b.bankId
    ensures Flags(Retired(d, b)) && KeysApart(Retired(d, b))
  {
  }

  lemma ReleasedBanks(c: Config, s: State, now: State, d: Desk, b: Batch)
    requires |s.banks| == 2 && b.bankId < 2 && Holds(c, s.banks[b.bankId], b) && Released(s, now, RowSet(b))
    requires forall r | r in s.banks[0].ranges :: r !in s.banks[1].ranges
    ensures now.banks[b.bankId].ranges == map[] && now.banks[1 - b.bankId] == s.banks[1 - b.bankId]
    ensures forall i | 0 <= i < |b.locations| :: 0 <= b.locations[i].row < c.rows && b.locations[i].row in s.banks[b.bankId].ranges
  {
    var id := b.bankId;
    var other := s.banks[1 - id];
    forall i | 0 <= i < |b.locations|
      ensures 0 <= b.locations[i].row < c.rows && b.locations[i].row in s.banks[id].ranges
    {
      assert HoldsItem(c, s.banks[id], b, i);
    }
    assert now.banks[id] == s.banks[id].(ranges := s.banks[id].ranges - RowSet(b));
    assert forall r | r in s.banks[id].ranges :: r in RowSet(b);
    assert now.banks[1 - id] == other.(ranges := other.ranges - RowSet(b));
    assert forall r | r in RowSet(b) :: r in s.banks[id].ranges;
    assert forall r | r in other.ranges :: r !in s.banks[id].ranges by { assert id == 0 || id == 1; }
    assert other.ranges - RowSet(b) == other.ranges;
  }

  lemma RetiredRows(c: Config, s: State, now: State, d: Desk, b: Batch)
    requires |s.banks| == |now.banks| == 2 && b.bankId < 2 && Holds(c, s.banks[b.bankId], b) && RowsSplit(c, s, d.free)
    requires forall r | r in s.banks[0].ranges :: r !in s.banks[1].ranges
    requires now.banks[b.bankId].ranges == map[] && now.banks[1 - b.bankId] == s.banks[1 - b.bankId]
    requires forall i | 0 <= i < |b.locations| :: 0 <= b.locations[i].row < c.rows && b.locations[i].row in s.banks[b.bankId].ranges
    ensures NoDup(d.free + RowList(b)) && RowsSplit(c, now, d.free + RowList(b))
  {
    var rows := RowList(b);
    assert Holds(c, s.banks[b.bankId], b);
    NoDupByIndex(rows);
    forall r | r in d.free ensures r !in rows { assert !Live(s, r) && (b.bankId == 0 || b.bankId == 1); }
    NoDupSplit(d.free, rows);
    forall r ensures r in d.free + rows <==> 0 <= r < c.rows && !Live(now, r) {
      if r in s.banks[b.bankId].ranges {
        var i :| 0 <= i < |b.locations| && b.locations[i].row == r;
        assert rows[i] == r;
      }
    }
  }

  lemma RetiredSessions(c: Config, s: State, now: State, d: Desk, b: Batch)
    requires SessionsPlaced(d) && KeysApart(d) && AllCounted(c, s, d) && b.bankId in d.batches && d.batches[b.bankId] == b
    requires Released(s, now, RowSet(b))
    requires RowsElsewhere(d, b)
    ensures SessionsPlaced(Retired(d, b)) && AllCounted(c, now, Retired(d, b))
  {
    var e := Retired(d, b);
    forall k | k in e.sessions ensures exists id | id in e.consumed && id in e.batches :: e.batches[id].Has(k) {
      var id :| id in d.consumed && id in d.batches && d.batches[id].Has(k);
      assert id != b.bankId;
      assert e.batches[id].Has(k);
    }
    forall id, i | id in e.batches && 0 <= i < |e.batches[id].items| ensures Counted(c, now, e, e.batches[id], i) {
      assert Counted(c, s, d, d.batches[id], i);
      OthersKey(d, b, id, i);
    }
  }

  lemma FreeUnused(c: Config, s: State, free: seq<int>, rows: seq<int>)
    requires |s.banks| == 2 && RowsSplit(c, s, free) && (forall r | r in rows :: r in free)
    requires forall i, j | 0 <= i < j < |rows| :: rows[i] != rows[j]
    ensures Unused(c, s, rows)
  {
    forall i | 0 <= i < |rows| ensures 0 <= rows[i] < c.rows && !Live(s, rows[i]) { assert rows[i] in rows; }
  }

  lemma CommitKeeps(c: Config, s: State, now: State, d: Desk, rows: seq<int>, b: Batch, free: seq<int>, begun: set<(nat, nat)>)
    requires DeskOk(c, s, d) && b.bankId < 2 && b.bankId !in d.batches && ReservedFor(c, s, now, rows, b) && BegunOk(s.banks, d, begun)
    requires Unused(c, s, rows) && NoDup(free) && forall r :: r in free <==> r in d.free && r !in rows
    requires !b.restored ==> NothingImported(b)
    requires forall i, id | 0 <= i < |b.items| && id in d.batches :: !d.batches[id].Has(b.items[i].key)
    requires b.epoch == s.banks[b.bankId].epoch + 1
    ensures DeskOk(c, now, WithBatch(d, b, free)) && BegunOk(now.banks, WithBatch(d, b, free), begun)
  {
    ReserveKeepsDesk(c, s, now, d, rows, b, free);
    StillBegun(s.banks, now.banks, d, b, free, begun);
  }

  lemma StillBegun(banks: seq<Bank>, now: seq<Bank>, d: Desk, b: Batch, free: seq<int>, begun: set<(nat, nat)>)
    requires BegunOk(banks, d, begun) && |now| == 2 && b.bankId < 2 && now[1 - b.bankId] == banks[1 - b.bankId]
    requires now[b.bankId].epoch == banks[b.bankId].epoch + 1
    ensures BegunOk(now, WithBatch(d, b, free), begun)
  {
  }

  /** A bank and epoch that began are past, or are the live batch's and it is consumed. */
  ghost predicate BegunOk(banks: seq<Bank>, d: Desk, begun: set<(nat, nat)>) {
    |banks| == 2 && forall x | x in begun :: x.0 < 2 && x.1 <= banks[x.0].epoch && (x.1 == banks[x.0].epoch && x.0 in d.batches ==> x.0 in d.consumed)
  }

  lemma CanReserve(c: Config, items: seq<Item>)
    requires c.blockSize > 0 && items != [] && SumBlocks(items, |items|) <= c.bankSize
    requires forall i, j | 0 <= i < j < |items| :: items[i].key != items[j].key
    requires forall i | 0 <= i < |items| :: items[i].blocks <= c.width && items[i].length <= Span(items[i].blocks, c.blockSize)
    ensures Reservable(c, items)
  {
    forall i | 0 <= i < |items| ensures Blocks(items[i].length, c.blockSize) <= items[i].blocks {
      BlocksFit(items[i].length, c.blockSize, items[i].blocks);
    }
  }
}
