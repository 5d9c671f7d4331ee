/** The operations of the two-bank block manager. */
module BankManager {
  import opened Wrappers
  import opened BlockMath
  import opened Banks

  datatype Request = Request(row: int, blocks: int, logical: Option<int>, version: int, batch: Option<string>)

  datatype Release = Release(bankId: int, epoch: int, row: int, start: int, blocks: int, batch: Option<string>)

  /** How many blocks the first n requests ask for. */
  function Total(requests: seq<Request>, n: nat): int
    requires n <= |requests|
  {
    if n == 0 then 0 else Total(requests, n - 1) + requests[n - 1].blocks
  }

  predicate Modest(c: Config, q: Request) {
    0 <= q.row < c.rows && 0 <= q.blocks && (q.logical.Some? ==> q.logical.value >= 0) && q.version >= 0
  }

  /** The field checks of one reservation. */
  predicate Sane(c: Config, q: Request) {
    Modest(c, q) && q.blocks <= c.width
  }

  /** The location that a reservation gets: at the bump pointer, at the current epoch. */
  function LocationFor(c: Config, b: Bank, id: nat, q: Request): Location
    requires Sane(c, q)
  {
    Location(id, b.epoch, b.base, b.ptr, q.blocks, if q.logical.Some? then q.logical.value else Span(q.blocks, c.blockSize), q.version, q.row)
  }

  class BlockManager {
    const c: Config
    var banks: seq<Bank>
    var active: nat
    var counts: seq<nat>
    var table: seq<seq<int>>

    ghost function Now(): State
      reads this
    {
      State(banks, counts, table)
    }

    ghost predicate Valid()
      reads this
    {
      Inv(c, Now()) && active < 2 && c.blockSize > 0
    }

    constructor (rows: nat, width: nat, blocks: nat, blockSize: nat, table: seq<seq<int>>)
      requires blockSize > 0 && |table| == rows && forall r | 0 <= r < rows :: |table[r]| == width
      ensures c == Config(rows, width, blocks / 2, blockSize) && Valid() && active == 0
      ensures banks == [Bank(0, blocks / 2, 0, 0, ActiveRole, None, map[], false), Bank(blocks / 2, blocks / 2, 0, 0, StandbyRole, None, map[], false)]
      ensures this.table == table && |counts| == rows && forall r | 0 <= r < rows :: counts[r] == 0
    {
      var size := blocks / 2;
      c := Config(rows, width, size, blockSize);
      banks := [Bank(0, size, 0, 0, ActiveRole, None, map[], false), Bank(size, size, 0, 0, StandbyRole, None, map[], false)];
      active := 0;
      counts := seq(rows, _ => 0);
      this.table := table;
    }

    predicate HasBank(id: int) { 0 <= id < 2 }

    /** validate_bank_location. */
    predicate LocationOk(l: Location)
      reads this
      requires |banks| == 2 && l.bankId < 2
    {
      var b := banks[l.bankId];
      l.epoch == b.epoch && l.base == b.base && l.start + l.blocks <= b.size
    }

    /** Why a reservation is granted. */
    predicate Reservable(id: int, q: Request)
      reads this
      requires |banks| == 2
    {
      HasBank(id) && Sane(c, q) && q.row !in banks[id].ranges && q.blocks <= banks[id].Remaining()
    }

    method SetValidBlocks(l: Location, n: nat)
      requires Shaped(c, Now()) && l.bankId < 2 && LocationOk(l) && 0 <= l.row < c.rows && n <= l.blocks && n <= c.width
      modifies `counts, `table
      ensures Now() == Remap(old(Now()), l, n)
    {
      if n == 0 {
        counts := counts[l.row := 0];
        return;
      }
      table := table[l.row := Filled(table[l.row], l.First(), n)];
      counts := counts[l.row := n];
    }

    /** reserve_in_bank. A row already live in the other bank is not refused, and then two rows' worth of state collide. */
    method Reserve(id: int, q: Request) returns (r: Result<Location>)
      requires Valid()
      modifies `banks, `counts, `table
      ensures r.Ok? <==> old(Reservable(id, q))
      ensures r.Err? ==> Now() == old(Now())
      ensures r.Ok? ==> r.value == old(LocationFor(c, banks[id], id, q)) && Now() == Reserved(old(Now()), r.value, q.batch)
      ensures r.Ok? ==> (Valid() <==> old(q.row !in banks[1 - id].ranges))
    {
      if !HasBank(id) { return Err("unknown bank_id"); }
      if !Sane(c, q) { return Err("invalid reservation"); }
      if q.row in banks[id].ranges { return Err("row already has a range in this bank"); }
      if q.blocks > banks[id].Remaining() { return Err("bank capacity exceeded"); }
      var b := banks[id];
      var l := LocationFor(c, b, id, q);
      ReserveKeeps(c, Now(), l, q.batch);
      banks := banks[id := b.(ptr := b.ptr + q.blocks, batch := if q.batch.Some? then q.batch else b.batch, ranges := b.ranges[q.row := l])];
      SetValidBlocks(l, q.blocks);
      r := Ok(l);
    }

    ghost predicate Fresh(id: int, requests: seq<Request>)
      reads this
      requires |banks| == 2 && HasBank(id)
    {
      forall i | 0 <= i < |requests| :: requests[i].row !in banks[1 - id].ranges
    }

    /** Everything the batch checks before it changes anything. */
    ghost predicate BatchOk(id: int, requests: seq<Request>, reset: bool)
      reads this
      requires |banks| == 2
    {
      && HasBank(id)
      && (forall i | 0 <= i < |requests| :: Sane(c, requests[i]) && requests[i].row !in banks[id].ranges)
      && (forall i, j | 0 <= i < j < |requests| :: requests[i].row != requests[j].row)
      && Total(requests, |requests|) <= if reset then banks[id].size else banks[id].Remaining()
    }

    /** The checking loop. */
    method CheckBatch(id: int, requests: seq<Request>) returns (ok: bool, total: int)
      requires |banks| == 2 && HasBank(id)
      ensures ok <==> (forall i | 0 <= i < |requests| :: Sane(c, requests[i]) && requests[i].row !in banks[id].ranges)
                      && forall i, j | 0 <= i < j < |requests| :: requests[i].row != requests[j].row
      ensures ok ==> total == Total(requests, |requests|)
    {
      var seen: set<int> := {};
      total := 0;
      for i := 0 to |requests|
        invariant seen == set j | 0 <= j < i :: requests[j].row
        invariant forall j | 0 <= j < i :: Sane(c, requests[j]) && requests[j].row !in banks[id].ranges
        invariant forall j, k | 0 <= j < k < i :: requests[j].row != requests[k].row
        invariant total == Total(requests, i)
      {
        var q := requests[i];
        if !Sane(c, q) { return false, 0; }
        if q.row in seen || q.row in banks[id].ranges { return false, 0; }
        seen, total := seen + {q.row}, total + q.blocks;
      }
      ok := true;
    }

    /** reset_bank. */
    method ResetBank(id: int) returns (ok: bool)
      requires Valid()
      modifies `banks
      ensures ok == HasBank(id)
      ensures Now() == if ok then Emptied(old(Now()), id) else old(Now())
      ensures ok ==> (Valid() <==> old(forall r | r in banks[id].ranges && 0 <= r < c.rows :: counts[r] == 0))
    {
      ok := HasBank(id);
      if ok {
        ResetKeeps(c, Now(), id);
        var b := banks[id];
        banks := banks[id := Bank(b.base, b.size, 0, b.epoch + 1, if b.role == PreparedRole then StandbyRole else b.role, None, map[], false)];
      }
    }

    /**
     * reserve_in_bank_batch_atomic, for callers that reset only empty banks and keep a row in one bank. It fails, changing
     * nothing, exactly when a check fails: once the checks pass, no single reservation can, so nothing is ever rolled back.
     */
    method ReserveBatch(id: int, requests: seq<Request>, reset: bool) returns (r: Result<seq<Location>>)
      requires Valid()
      requires HasBank(id) ==> Fresh(id, requests) && (reset ==> banks[id].ranges == map[])
      modifies `banks, `counts, `table
      ensures Valid()
      ensures r.Ok? <==> old(BatchOk(id, requests, reset))
      ensures r.Err? ==> Now() == old(Now())
      ensures r.Ok? && !reset ==> Applied(old(Now()), Now(), id, requests, |requests|, r.value)
      ensures r.Ok? && reset ==> Applied(Emptied(old(Now()), id), Now(), id, requests, |requests|, r.value)
    {
      if !HasBank(id) { return Err("unknown bank_id"); }
      var checked, total := CheckBatch(id, requests);
      if !checked { return Err("invalid reservation batch"); }
      if total > if reset then banks[id].size else banks[id].Remaining() { return Err("bank capacity exceeded"); }
      if reset {
        var done := ResetBank(id);
      }
      var locations := ReserveEach(id, requests);
      r := Ok(locations);
    }

    /** set_bank_location_kv_version. */
    method SetVersion(row: int, id: int, epoch: int, version: int) returns (r: Result<Location>)
      requires Valid()
      modifies `banks
      ensures Valid()
      ensures r.Ok? <==> HasBank(id) && version >= 0 && old(banks)[id].epoch == epoch && row in old(banks)[id].ranges
      ensures Now() == if r.Ok? then WithRange(old(Now()), id, row, r.value) else old(Now())
      ensures r.Ok? ==> r.value == old(banks)[id].ranges[row].(version := version)
    {
      if !HasBank(id) { return Err("unknown bank_id"); }
      if version < 0 { return Err("kv_version must be non-negative"); }
      if banks[id].epoch != epoch { return Err("bank epoch mismatch while setting kv_version"); }
      if row !in banks[id].ranges { return Err("request has no bank location"); }
      var l := banks[id].ranges[row].(version := version);
      assert Placed(c, banks[id], id, row);
      CropKeeps(c, Now(), id, l, counts[row]);
      assert counts[row := counts[row]] == counts;
      banks := banks[id := banks[id].(ranges := banks[id].ranges[row := l])];
      r := Ok(l);
    }

    /** mark_bank_prepared. */
    method MarkPrepared(id: int, batch: Option<string>, ready: bool) returns (ok: bool)
      requires Valid()
      modifies `banks
      ensures Valid() && ok == HasBank(id)
      ensures banks == if ok then old(banks)[id := old(banks)[id].(role := PreparedRole, batch := if batch.Some? then batch else old(banks)[id].batch, ready := ready)] else old(banks)
    {
      ok := HasBank(id);
      if ok {
        SameRangesKeep(c, Now(), id, banks[id].ptr, banks[id].(role := PreparedRole, batch := if batch.Some? then batch else banks[id].batch, ready := ready));
        banks := banks[id := banks[id].(role := PreparedRole, batch := if batch.Some? then batch else banks[id].batch, ready := ready)];
      }
    }

    /** discard_empty_prepared_bank: only the exact empty prepared standby bank, and its epoch does not move. */
    method DiscardEmptyPrepared(id: int, epoch: int, batch: string) returns (ok: bool)
      requires Valid()
      modifies `banks
      ensures Valid()
      ensures ok <==> id == 1 - active && old(banks)[id].role == PreparedRole && old(banks)[id].epoch == epoch
                      && old(banks)[id].batch == Some(batch) && old(banks)[id].ranges == map[]
      ensures banks == if ok then old(banks)[id := old(banks)[id].(role := StandbyRole, ptr := 0, batch := None, ready := false)] else old(banks)
    {
      if !HasBank(id) { return false; }
      var b := banks[id];
      if id != 1 - active || b.role != PreparedRole || b.epoch != epoch || b.batch != Some(batch) || b.ranges != map[] { return false; }
      SameRangesKeep(c, Now(), id, 0, b.(role := StandbyRole, ptr := 0, batch := None, ready := false));
      banks := banks[id := b.(role := StandbyRole, ptr := 0, batch := None, ready := false)];
      ok := true;
    }

    /** swap_active_standby. */
    method Swap()
      requires Valid()
      modifies `banks, `active
      ensures Valid() && active == 1 - old(active)
      ensures banks == old(banks)[old(active) := old(banks)[old(active)].(role := StandbyRole)]
                                 [1 - old(active) := old(banks)[1 - old(active)].(role := ActiveRole)]
    {
      SameRangesKeep(c, Now(), active, banks[active].ptr, banks[active].(role := StandbyRole));
      banks := banks[active := banks[active].(role := StandbyRole)];
      SameRangesKeep(c, Now(), 1 - active, banks[1 - active].ptr, banks[1 - active].(role := ActiveRole));
      banks := banks[1 - active := banks[1 - active].(role := ActiveRole)];
      active := 1 - active;
    }

    // ---- Crop, free and exact release ----

    ghost predicate Wantable(ids: seq<int>, lens: seq<int>) {
      && |ids| == |lens| && (forall i | 0 <= i < |ids| :: 0 <= ids[i] < c.rows && lens[i] >= 0)
      && forall i, j | 0 <= i < j < |ids| :: ids[i] != ids[j]
    }

    /** _normalize_sequence_length_batch. */
    method Normalize(ids: seq<int>, lens: seq<int>) returns (r: Result<seq<Want>>)
      requires c.blockSize > 0
      ensures r.Ok? <==> Wantable(ids, lens)
      ensures r.Ok? ==> |r.value| == |ids| && forall i | 0 <= i < |ids| :: r.value[i] == Want(ids[i], Blocks(lens[i], c.blockSize), lens[i])
    {
      if |ids| != |lens| { return Err("seq_ids and target_lens must have the same length"); }
      var wants, seen: set<int> := [], {};
      for i := 0 to |ids|
        invariant |wants| == i && seen == set j | 0 <= j < i :: ids[j]
        invariant forall j | 0 <= j < i :: 0 <= ids[j] < c.rows && lens[j] >= 0 && wants[j] == Want(ids[j], Blocks(lens[j], c.blockSize), lens[j])
        invariant forall j, k | 0 <= j < k < i :: ids[j] != ids[k]
      {
        if ids[i] in seen { return Err("duplicate sequence id"); }
        if !(0 <= ids[i] < c.rows) { return Err("sequence id is out of block table range"); }
        if lens[i] < 0 { return Err("target logical length must be non-negative"); }
        wants, seen := wants + [Want(ids[i], Blocks(lens[i], c.blockSize), lens[i])], seen + {ids[i]};
      }
      r := Ok(wants);
    }

    /** crop_blocks_for_seqs. It fails, changing nothing, exactly when a row would have to grow; table lines never change. */
    method Crop(ids: seq<int>, lens: seq<int>) returns (r: Result<seq<Want>>)
      requires Valid()
      modifies `banks, `counts
      ensures Valid()
      ensures r.Ok? <==> Wantable(ids, lens) && forall i | 0 <= i < |ids| :: Blocks(lens[i], c.blockSize) <= old(counts)[ids[i]]
      ensures r.Err? ==> Now() == old(Now())
      ensures r.Ok? ==> |r.value| == |ids| && Cropped(old(Now()), Now(), r.value, |ids|)
      ensures r.Ok? ==> forall i | 0 <= i < |ids| :: r.value[i] == Want(ids[i], Blocks(lens[i], c.blockSize), lens[i])
    {
      r := Normalize(ids, lens);
      if r.Err? { return; }
      var wants := r.value;
      for i := 0 to |wants|
        invariant forall j | 0 <= j < i :: wants[j].blocks <= counts[wants[j].row]
      {
        if wants[i].blocks > counts[wants[i].row] { return Err("cannot crop up"); }
      }
      CropEach(wants);
    }

    /** The cropping loop. */
    method CropEach(wants: seq<Want>)
      requires Valid() && forall i | 0 <= i < |wants| :: 0 <= wants[i].row < c.rows && wants[i].blocks <= counts[wants[i].row]
      requires forall i, j | 0 <= i < j < |wants| :: wants[i].row != wants[j].row
      modifies `banks, `counts
      ensures Valid() && Cropped(old(Now()), Now(), wants, |wants|)
    {
      for i := 0 to |wants|
        invariant Valid() && Cropped(old(Now()), Now(), wants, i)
      {
        CropMore(c, old(Now()), Now(), wants, i);
        CropRow(wants[i]);
      }
    }

    method CropRow(w: Want)
      requires |banks| == 2 && 0 <= w.row < |counts|
      modifies `banks, `counts
      ensures Now() == CropOne(old(Now()), w)
    {
      if w.row in banks[0].ranges {
        banks := banks[0 := banks[0].(ranges := banks[0].ranges[w.row := CropLocation(banks[0].ranges[w.row], w)])];
      } else if w.row in banks[1].ranges {
        banks := banks[1 := banks[1].(ranges := banks[1].ranges[w.row := CropLocation(banks[1].ranges[w.row], w)])];
      }
      counts := counts[w.row := w.blocks];
    }

    /** free_blocks_for_seqs. */
    method Free(ids: seq<int>)
      requires Valid() && forall i | 0 <= i < |ids| :: 0 <= ids[i] < c.rows
      modifies `banks, `counts
      ensures Valid() && Released(old(Now()), Now(), set i | 0 <= i < |ids| :: ids[i])
    {
      ghost var before := Now();
      NothingReleased(before);
      for i := 0 to |ids|
        invariant Valid() && Released(before, Now(), set j | 0 <= j < i :: ids[j])
      {
        ghost var mid := Now();
        FreeOne(ids[i]);
        ReleasedOne(before, mid, Now(), set j | 0 <= j < i :: ids[j], ids[i]);
        assert (set j | 0 <= j < i + 1 :: ids[j]) == (set j | 0 <= j < i :: ids[j]) + {ids[i]};
      }
    }

    method FreeOne(row: int)
      requires Valid() && 0 <= row < c.rows
      modifies `banks, `counts
      ensures Valid() && Released(old(Now()), Now(), {row})
    {
      if row in banks[0].ranges {
        DropKeeps(c, Now(), 0, row);
        banks := banks[0 := banks[0].(ranges := banks[0].ranges - {row})];
      } else if row in banks[1].ranges {
        DropKeeps(c, Now(), 1, row);
        banks := banks[1 := banks[1].(ranges := banks[1].ranges - {row})];
      } else {
        assert !Live(Now(), row);
      }
      counts := counts[row := 0];
    }

    ghost predicate Exact(q: Release)
      reads this
      requires |banks| == 2
    {
      && 0 <= q.row < c.rows && q.blocks >= 0 && HasBank(q.bankId) && q.row in banks[q.bankId].ranges
      && banks[q.bankId].epoch == q.epoch && banks[q.bankId].ranges[q.row].epoch == q.epoch
      && banks[q.bankId].ranges[q.row].start == q.start && banks[q.bankId].ranges[q.row].blocks == q.blocks
      && (q.batch.Some? ==> banks[q.bankId].batch == q.batch)
    }

    /** The checking loop of release_bank_ranges_exact_batch. */
    method CheckReleases(qs: seq<Release>) returns (ok: bool)
      requires Valid()
      ensures ok <==> (forall i | 0 <= i < |qs| :: Exact(qs[i]))
                      && forall i, j | 0 <= i < j < |qs| :: qs[i].bankId != qs[j].bankId || qs[i].row != qs[j].row
    {
      var seen: set<(int, int)> := {};
      for i := 0 to |qs|
        invariant seen == set j | 0 <= j < i :: (qs[j].bankId, qs[j].row)
        invariant forall j | 0 <= j < i :: Exact(qs[j])
        invariant forall j, k | 0 <= j < k < i :: qs[j].bankId != qs[k].bankId || qs[j].row != qs[k].row
      {
        var q := qs[i];
        if !(0 <= q.row < c.rows) || q.blocks < 0 { return false; }
        if (q.bankId, q.row) in seen { return false; }
        seen := seen + {(q.bankId, q.row)};
        if !HasBank(q.bankId) || q.row !in banks[q.bankId].ranges { return false; }
        var l := banks[q.bankId].ranges[q.row];
        if banks[q.bankId].epoch != q.epoch || l.epoch != q.epoch || l.start != q.start || l.blocks != q.blocks { return false; }
        if q.batch.Some? && banks[q.bankId].batch != q.batch { return false; }
      }
      ok := true;
    }

    /**
     * release_bank_ranges_exact_batch. It fails, changing nothing, exactly when some range is not live as described; when
     * it applies, the rows have neither a range nor blocks in the table.
     */
    method ReleaseExact(qs: seq<Release>, apply: bool) returns (ok: bool)
      requires Valid()
      modifies `banks, `counts
      ensures Valid()
      ensures ok <==> (forall i | 0 <= i < |qs| :: old(Exact(qs[i])))
                      && forall i, j | 0 <= i < j < |qs| :: qs[i].bankId != qs[j].bankId || qs[i].row != qs[j].row
      ensures !ok || !apply ==> Now() == old(Now())
      ensures ok && apply ==> Released(old(Now()), Now(), RowsOf(qs, |qs|))
    {
      ok := CheckReleases(qs);
      if !ok || !apply { return; }
      ghost var before := Now();
      OneBankEach(c, before, qs);
      for i := 0 to |qs|
        invariant Valid() && Released(before, Now(), RowsOf(qs, i))
      {
        ReleasedMore(before, Now(), qs, i);
        ReleaseOne(qs[i]);
      }
    }

    method ReleaseOne(q: Release)
      requires Valid() && HasBank(q.bankId) && q.row in banks[q.bankId].ranges && 0 <= q.row < c.rows
      modifies `banks, `counts
      ensures Valid() && Now() == Dropped(old(Now()), q.bankId, q.row)
    {
      var l := banks[q.bankId].ranges[q.row];
      assert Placed(c, banks[q.bankId], q.bankId, q.row) && Mapped(l, counts, table);
      DropKeeps(c, Now(), q.bankId, q.row);
      banks := banks[q.bankId := banks[q.bankId].(ranges := banks[q.bankId].ranges - {q.row})];
      if counts[q.row] <= l.blocks && counts[q.row] > 0 && table[q.row][0] == l.First() {
        counts := counts[q.row := 0];
      } else {
        assert counts[q.row := 0] == counts;
      }
    }

    // ---- Allocation from the active bank ----

    /** The classifying loop: rows to reserve, rows to grow in place, and whether the growth and the total fit. */
    method Classify(wants: seq<Want>) returns (ok: bool, added: seq<Request>, grow: seq<Want>)
      requires Valid() && forall i | 0 <= i < |wants| :: 0 <= wants[i].row < c.rows
      ensures ok <==> Roomy(Now(), active, wants)
      ensures ok ==> added == FreshOf(Now(), active, wants, |wants|) && grow == GrowOf(Now(), active, wants, |wants|)
    {
      added, grow := [], [];
      var total := 0;
      for i := 0 to |wants|
        invariant added == FreshOf(Now(), active, wants, i) && grow == GrowOf(Now(), active, wants, i)
        invariant total == Total(added, |added|)
        invariant forall j | 0 <= j < i :: GrowthFits(Now(), active, wants[j])
      {
        var w := wants[i];
        if w.blocks > counts[w.row] {
          if w.row !in banks[active].ranges {
            TotalMore(added, Asked(w));
            added, total := added + [Asked(w)], total + w.blocks;
          } else {
            assert Placed(c, banks[active], active, w.row);
            if w.blocks > banks[active].ranges[w.row].blocks { return false, [], []; }
            grow := grow + [w];
          }
        }
      }
      ok := total <= banks[active].Remaining();
    }

    /** Reserve each fresh row. A target wider than a table line is only found here, after earlier rows have changed. */
    method ReserveFresh(added: seq<Request>) returns (ok: bool, locations: seq<Location>)
      requires Valid() && Fresh(active, added) && Reservations(c, Now(), active, added)
      modifies `banks, `counts, `table
      ensures Valid() && (ok <==> forall i | 0 <= i < |added| :: added[i].blocks <= c.width)
      ensures |locations| <= |added| && Applied(old(Now()), Now(), active, added, |locations|, locations)
      ensures ok ==> |locations| == |added|
    {
      locations := [];
      ghost var before := Now();
      for i := 0 to |added|
        invariant Valid() && Applied(before, Now(), active, added, i, locations)
        invariant forall j | 0 <= j < i :: added[j].blocks <= c.width
      {
        var l := ReserveNext(before, added, i, locations);
        if l.Err? { return false, locations; }
        locations := locations + [l.value];
      }
      ok := true;
    }

    method ReserveNext(ghost before: State, added: seq<Request>, i: nat, ghost locations: seq<Location>) returns (l: Result<Location>)
      requires Valid() && |before.banks| == 2 && Reservations(c, before, active, added) && Applied(before, Now(), active, added, i, locations)
      requires i < |added| && added[i].row !in banks[1 - active].ranges
      modifies `banks, `counts, `table
      ensures Valid() && (l.Ok? <==> added[i].blocks <= c.width)
      ensures l.Ok? ==> Applied(before, Now(), active, added, i + 1, locations + [l.value])
      ensures l.Err? ==> Now() == old(Now())
    {
      NextReservable(c, before, Now(), active, added, i, locations);
      if added[i].blocks <= c.width { AppliedMore(c, before, Now(), active, added, i, locations); }
      l := Reserve(active, added[i]);
    }

    /** The block numbers of the fresh ranges, range after range. */
    method FreshIds(ghost before: State, ghost id: nat, ghost added: seq<Request>, locations: seq<Location>) returns (ids: seq<int>)
      requires id < 2 && Applied(before, Now(), id, added, |added|, locations) && Inv(c, Now())
      requires before.banks[id].base == banks[id].base
      ensures Total(added, |added|) >= 0 && ids == Arange(before.banks[id].base + before.banks[id].ptr, Total(added, |added|))
    {
      ids := [];
      for i := 0 to |locations|
        invariant Total(added, i) >= 0 && ids == Arange(before.banks[id].base + before.banks[id].ptr, Total(added, i))
      {
        assert Granted(before, Now(), id, added, i, locations[i]);
        assert Placed(c, banks[id], id, locations[i].row);
        ids := ids + Arange(locations[i].First(), locations[i].blocks);
      }
    }

    /** Make more of one row's own range valid. */
    method GrowOne(w: Want) returns (ids: seq<int>)
      requires Valid() && w.row in banks[active].ranges && 0 <= w.row < c.rows && counts[w.row] <= w.blocks <= banks[active].ranges[w.row].blocks
      modifies `banks, `counts, `table
      ensures Valid()
      ensures var l := old(banks[active].ranges[w.row]).(logical := w.length);
              && l.row == w.row && w.blocks <= c.width && Now() == Remap(WithRange(old(Now()), active, w.row, l), l, w.blocks)
              && ids == Arange(l.First() + old(counts[w.row]), w.blocks - old(counts[w.row]))
    {
      var current := counts[w.row];
      var l := banks[active].ranges[w.row].(logical := w.length);
      assert Placed(c, banks[active], active, w.row);
      UpdateKeeps(c, Now(), active, l, w.blocks);
      banks := banks[active := banks[active].(ranges := banks[active].ranges[w.row := l])];
      SetValidBlocks(l, w.blocks);
      ids := Arange(l.First() + current, w.blocks - current);
    }

    method GrowEach(grow: seq<Want>) returns (ids: seq<int>)
      requires Valid() && Grows(Now(), active, grow)
      modifies `banks, `counts, `table
      ensures Valid() && GrownTo(old(Now()), Now(), active, grow, |grow|) && ids == GrowIds(old(Now()), active, grow, |grow|)
    {
      ghost var before := Now();
      ids := [];
      NothingGrown(before, active, grow);
      for i := 0 to |grow|
        invariant Valid() && GrownTo(before, Now(), active, grow, i) && ids == GrowIds(before, active, grow, i)
      {
        var more := GrowAt(before, grow, i);
        assert GrowIds(before, active, grow, i + 1) == GrowIds(before, active, grow, i) + RowIds(before, active, grow[i]);
        ids := ids + more;
      }
    }

    method GrowAt(ghost before: State, grow: seq<Want>, i: nat) returns (ids: seq<int>)
      requires Valid() && Grows(before, active, grow) && i < |grow| && GrownTo(before, Now(), active, grow, i)
      modifies `banks, `counts, `table
      ensures Valid() && GrownTo(before, Now(), active, grow, i + 1)
      ensures ids == RowIds(before, active, grow[i])
    {
      GrowNext(c, before, Now(), active, grow, i);
      ghost var now, l := Now(), banks[active].ranges[grow[i].row].(logical := grow[i].length);
      ids := GrowOne(grow[i]);
      GrowStep(before, now, Now(), active, grow, i, l);
    }

    /** Put back the counts and table lines of the rows. */
    method RestoreLines(rows: seq<int>, oldCounts: seq<nat>, oldTable: seq<seq<int>>)
      requires |counts| == |table| == |oldCounts| == |oldTable| && forall i | 0 <= i < |rows| :: 0 <= rows[i] < |counts|
      requires forall r | 0 <= r < |counts| && r !in rows :: counts[r] == oldCounts[r] && table[r] == oldTable[r]
      modifies `counts, `table
      ensures counts == oldCounts && table == oldTable
    {
      for i := 0 to |rows|
        invariant |counts| == |table| == |oldCounts| == |oldTable|
        invariant forall r | 0 <= r < |counts| && (r !in rows || r in rows[..i]) :: counts[r] == oldCounts[r] && table[r] == oldTable[r]
      {
        assert rows[..i + 1] == rows[..i] + [rows[i]];
        counts, table := counts[rows[i] := oldCounts[rows[i]]], table[rows[i] := oldTable[rows[i]]];
      }
      assert rows[..|rows|] == rows;
    }

    /** Reserve all fresh rows, or put everything back. */
    method ReserveFreshOrRollBack(rows: seq<int>, added: seq<Request>) returns (ok: bool, locations: seq<Location>)
      requires Valid() && Fresh(active, added) && Reservations(c, Now(), active, added)
      requires (forall i | 0 <= i < |rows| :: 0 <= rows[i] < c.rows) && forall i | 0 <= i < |added| :: added[i].row in rows
      modifies `banks, `counts, `table
      ensures Valid() && (ok <==> forall i | 0 <= i < |added| :: added[i].blocks <= c.width)
      ensures ok ==> Applied(old(Now()), Now(), active, added, |added|, locations)
      ensures !ok ==> Now() == old(Now())
    {
      var bank, oldCounts, oldTable := banks[active], counts, table;
      ok, locations := ReserveFresh(added);
      if !ok { PutBack(rows, bank, oldCounts, oldTable, added, old(Now()), locations); }
    }

    method PutBack(rows: seq<int>, bank: Bank, oldCounts: seq<nat>, oldTable: seq<seq<int>>, ghost added: seq<Request>, ghost before: State,
                   ghost locations: seq<Location>)
      requires |before.banks| == 2 && active < 2 && before.banks[active] == bank && before.counts == oldCounts && before.table == oldTable
      requires |locations| <= |added| && Applied(before, Now(), active, added, |locations|, locations) && |before.counts| == |before.table|
      requires (forall i | 0 <= i < |rows| :: 0 <= rows[i] < |oldCounts|) && forall i | 0 <= i < |added| :: added[i].row in rows
      modifies `banks, `counts, `table
      ensures Now() == before
    {
      forall r | 0 <= r < |counts| && r !in rows ensures counts[r] == oldCounts[r] && table[r] == oldTable[r] {
        assert r !in NamedRows(added, |locations|);
      }
      RestoreLines(rows, oldCounts, oldTable);
      banks := banks[active := bank];
    }

    /** The first half of the allocation: check, and reserve the rows that have no range. */
    method AllocateFresh(rows: seq<int>, wants: seq<Want>) returns (r: Result<seq<int>>, grow: seq<Want>, ghost locations: seq<Location>)
      requires Valid() && Wanted(c, Now(), active, wants) && |rows| == |wants| && forall i | 0 <= i < |rows| :: rows[i] == wants[i].row
      modifies `banks, `counts, `table
      ensures Valid() && (r.Ok? <==> old(Allocatable(c, Now(), active, wants)))
      ensures r.Err? ==> Now() == old(Now())
      ensures r.Ok? ==> grow == GrowOf(old(Now()), active, wants, |wants|)
      ensures r.Ok? ==> FreshTaken(old(Now()), Now(), active, wants, locations) && FreshNamed(old(Now()), active, wants, r.value)
    {
      var roomy, added;
      roomy, added, grow := Classify(wants);
      if !roomy { return Err("bank capacity exceeded"), [], []; }
      r, locations := TakeFresh(rows, wants, added);
    }

    /** Reserve the fresh rows of an allocation for which there is room, and name their blocks. */
    method TakeFresh(rows: seq<int>, ghost wants: seq<Want>, added: seq<Request>) returns (r: Result<seq<int>>, ghost locations: seq<Location>)
      requires Valid() && Wanted(c, Now(), active, wants) && |rows| == |wants| && forall i | 0 <= i < |rows| :: rows[i] == wants[i].row
      requires Roomy(Now(), active, wants) && added == FreshOf(Now(), active, wants, |wants|)
      modifies `banks, `counts, `table
      ensures Valid() && (r.Ok? <==> old(Allocatable(c, Now(), active, wants)))
      ensures r.Err? ==> Now() == old(Now())
      ensures r.Ok? ==> Applied(old(Now()), Now(), active, added, |added|, locations)
      ensures r.Ok? ==> Total(added, |added|) >= 0 && r.value == Arange(old(banks[active].base + banks[active].ptr), Total(added, |added|))
    {
      FreshReady(c, Now(), active, wants, rows);
      var ok, taken := ReserveFreshOrRollBack(rows, added);
      if !ok { return Err("request is wider than a block table line"), []; }
      locations := taken;
      var ids := FreshIds(old(Now()), active, added, taken);
      r := Ok(ids);
    }

    /** The allocation after the arguments are checked. */
    method AllocateWants(rows: seq<int>, wants: seq<Want>) returns (r: Result<seq<int>>)
      requires Valid() && Wanted(c, Now(), active, wants) && |rows| == |wants| && forall i | 0 <= i < |rows| :: rows[i] == wants[i].row
      modifies `banks, `counts, `table
      ensures Valid() && (r.Ok? <==> old(Allocatable(c, Now(), active, wants)))
      ensures r.Err? ==> Now() == old(Now())
      ensures r.Ok? ==> Allocated(old(Now()), Now(), active, wants) && r.value == NewIds(old(Now()), active, wants)
    {
      ghost var before := Now();
      var grow;
      ghost var locations;
      r, grow, locations := AllocateFresh(rows, wants);
      if r.Ok? {
        var ids := Finish(before, wants, grow, locations, r.value);
        r := Ok(ids);
      }
    }

    /** Grow in place, and name all blocks that became valid. */
    method Finish(ghost before: State, ghost wants: seq<Want>, grow: seq<Want>, ghost locations: seq<Location>, reserved: seq<int>) returns (ids: seq<int>)
      requires Valid() && Wanted(c, before, active, wants) && Roomy(before, active, wants) && grow == GrowOf(before, active, wants, |wants|)
      requires FreshTaken(before, Now(), active, wants, locations) && FreshNamed(before, active, wants, reserved)
      modifies `banks, `counts, `table
      ensures Valid() && Allocated(before, Now(), active, wants) && ids == NewIds(before, active, wants)
    {
      var grown := AllocateGrown(before, wants, grow, locations);
      ids := reserved + grown;
      TheyAreAll(before, active, wants, reserved, grown);
    }

    /** The second half of the allocation: grow in place. */
    method AllocateGrown(ghost before: State, ghost wants: seq<Want>, grow: seq<Want>, ghost locations: seq<Location>) returns (ids: seq<int>)
      requires Valid() && Wanted(c, before, active, wants) && Roomy(before, active, wants) && grow == GrowOf(before, active, wants, |wants|)
      requires FreshTaken(before, Now(), active, wants, locations)
      modifies `banks, `counts, `table
      ensures Valid() && Allocated(before, Now(), active, wants)
      ensures Grows(before, active, grow) && ids == GrowIds(before, active, grow, |grow|)
    {
      ghost var mid := Now();
      GrowsStill(c, before, mid, active, wants, locations);
      ids := GrowEach(grow);
      BothAllocated(c, before, mid, Now(), active, wants, locations);
    }

    /**
     * allocate_blocks_for_seqs in double-bank mode, for callers that keep a row in one bank. It either brings every row
     * to its target and returns exactly the blocks that became valid, or it changes nothing, rolling back if need be.
     */
    method Allocate(ids: seq<int>, lens: seq<int>) returns (r: Result<seq<int>>)
      requires Valid() && forall i | 0 <= i < |ids| :: ids[i] !in banks[1 - active].ranges
      modifies `banks, `counts, `table
      ensures Valid()
      ensures r.Ok? <==> Wantable(ids, lens) && old(Allocatable(c, Now(), active, WantsOf(c, ids, lens)))
      ensures r.Err? ==> Now() == old(Now())
      ensures r.Ok? ==>
                && Allocated(old(Now()), Now(), active, WantsOf(c, ids, lens))
                && r.value == NewIds(old(Now()), active, WantsOf(c, ids, lens))
    {
      var n := Normalize(ids, lens);
      if n.Err? { return Err(n.reason); }
      assert n.value == WantsOf(c, ids, lens);
      r := AllocateWants(ids, n.value);
    }

    /** The reserving loop: after the checks every reservation succeeds. */
    method ReserveEach(id: int, requests: seq<Request>) returns (locations: seq<Location>)
      requires Valid() && HasBank(id) && Fresh(id, requests) && Reservations(c, Now(), id, requests)
      requires forall i | 0 <= i < |requests| :: Sane(c, requests[i])
      modifies `banks, `counts, `table
      ensures Valid() && Applied(old(Now()), Now(), id, requests, |requests|, locations)
    {
      locations := [];
      ghost var before := Now();
      for i := 0 to |requests|
        invariant Valid() && Applied(before, Now(), id, requests, i, locations)
      {
        NextReservable(c, before, Now(), id, requests, i, locations);
        AppliedMore(c, before, Now(), id, requests, i, locations);
        var l := Reserve(id, requests[i]);
        locations := locations + [l.value];
      }
    }
  }

  // ---- What an allocation does ----

  ghost function WantsOf(c: Config, ids: seq<int>, lens: seq<int>): seq<Want>
    requires |ids| == |lens| && c.blockSize > 0 && forall i | 0 <= i < |lens| :: lens[i] >= 0
  {
    seq(|ids|, i requires 0 <= i < |ids| => Want(ids[i], Blocks(lens[i], c.blockSize), lens[i]))
  }

  ghost predicate InRange(s: State, a: nat, wants: seq<Want>) {
    a < |s.banks| && forall i | 0 <= i < |wants| :: 0 <= wants[i].row < |s.counts|
  }

  predicate Growing(s: State, w: Want)
    requires 0 <= w.row < |s.counts|
  {
    w.blocks > s.counts[w.row]
  }

  predicate IsFresh(s: State, a: nat, w: Want)
    requires a < |s.banks| && 0 <= w.row < |s.counts|
  {
    Growing(s, w) && w.row !in s.banks[a].ranges
  }

  predicate IsGrow(s: State, a: nat, w: Want)
    requires a < |s.banks| && 0 <= w.row < |s.counts|
  {
    Growing(s, w) && w.row in s.banks[a].ranges
  }

  function Asked(w: Want): Request { Request(w.row, w.blocks, Some(w.length), 0, None) }

  /** The rows that need a range of their own, among the first n. */
  ghost function FreshOf(s: State, a: nat, wants: seq<Want>, n: nat): seq<Request>
    requires InRange(s, a, wants) && n <= |wants|
  {
    if n == 0 then []
    else FreshOf(s, a, wants, n - 1) + if IsFresh(s, a, wants[n - 1]) then [Asked(wants[n - 1])] else []
  }

  /** The rows that make more of their range valid, among the first n. */
  ghost function GrowOf(s: State, a: nat, wants: seq<Want>, n: nat): seq<Want>
    requires InRange(s, a, wants) && n <= |wants|
  {
    if n == 0 then []
    else GrowOf(s, a, wants, n - 1) + if IsGrow(s, a, wants[n - 1]) then [wants[n - 1]] else []
  }

  ghost predicate GrowthFits(s: State, a: nat, w: Want)
    requires a < |s.banks| && 0 <= w.row < |s.counts|
  {
    IsGrow(s, a, w) ==> w.blocks <= s.banks[a].ranges[w.row].blocks
  }

  ghost predicate Roomy(s: State, a: nat, wants: seq<Want>)
    requires InRange(s, a, wants)
  {
    && (forall i | 0 <= i < |wants| :: GrowthFits(s, a, wants[i]))
    && Total(FreshOf(s, a, wants, |wants|), |FreshOf(s, a, wants, |wants|)|) <= s.banks[a].Remaining()
  }

  /** When an allocation succeeds: growth stays in reserved ranges, new ranges fit the bank, and each fits a table line. */
  ghost predicate Allocatable(c: Config, s: State, a: nat, wants: seq<Want>)
    requires InRange(s, a, wants)
  {
    && Roomy(s, a, wants)
    && forall i | 0 <= i < |wants| && IsFresh(s, a, wants[i]) :: wants[i].blocks <= c.width
  }

  function Arange(first: int, n: nat): (r: seq<int>)
    ensures |r| == n && forall j | 0 <= j < n :: r[j] == first + j
  {
    seq(n, j => first + j)
  }

  ghost function GrowIds(s: State, a: nat, grow: seq<Want>, n: nat): seq<int>
    requires n <= |grow| && a < |s.banks| && forall i | 0 <= i < |grow| :: 0 <= grow[i].row < |s.counts| && grow[i].row in s.banks[a].ranges
    requires forall i | 0 <= i < |grow| :: s.counts[grow[i].row] <= grow[i].blocks
  {
    if n == 0 then [] else GrowIds(s, a, grow, n - 1) + RowIds(s, a, grow[n - 1])
  }

  /** The blocks of its own range that a growing row gets next. */
  ghost function RowIds(s: State, a: nat, w: Want): seq<int>
    requires a < |s.banks| && 0 <= w.row < |s.counts| && w.row in s.banks[a].ranges && s.counts[w.row] <= w.blocks
  {
    Arange(s.banks[a].ranges[w.row].First() + s.counts[w.row], w.blocks - s.counts[w.row])
  }

  lemma {:induction false} TotalOfPrefix(a: seq<Request>, b: seq<Request>, n: nat)
    requires n <= |a| && n <= |b| && a[..n] == b[..n]
    ensures Total(a, n) == Total(b, n)
  {
    if n > 0 {
      assert a[..n][n - 1] == b[..n][n - 1] && a[..n - 1] == a[..n][..n - 1] && b[..n - 1] == b[..n][..n - 1];
      TotalOfPrefix(a, b, n - 1);
    }
  }

  lemma TotalMore(requests: seq<Request>, q: Request)
    ensures Total(requests + [q], |requests| + 1) == Total(requests, |requests|) + q.blocks
  {
    assert (requests + [q])[..|requests|] == requests[..|requests|];
    TotalOfPrefix(requests + [q], requests, |requests|);
  }

  ghost predicate Wanted(c: Config, s: State, a: nat, wants: seq<Want>) {
    && Inv(c, s) && a < 2 && (forall i | 0 <= i < |wants| :: 0 <= wants[i].row < c.rows)
    && (forall i, j | 0 <= i < j < |wants| :: wants[i].row != wants[j].row)
    && forall i | 0 <= i < |wants| :: wants[i].row !in s.banks[1 - a].ranges
  }

  /** Membership in the two lists. */
  lemma {:induction false} FreshFacts(c: Config, s: State, a: nat, wants: seq<Want>, n: nat)
    requires Wanted(c, s, a, wants) && n <= |wants|
    ensures forall q | q in FreshOf(s, a, wants, n) :: exists i | 0 <= i < n :: IsFresh(s, a, wants[i]) && q == Asked(wants[i])
    ensures forall i | 0 <= i < n && IsFresh(s, a, wants[i]) :: Asked(wants[i]) in FreshOf(s, a, wants, n)
    ensures DistinctRequests(FreshOf(s, a, wants, n))
  {
    if n > 0 {
      var f, w := FreshOf(s, a, wants, n - 1), wants[n - 1];
      FreshFacts(c, s, a, wants, n - 1);
      forall i | 0 <= i < |f| ensures f[i].row != w.row {
        assert f[i] in f;
        var k :| 0 <= k < n - 1 && IsFresh(s, a, wants[k]) && f[i] == Asked(wants[k]);
      }
      assert f + [] == f;
    }
  }

  lemma {:induction false} GrowFacts(c: Config, s: State, a: nat, wants: seq<Want>, n: nat)
    requires Wanted(c, s, a, wants) && n <= |wants|
    ensures forall w | w in GrowOf(s, a, wants, n) :: exists i | 0 <= i < n :: IsGrow(s, a, wants[i]) && w == wants[i]
    ensures forall i | 0 <= i < n && IsGrow(s, a, wants[i]) :: wants[i] in GrowOf(s, a, wants, n)
    ensures DistinctWants(GrowOf(s, a, wants, n))
  {
    if n > 0 {
      var g, w := GrowOf(s, a, wants, n - 1), wants[n - 1];
      GrowFacts(c, s, a, wants, n - 1);
      forall i | 0 <= i < |g| ensures g[i].row != w.row {
        assert g[i] in g;
        var k :| 0 <= k < n - 1 && IsGrow(s, a, wants[k]) && g[i] == wants[k];
      }
      assert g + [] == g;
    }
  }

  ghost predicate DistinctRequests(f: seq<Request>) {
    forall i, j | 0 <= i < j < |f| :: f[i].row != f[j].row
  }

  ghost predicate DistinctWants(g: seq<Want>) {
    forall i, j | 0 <= i < j < |g| :: g[i].row != g[j].row
  }

  lemma FreshReservable(c: Config, s: State, a: nat, wants: seq<Want>)
    requires Wanted(c, s, a, wants) && Roomy(s, a, wants)
    ensures var f := FreshOf(s, a, wants, |wants|);
            && Reservations(c, s, a, f) && (forall i | 0 <= i < |f| :: f[i].row !in s.banks[1 - a].ranges)
            && forall i | 0 <= i < |f| :: exists k | 0 <= k < |wants| :: f[i].row == wants[k].row
  {
    var f := FreshOf(s, a, wants, |wants|);
    FreshFacts(c, s, a, wants, |wants|);
    forall i | 0 <= i < |f|
      ensures Modest(c, f[i]) && f[i].row !in s.banks[a].ranges && f[i].row !in s.banks[1 - a].ranges
      ensures exists k | 0 <= k < |wants| :: f[i].row == wants[k].row
    {
      assert f[i] in f;
      var k :| 0 <= k < |wants| && IsFresh(s, a, wants[k]) && f[i] == Asked(wants[k]);
    }
  }

  lemma FreshReady(c: Config, s: State, a: nat, wants: seq<Want>, rows: seq<int>)
    requires Wanted(c, s, a, wants) && Roomy(s, a, wants) && |rows| == |wants| && forall i | 0 <= i < |rows| :: rows[i] == wants[i].row
    ensures var f := FreshOf(s, a, wants, |wants|);
            && Reservations(c, s, a, f) && (forall i | 0 <= i < |f| :: f[i].row !in s.banks[1 - a].ranges)
            && (forall i | 0 <= i < |f| :: f[i].row in rows)
            && ((forall i | 0 <= i < |f| :: f[i].blocks <= c.width) <==> Allocatable(c, s, a, wants))
  {
    var f := FreshOf(s, a, wants, |wants|);
    FreshReservable(c, s, a, wants);
    NarrowIsAllocatable(c, s, a, wants);
    forall i | 0 <= i < |f| ensures f[i].row in rows {
      var k :| 0 <= k < |wants| && f[i].row == wants[k].row;
      assert rows[k] in rows;
    }
  }

  lemma NarrowIsAllocatable(c: Config, s: State, a: nat, wants: seq<Want>)
    requires Wanted(c, s, a, wants) && Roomy(s, a, wants)
    ensures var f := FreshOf(s, a, wants, |wants|); (forall i | 0 <= i < |f| :: f[i].blocks <= c.width) <==> Allocatable(c, s, a, wants)
  {
    var f := FreshOf(s, a, wants, |wants|);
    FreshFacts(c, s, a, wants, |wants|);
    if Allocatable(c, s, a, wants) {
      forall i | 0 <= i < |f| ensures f[i].blocks <= c.width {
        assert f[i] in f;
        var k :| 0 <= k < |wants| && IsFresh(s, a, wants[k]) && f[i] == Asked(wants[k]);
      }
    }
    if forall i | 0 <= i < |f| :: f[i].blocks <= c.width {
      forall i | 0 <= i < |wants| && IsFresh(s, a, wants[i]) ensures wants[i].blocks <= c.width {
        var k :| 0 <= k < |f| && f[k] == Asked(wants[i]);
      }
    }
  }

  ghost predicate Grows(s: State, a: nat, grow: seq<Want>) {
    && |s.banks| == 2 && a < 2
    && (forall i | 0 <= i < |grow| ::
          && 0 <= grow[i].row < |s.counts| && grow[i].row in s.banks[a].ranges
          && s.counts[grow[i].row] < grow[i].blocks <= s.banks[a].ranges[grow[i].row].blocks)
    && forall i, j | 0 <= i < j < |grow| :: grow[i].row != grow[j].row
  }

  ghost function GrowRows(grow: seq<Want>, n: nat): set<int>
    requires n <= |grow|
  {
    set i | 0 <= i < n :: grow[i].row
  }

  /** The first n rows have new lengths, and nothing else in the bank has changed. */
  ghost predicate GrownBank(a: Bank, b: Bank, grow: seq<Want>, n: nat)
    requires n <= |grow|
  {
    && b == a.(ranges := b.ranges) && b.ranges.Keys == a.ranges.Keys
    && (forall i | 0 <= i < n && grow[i].row in a.ranges :: b.ranges[grow[i].row] == a.ranges[grow[i].row].(logical := grow[i].length))
    && forall r | r in a.ranges && r !in GrowRows(grow, n) :: b.ranges[r] == a.ranges[r]
  }

  /** The first n rows have more of their ranges valid, and nothing else has changed. */
  ghost predicate GrownTo(before: State, now: State, a: nat, grow: seq<Want>, n: nat)
    requires n <= |grow|
  {
    && |before.banks| == |now.banks| == 2 && a < 2 && now.banks[1 - a] == before.banks[1 - a]
    && GrownBank(before.banks[a], now.banks[a], grow, n)
    && SameLines(before, now, GrowRows(grow, n))
    && forall i | 0 <= i < n :: 0 <= grow[i].row < |now.counts| && now.counts[grow[i].row] == grow[i].blocks
  }

  lemma NothingGrown(s: State, a: nat, grow: seq<Want>)
    requires Grows(s, a, grow)
    ensures GrownTo(s, s, a, grow, 0) && GrowIds(s, a, grow, 0) == []
  {
    assert s.banks[a].(ranges := s.banks[a].ranges) == s.banks[a];
  }

  /** The next row to grow is as it was. */
  lemma GrowNext(c: Config, before: State, now: State, a: nat, grow: seq<Want>, n: nat)
    requires Grows(before, a, grow) && n < |grow| && GrownTo(before, now, a, grow, n) && Inv(c, now)
    ensures var w := grow[n];
            && w.row !in GrowRows(grow, n) && w.row in now.banks[a].ranges && now.banks[a].ranges[w.row] == before.banks[a].ranges[w.row]
            && 0 <= w.row < c.rows && now.counts[w.row] == before.counts[w.row]
            && now.banks[a].ranges[w.row].row == w.row && now.banks[a].ranges[w.row].blocks <= c.width
  {
    assert grow[n].row !in GrowRows(grow, n);
    assert Placed(c, now.banks[a], a, grow[n].row);
  }

  /** Growing it keeps to the plan. */
  lemma GrowStep(before: State, now: State, next: State, a: nat, grow: seq<Want>, n: nat, l: Location)
    requires n < |grow| && GrownTo(before, now, a, grow, n) && grow[n].row !in GrowRows(grow, n)
    requires grow[n].row in now.banks[a].ranges && now.banks[a].ranges[grow[n].row] == before.banks[a].ranges[grow[n].row]
    requires l == now.banks[a].ranges[grow[n].row].(logical := grow[n].length) && l.row == grow[n].row
    requires 0 <= l.row < |now.counts| == |now.table| && grow[n].blocks <= |now.table[l.row]|
    requires next == Remap(WithRange(now, a, l.row, l), l, grow[n].blocks)
    ensures GrownTo(before, next, a, grow, n + 1)
  {
    assert GrowRows(grow, n + 1) == GrowRows(grow, n) + {grow[n].row};
    GrowStepBank(before.banks[a], now.banks[a], next.banks[a], grow, n, l);
    forall i | 0 <= i < n ensures grow[i].row in GrowRows(grow, n) {}
  }

  lemma GrowStepBank(a: Bank, b: Bank, next: Bank, grow: seq<Want>, n: nat, l: Location)
    requires n < |grow| && GrownBank(a, b, grow, n) && grow[n].row !in GrowRows(grow, n)
    requires grow[n].row in b.ranges && b.ranges[grow[n].row] == a.ranges[grow[n].row]
    requires l == b.ranges[grow[n].row].(logical := grow[n].length)
    requires next == b.(ranges := b.ranges[grow[n].row := l])
    ensures GrownBank(a, next, grow, n + 1)
  {
    assert GrowRows(grow, n + 1) == GrowRows(grow, n) + {grow[n].row};
    forall i | 0 <= i < n ensures grow[i].row in GrowRows(grow, n) {}
    assert next.ranges.Keys == b.ranges.Keys;
  }

  /** What one row gets: nothing when its target is met already, else its blocks, in its own range. */
  ghost predicate Brought(before: State, now: State, a: nat, w: Want)
    requires |before.banks| == |now.banks| == 2 && a < 2 && 0 <= w.row < |before.counts| == |now.counts| && |before.table| == |now.table| == |now.counts|
  {
    if Growing(before, w) then
      && w.row in now.banks[a].ranges && now.counts[w.row] == w.blocks && now.banks[a].ranges[w.row].logical == w.length
      && if w.row in before.banks[a].ranges
         then now.banks[a].ranges[w.row] == before.banks[a].ranges[w.row].(logical := now.banks[a].ranges[w.row].logical)
         else now.banks[a].ranges[w.row].blocks == w.blocks && now.banks[a].ranges[w.row].version == 0
    else
      && now.counts[w.row] == before.counts[w.row] && now.table[w.row] == before.table[w.row]
      && (w.row in now.banks[a].ranges <==> w.row in before.banks[a].ranges)
      && (w.row in before.banks[a].ranges ==> now.banks[a].ranges[w.row] == before.banks[a].ranges[w.row])
  }

  ghost predicate Allocated(before: State, now: State, a: nat, wants: seq<Want>) {
    && |before.banks| == |now.banks| == 2 && a < 2 && now.banks[1 - a] == before.banks[1 - a]
    && now.banks[a] == before.banks[a].(ptr := now.banks[a].ptr, ranges := now.banks[a].ranges)
    && (forall r | r in now.banks[a].ranges :: r in before.banks[a].ranges || exists i | 0 <= i < |wants| :: wants[i].row == r)
    && |before.counts| == |now.counts| == |before.table| == |now.table|
    && (forall i | 0 <= i < |wants| :: 0 <= wants[i].row < |now.counts| && Brought(before, now, a, wants[i]))
    && SameLines(before, now, set i | 0 <= i < |wants| :: wants[i].row)
    && forall r | r in before.banks[a].ranges && (forall i | 0 <= i < |wants| :: wants[i].row != r) ::
         r in now.banks[a].ranges && now.banks[a].ranges[r] == before.banks[a].ranges[r]
  }

  /** The blocks that became valid: the fresh ranges lie one after the other, then each grown row's next blocks. */
  ghost function NewIds(s: State, a: nat, wants: seq<Want>): seq<int>
    requires InRange(s, a, wants)
  {
    var f, g := FreshOf(s, a, wants, |wants|), GrowOf(s, a, wants, |wants|);
    if Total(f, |f|) >= 0 && Grows(s, a, g)
    then Arange(s.banks[a].base + s.banks[a].ptr, Total(f, |f|)) + GrowIds(s, a, g, |g|) else []
  }

  lemma GrowsNow(c: Config, s: State, a: nat, wants: seq<Want>)
    requires Wanted(c, s, a, wants) && Roomy(s, a, wants)
    ensures Grows(s, a, GrowOf(s, a, wants, |wants|))
  {
    var g := GrowOf(s, a, wants, |wants|);
    GrowFacts(c, s, a, wants, |wants|);
    forall i | 0 <= i < |g|
      ensures 0 <= g[i].row < |s.counts| && g[i].row in s.banks[a].ranges
      ensures s.counts[g[i].row] < g[i].blocks <= s.banks[a].ranges[g[i].row].blocks
    {
      assert g[i] in g;
      var k :| 0 <= k < |wants| && IsGrow(s, a, wants[k]) && g[i] == wants[k];
      assert GrowthFits(s, a, wants[k]);
    }
  }

  /** The new reservations do not touch the rows that grow. */
  lemma GrowsStill(c: Config, before: State, mid: State, a: nat, wants: seq<Want>, locations: seq<Location>)
    requires Wanted(c, before, a, wants) && Roomy(before, a, wants) && |mid.counts| == |mid.table|
    requires var f := FreshOf(before, a, wants, |wants|); Applied(before, mid, a, f, |f|, locations)
    ensures var g := GrowOf(before, a, wants, |wants|);
            Grows(before, a, g) && Grows(mid, a, g) && GrowIds(mid, a, g, |g|) == GrowIds(before, a, g, |g|)
  {
    var f, g := FreshOf(before, a, wants, |wants|), GrowOf(before, a, wants, |wants|);
    GrowsNow(c, before, a, wants);
    FreshFacts(c, before, a, wants, |wants|);
    forall i | 0 <= i < |g| ensures mid.counts[g[i].row] == before.counts[g[i].row] {
      forall k | 0 <= k < |f| ensures f[k].row != g[i].row { assert f[k] in f; }
    }
    GrowIdsSame(before, mid, a, g, |g|);
  }

  lemma {:induction false} GrowIdsSame(s: State, t: State, a: nat, g: seq<Want>, n: nat)
    requires Grows(s, a, g) && Grows(t, a, g) && n <= |g|
    requires forall i | 0 <= i < |g| :: t.counts[g[i].row] == s.counts[g[i].row] && t.banks[a].ranges[g[i].row] == s.banks[a].ranges[g[i].row]
    ensures GrowIds(t, a, g, n) == GrowIds(s, a, g, n)
  {
    if n > 0 { GrowIdsSame(s, t, a, g, n - 1); }
  }

  /** No row but the wanted ones is reserved or grown, and no batch is named. */
  lemma OnlyWanted(c: Config, s: State, a: nat, wants: seq<Want>, batch: Option<string>)
    requires Wanted(c, s, a, wants)
    ensures var f, g := FreshOf(s, a, wants, |wants|), GrowOf(s, a, wants, |wants|);
            && (forall r | r in NamedRows(f, |f|) :: exists i | 0 <= i < |wants| :: wants[i].row == r)
            && (forall r | r in GrowRows(g, |g|) :: exists i | 0 <= i < |wants| :: wants[i].row == r)
            && BatchAfter(batch, f, |f|) == batch
  {
    var f, g := FreshOf(s, a, wants, |wants|), GrowOf(s, a, wants, |wants|);
    FreshFacts(c, s, a, wants, |wants|);
    GrowFacts(c, s, a, wants, |wants|);
    forall k | 0 <= k < |f|
      ensures f[k].batch.None? && exists i | 0 <= i < |wants| :: wants[i].row == f[k].row
    {
      assert f[k] in f;
      var i :| 0 <= i < |wants| && IsFresh(s, a, wants[i]) && f[k] == Asked(wants[i]);
      assert wants[i].row == f[k].row;
    }
    forall k | 0 <= k < |g| ensures exists i | 0 <= i < |wants| :: wants[i].row == g[k].row {
      assert g[k] in g;
    }
    NoBatchNamed(batch, f, |f|);
  }

  lemma BothAllocated(c: Config, before: State, mid: State, now: State, a: nat, wants: seq<Want>, locations: seq<Location>)
    requires Wanted(c, before, a, wants) && Roomy(before, a, wants) && Shaped(c, now) && Shaped(c, mid)
    requires var f := FreshOf(before, a, wants, |wants|); Applied(before, mid, a, f, |f|, locations)
    requires var g := GrowOf(before, a, wants, |wants|); Grows(mid, a, g) && GrownTo(mid, now, a, g, |g|)
    ensures Allocated(before, now, a, wants)
  {
    forall i | 0 <= i < |wants| ensures Brought(before, now, a, wants[i]) {
      WantBrought(c, before, mid, now, a, wants, locations, i);
    }
    OnlyWanted(c, before, a, wants, before.banks[a].batch);
    var f := FreshOf(before, a, wants, |wants|);
    forall k | 0 <= k < |f| ensures f[k].row in NamedRows(f, |f|) {}
  }

  /** The new block numbers: those of the reserved ranges, then those that growing made valid. */
  /** The fresh rows of an allocation have their ranges. */
  ghost predicate FreshTaken(before: State, now: State, a: nat, wants: seq<Want>, locations: seq<Location>)
    requires InRange(before, a, wants)
  {
    var f := FreshOf(before, a, wants, |wants|);
    Applied(before, now, a, f, |f|, locations)
  }

  /** The block numbers of the fresh rows, one range after the other from the bump pointer on. */
  ghost predicate FreshNamed(before: State, a: nat, wants: seq<Want>, reserved: seq<int>)
    requires InRange(before, a, wants)
  {
    var f := FreshOf(before, a, wants, |wants|);
    Total(f, |f|) >= 0 && reserved == Arange(before.banks[a].base + before.banks[a].ptr, Total(f, |f|))
  }

  lemma TheyAreAll(s: State, a: nat, wants: seq<Want>, reserved: seq<int>, grown: seq<int>)
    requires InRange(s, a, wants) && FreshNamed(s, a, wants, reserved)
    requires var g := GrowOf(s, a, wants, |wants|); Grows(s, a, g) && grown == GrowIds(s, a, g, |g|)
    ensures reserved + grown == NewIds(s, a, wants)
  {
  }

  lemma WantBrought(c: Config, before: State, mid: State, now: State, a: nat, wants: seq<Want>, locations: seq<Location>, i: nat)
    requires Wanted(c, before, a, wants) && Roomy(before, a, wants) && Shaped(c, now) && Shaped(c, mid) && i < |wants|
    requires var f := FreshOf(before, a, wants, |wants|); Applied(before, mid, a, f, |f|, locations)
    requires var g := GrowOf(before, a, wants, |wants|); Grows(mid, a, g) && GrownTo(mid, now, a, g, |g|)
    ensures Brought(before, now, a, wants[i])
  {
    var f, g, w := FreshOf(before, a, wants, |wants|), GrowOf(before, a, wants, |wants|), wants[i];
    FreshFacts(c, before, a, wants, |wants|);
    GrowFacts(c, before, a, wants, |wants|);
    InFresh(c, before, a, wants, i);
    InGrow(c, before, a, wants, i);
    if !Growing(before, w) {
      assert w.row !in GrowRows(g, |g|) && w.row !in NamedRows(f, |f|);
    } else if w.row in before.banks[a].ranges {
      var k :| 0 <= k < |g| && g[k] == w;
      assert g[k].row in GrowRows(g, |g|);
    } else {
      var k :| 0 <= k < |f| && f[k] == Asked(w);
      assert Granted(before, mid, a, f, k, locations[k]);
      assert w.row !in GrowRows(g, |g|);
    }
  }

  /** A row is among the fresh ones exactly when it grows and has no range. */
  lemma InFresh(c: Config, s: State, a: nat, wants: seq<Want>, i: nat)
    requires Wanted(c, s, a, wants) && i < |wants|
    ensures var f := FreshOf(s, a, wants, |wants|); wants[i].row in NamedRows(f, |f|) <==> IsFresh(s, a, wants[i])
  {
    var f := FreshOf(s, a, wants, |wants|);
    FreshFacts(c, s, a, wants, |wants|);
    forall k | 0 <= k < |f| && f[k].row == wants[i].row ensures IsFresh(s, a, wants[i]) {
      assert f[k] in f;
      var j :| 0 <= j < |wants| && IsFresh(s, a, wants[j]) && f[k] == Asked(wants[j]);
      assert j == i;
    }
    if IsFresh(s, a, wants[i]) {
      var k :| 0 <= k < |f| && f[k] == Asked(wants[i]);
      assert f[k].row in NamedRows(f, |f|);
    }
  }

  lemma InGrow(c: Config, s: State, a: nat, wants: seq<Want>, i: nat)
    requires Wanted(c, s, a, wants) && i < |wants|
    ensures var g := GrowOf(s, a, wants, |wants|); wants[i].row in GrowRows(g, |g|) <==> IsGrow(s, a, wants[i])
  {
    var g := GrowOf(s, a, wants, |wants|);
    GrowFacts(c, s, a, wants, |wants|);
    forall k | 0 <= k < |g| && g[k].row == wants[i].row ensures IsGrow(s, a, wants[i]) {
      assert g[k] in g;
      var j :| 0 <= j < |wants| && IsGrow(s, a, wants[j]) && g[k] == wants[j];
      assert j == i;
    }
    if IsGrow(s, a, wants[i]) {
      var k :| 0 <= k < |g| && g[k] == wants[i];
      assert g[k].row in GrowRows(g, |g|);
    }
  }

  datatype Want = Want(row: int, blocks: nat, length: nat)

  /** What a crop says of a live row: the new length, and one more version. */
  function CropLocation(l: Location, w: Want): Location {
    l.(logical := w.length, version := l.version + 1)
  }

  function CropOne(s: State, w: Want): State
    requires |s.banks| == 2 && 0 <= w.row < |s.counts|
  {
    var t := if w.row in s.banks[0].ranges then WithRange(s, 0, w.row, CropLocation(s.banks[0].ranges[w.row], w))
             else if w.row in s.banks[1].ranges then WithRange(s, 1, w.row, CropLocation(s.banks[1].ranges[w.row], w))
             else s;
    t.(counts := t.counts[w.row := w.blocks])
  }

  ghost predicate CroppedBank(a: Bank, b: Bank, wants: seq<Want>, n: nat)
    requires n <= |wants|
  {
    && b == a.(ranges := b.ranges) && b.ranges.Keys == a.ranges.Keys
    && (forall i | 0 <= i < n && wants[i].row in a.ranges :: b.ranges[wants[i].row] == CropLocation(a.ranges[wants[i].row], wants[i]))
    && forall r | r in a.ranges && (forall i | 0 <= i < n :: wants[i].row != r) :: b.ranges[r] == a.ranges[r]
  }

  /** The first n rows are cropped, the rest is as before. */
  ghost predicate Cropped(before: State, now: State, wants: seq<Want>, n: nat)
    requires n <= |wants|
  {
    && |before.banks| == |now.banks| == 2 && now.table == before.table && |now.counts| == |before.counts|
    && CroppedBank(before.banks[0], now.banks[0], wants, n) && CroppedBank(before.banks[1], now.banks[1], wants, n)
    && (forall i | 0 <= i < n :: 0 <= wants[i].row < |now.counts| && now.counts[wants[i].row] == wants[i].blocks)
    && forall r | 0 <= r < |now.counts| && (forall i | 0 <= i < n :: wants[i].row != r) :: now.counts[r] == before.counts[r]
  }

  lemma CropOneKeeps(c: Config, s: State, w: Want)
    requires Inv(c, s) && 0 <= w.row < c.rows && w.blocks <= s.counts[w.row]
    ensures Inv(c, CropOne(s, w))
  {
    if w.row in s.banks[0].ranges {
      assert Placed(c, s.banks[0], 0, w.row);
      CropKeeps(c, s, 0, CropLocation(s.banks[0].ranges[w.row], w), w.blocks);
    } else if w.row in s.banks[1].ranges {
      assert Placed(c, s.banks[1], 1, w.row);
      CropKeeps(c, s, 1, CropLocation(s.banks[1].ranges[w.row], w), w.blocks);
    } else {
      assert !Live(s, w.row);
      assert s.counts[w.row := w.blocks] == s.counts;
    }
  }

  lemma CropMore(c: Config, before: State, now: State, wants: seq<Want>, n: nat)
    requires Inv(c, before) && Inv(c, now) && n < |wants| && Cropped(before, now, wants, n)
    requires forall i | 0 <= i < |wants| :: 0 <= wants[i].row < c.rows && wants[i].blocks <= before.counts[wants[i].row]
    requires forall i, j | 0 <= i < j < |wants| :: wants[i].row != wants[j].row
    ensures Inv(c, CropOne(now, wants[n])) && Cropped(before, CropOne(now, wants[n]), wants, n + 1)
  {
    var w := wants[n];
    assert forall i | 0 <= i < n :: wants[i].row != w.row;
    assert now.counts[w.row] == before.counts[w.row];
    CropOneKeeps(c, now, w);
    var next := CropOne(now, w);
    CropMoreBank(before.banks[0], now.banks[0], next.banks[0], wants, n);
    CropMoreBank(before.banks[1], now.banks[1], next.banks[1], wants, n);
    CropMoreCounts(before, now, next, wants, n);
  }

  lemma CropMoreBank(a: Bank, b: Bank, next: Bank, wants: seq<Want>, n: nat)
    requires n < |wants| && CroppedBank(a, b, wants, n) && forall i | 0 <= i < n :: wants[i].row != wants[n].row
    requires next == if wants[n].row in b.ranges then b.(ranges := b.ranges[wants[n].row := CropLocation(b.ranges[wants[n].row], wants[n])]) else b
    ensures CroppedBank(a, next, wants, n + 1)
  {
  }

  lemma CropMoreCounts(before: State, now: State, next: State, wants: seq<Want>, n: nat)
    requires n < |wants| && Cropped(before, now, wants, n) && 0 <= wants[n].row < |now.counts|
    requires forall i | 0 <= i < n :: wants[i].row != wants[n].row
    requires next.counts == now.counts[wants[n].row := wants[n].blocks]
    ensures forall i | 0 <= i < n + 1 :: next.counts[wants[i].row] == wants[i].blocks
    ensures forall r | 0 <= r < |now.counts| && (forall i | 0 <= i < n + 1 :: wants[i].row != r) :: next.counts[r] == before.counts[r]
  {
    forall r | 0 <= r < |now.counts| && (forall i | 0 <= i < n + 1 :: wants[i].row != r) ensures next.counts[r] == before.counts[r] {
      assert wants[n].row != r;
      assert forall i | 0 <= i < n :: wants[i].row != r;
    }
  }

  ghost function RowsOf(qs: seq<Release>, n: nat): set<int>
    requires n <= |qs|
  {
    set i | 0 <= i < n :: qs[i].row
  }

  /** Exact releases of different (bank, row) pairs are of different rows, as a row is live in one bank. */
  lemma OneBankEach(c: Config, s: State, qs: seq<Release>)
    requires Inv(c, s) && forall i | 0 <= i < |qs| :: 0 <= qs[i].bankId < 2 && qs[i].row in s.banks[qs[i].bankId].ranges
    requires forall i, j | 0 <= i < j < |qs| :: qs[i].bankId != qs[j].bankId || qs[i].row != qs[j].row
    ensures forall i, j | 0 <= i < j < |qs| :: qs[i].row != qs[j].row
  {
  }

  lemma ReleasedMore(before: State, now: State, qs: seq<Release>, n: nat)
    requires n < |qs| && |before.banks| == 2 && Released(before, now, RowsOf(qs, n))
    requires 0 <= qs[n].bankId < 2 && qs[n].row in before.banks[qs[n].bankId].ranges && 0 <= qs[n].row < |now.counts|
    requires qs[n].row !in before.banks[1 - qs[n].bankId].ranges
    requires forall i, j | 0 <= i < j < |qs| :: qs[i].row != qs[j].row
    ensures qs[n].row in now.banks[qs[n].bankId].ranges
    ensures Released(before, Dropped(now, qs[n].bankId, qs[n].row), RowsOf(qs, n + 1))
  {
    var q, rows := qs[n], RowsOf(qs, n);
    var next := Dropped(now, q.bankId, q.row);
    assert q.row !in rows;
    assert RowsOf(qs, n + 1) == rows + {q.row};
    forall i | 0 <= i < 2 ensures next.banks[i] == before.banks[i].(ranges := before.banks[i].ranges - (rows + {q.row})) {
      if i == q.bankId {
        assert before.banks[i].ranges - rows - {q.row} == before.banks[i].ranges - (rows + {q.row});
      } else {
        assert before.banks[i].ranges - rows == before.banks[i].ranges - (rows + {q.row});
      }
    }
  }

  /** The rows are gone from both banks and have no blocks; everything else is as before. */
  ghost predicate Released(before: State, now: State, rows: set<int>) {
    && |before.banks| == |now.banks| == 2 && now.table == before.table && |now.counts| == |before.counts|
    && (forall i | 0 <= i < 2 :: now.banks[i] == before.banks[i].(ranges := before.banks[i].ranges - rows))
    && forall r | 0 <= r < |now.counts| :: now.counts[r] == if r in rows then 0 else before.counts[r]
  }

  lemma NothingReleased(s: State)
    requires |s.banks| == 2
    ensures Released(s, s, {})
  {
    forall i | 0 <= i < 2 ensures s.banks[i] == s.banks[i].(ranges := s.banks[i].ranges - {}) {
      assert s.banks[i].ranges - {} == s.banks[i].ranges;
    }
  }

  lemma ReleasedOne(before: State, mid: State, now: State, rows: set<int>, row: int)
    requires Released(before, mid, rows) && Released(mid, now, {row})
    ensures Released(before, now, rows + {row})
  {
    forall i | 0 <= i < 2 ensures now.banks[i] == before.banks[i].(ranges := before.banks[i].ranges - (rows + {row})) {
      assert before.banks[i].ranges - rows - {row} == before.banks[i].ranges - (rows + {row});
    }
  }

  /** Role, batch and readiness do not matter to the invariant, nor does the bump pointer of an empty bank. */
  lemma SameRangesKeep(c: Config, s: State, id: nat, ptr: nat, b: Bank)
    requires Inv(c, s) && id < 2 && ptr <= s.banks[id].size && (ptr == s.banks[id].ptr || s.banks[id].ranges == map[])
    requires b == s.banks[id].(ptr := ptr, role := b.role, batch := b.batch, ready := b.ready)
    ensures Inv(c, s.(banks := s.banks[id := b]))
  {
    var t := s.(banks := s.banks[id := b]);
    forall r | r in b.ranges ensures Placed(c, b, id, r) { assert Placed(c, s.banks[id], id, r); }
    forall i, r | 0 <= i < 2 && r in t.banks[i].ranges ensures Mapped(t.banks[i].ranges[r], t.counts, t.table) {
      assert Mapped(s.banks[i].ranges[r], s.counts, s.table);
    }
    forall r | 0 <= r < c.rows && !Live(t, r) ensures t.counts[r] == 0 { assert !Live(s, r); }
  }

  /** The first n requests have their ranges one after the other, and nothing else in the banks has changed. */
  ghost predicate Applied(before: State, now: State, id: int, requests: seq<Request>, n: nat, locations: seq<Location>) {
    && 0 <= id < 2 && |before.banks| == |now.banks| == 2 && n == |locations| <= |requests|
    && now.banks[1 - id] == before.banks[1 - id]
    && now.banks[id].ptr == before.banks[id].ptr + Total(requests, n)
    && now.banks[id] == before.banks[id].(ptr := now.banks[id].ptr, ranges := now.banks[id].ranges,
                                          batch := BatchAfter(before.banks[id].batch, requests, n))
    && (forall k | 0 <= k < n :: Granted(before, now, id, requests, k, locations[k]))
    && (forall x | x in before.banks[id].ranges :: x in now.banks[id].ranges && now.banks[id].ranges[x] == before.banks[id].ranges[x])
    && (forall x | x in now.banks[id].ranges :: x in before.banks[id].ranges || exists k | 0 <= k < n :: requests[k].row == x)
    && SameLines(before, now, NamedRows(requests, n))
  }

  /** The bank's batch is the last one that a reservation names. */
  function BatchAfter(batch: Option<string>, requests: seq<Request>, n: nat): Option<string>
    requires n <= |requests|
  {
    if n == 0 then batch
    else if requests[n - 1].batch.Some? then requests[n - 1].batch else BatchAfter(batch, requests, n - 1)
  }

  lemma {:induction false} NoBatchNamed(batch: Option<string>, requests: seq<Request>, n: nat)
    requires n <= |requests| && forall i | 0 <= i < n :: requests[i].batch.None?
    ensures BatchAfter(batch, requests, n) == batch
  {
    if n > 0 { NoBatchNamed(batch, requests, n - 1); }
  }

  ghost function NamedRows(requests: seq<Request>, n: nat): set<int>
    requires n <= |requests|
  {
    set k | 0 <= k < n :: requests[k].row
  }

  /** Table lines and counts differ at most at the named rows. */
  ghost predicate SameLines(a: State, b: State, rows: set<int>) {
    && |a.counts| == |b.counts| && |a.table| == |b.table|
    && (forall r | 0 <= r < |a.counts| && r !in rows :: b.counts[r] == a.counts[r])
    && forall r | 0 <= r < |a.table| && r !in rows :: b.table[r] == a.table[r]
  }

  ghost predicate Granted(before: State, now: State, id: int, requests: seq<Request>, k: nat, l: Location)
    requires 0 <= id < 2 && |before.banks| == |now.banks| == 2 && k < |requests|
  {
    && l.row == requests[k].row && l.blocks == requests[k].blocks && l.start == before.banks[id].ptr + Total(requests, k)
    && l.version == requests[k].version && (requests[k].logical.Some? ==> l.logical == requests[k].logical.value)
    && l.row in now.banks[id].ranges && now.banks[id].ranges[l.row] == l
    && 0 <= l.row < |now.counts| && now.counts[l.row] == l.blocks
  }

  ghost predicate Reservations(c: Config, s: State, id: int, requests: seq<Request>)
    requires 0 <= id < 2 && |s.banks| == 2
  {
    && (forall i | 0 <= i < |requests| :: Modest(c, requests[i]) && requests[i].row !in s.banks[id].ranges)
    && (forall i, j | 0 <= i < j < |requests| :: requests[i].row != requests[j].row)
    && Total(requests, |requests|) <= s.banks[id].size - s.banks[id].ptr
  }

  lemma NextReservable(c: Config, before: State, now: State, id: int, requests: seq<Request>, n: nat, locations: seq<Location>)
    requires Applied(before, now, id, requests, n, locations) && Reservations(c, before, id, requests) && n < |requests|
    ensures requests[n].row !in now.banks[id].ranges && requests[n].blocks <= now.banks[id].Remaining()
  {
    TotalGrows(c, requests, n + 1);
  }

  lemma AppliedMore(c: Config, before: State, now: State, id: int, requests: seq<Request>, n: nat, locations: seq<Location>)
    requires Applied(before, now, id, requests, n, locations) && Reservations(c, before, id, requests) && n < |requests|
    requires Shaped(c, now) && Sane(c, requests[n])
    ensures var l := LocationFor(c, now.banks[id], id, requests[n]);
            Applied(before, Reserved(now, l, requests[n].batch), id, requests, n + 1, locations + [l])
  {
    var l := LocationFor(c, now.banks[id], id, requests[n]);
    var next, all := Reserved(now, l, requests[n].batch), locations + [l];
    forall k | 0 <= k < n + 1 ensures Granted(before, next, id, requests, k, all[k]) {
      if k < n { assert Granted(before, now, id, requests, k, locations[k]); }
    }
    forall x | x in next.banks[id].ranges
      ensures x in before.banks[id].ranges || exists k | 0 <= k < n + 1 :: requests[k].row == x
    {
      if x != l.row && x !in before.banks[id].ranges {
        var k :| 0 <= k < n && requests[k].row == x;
      }
    }
  }

  lemma {:induction false} TotalGrows(c: Config, requests: seq<Request>, n: nat)
    requires n <= |requests| && forall i | 0 <= i < |requests| :: Modest(c, requests[i])
    ensures 0 <= Total(requests, n) <= Total(requests, |requests|)
    decreases |requests| - n
  {
    if n < |requests| {
      TotalGrows(c, requests, n + 1);
    } else {
      TotalNonneg(c, requests, n);
    }
    TotalNonneg(c, requests, n);
  }

  lemma {:induction false} TotalNonneg(c: Config, requests: seq<Request>, n: nat)
    requires n <= |requests| && forall i | 0 <= i < |requests| :: Modest(c, requests[i])
    ensures 0 <= Total(requests, n)
  {
    if n > 0 { TotalNonneg(c, requests, n - 1); }
  }

  // ---- Runs that break the callers' rule ----

  method OneRow() returns (m: BlockManager)
    ensures fresh(m) && m.Valid() && m.c == Config(1, 2, 2, 16) && |m.banks| == 2 && m.banks[0].ranges == m.banks[1].ranges == map[]
    ensures m.banks[0].ptr == m.banks[1].ptr == 0 && m.banks[0].size == m.banks[1].size == 2
  {
    m := new BlockManager(1, 2, 4, 16, [[0, 0]]);
  }

  lemma ReservedFirst(s: State, l: Location)
    requires |s.banks| == 2 && |s.counts| == |s.table| == 1 && l.bankId == 0 && l.row == 0 && l.blocks == 1 <= |s.table[0]|
    ensures var t := Reserved(s, l, None); |t.banks| == 2 && t.banks[1] == s.banks[1] && 0 in t.banks[0].ranges && t.counts == [1]
  {
  }

  /** A manager with one row, which holds one block of the first bank. */
  method OneLiveRow() returns (m: BlockManager)
    ensures fresh(m) && m.Valid() && |m.banks| == 2 && 0 in m.banks[0].ranges && m.counts == [1] && m.c.rows == 1
    ensures m.Reservable(1, Request(0, 1, None, 0, None))
  {
    m := OneRow();
    ghost var s := m.Now();
    var l := m.Reserve(0, Request(0, 1, None, 0, None));
    ReservedFirst(s, l.value);
  }

  /** The same row reserved in both banks: the second reservation is granted, and the invariant is gone. */
  method ReservesInBothBanks() returns (m: BlockManager)
    ensures |m.banks| == 2 && !m.Valid() && 0 in m.banks[0].ranges && 0 in m.banks[1].ranges
  {
    m := OneLiveRow();
    var b := m.Reserve(1, Request(0, 1, None, 0, None));
  }

  /** A bank reset under a live row: the row has no range any more and still has a block in its table line. */
  method ResetsUnderLiveRow() returns (m: BlockManager)
    ensures |m.banks| == 2 && !m.Valid() && m.banks[0].ranges == map[] && m.counts == [1]
  {
    m := OneLiveRow();
    assert m.counts[0] == 1;
    var done := m.ResetBank(0);
  }
}
