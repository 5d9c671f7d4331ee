/** The two-bank block allocator: bump reservation, a block table filled from contiguous ranges, crop, release and reset. */
module Banks {
  import opened Wrappers
  import opened BlockMath

  datatype Config = Config(rows: nat, width: nat, bankSize: nat, blockSize: nat)

  /** A row's reserved range in a bank, and how much of it is valid. */
  datatype Location = Location(bankId: nat, epoch: nat, base: nat, start: nat, blocks: nat, logical: nat, version: nat, row: int)
  {
    function First(): nat { base + start }
  }

  datatype Role = ActiveRole | StandbyRole | FreeRole | PreparedRole

  datatype Bank = Bank(base: nat, size: nat, ptr: nat, epoch: nat, role: Role, batch: Option<string>,
                       ranges: map<int, Location>, ready: bool)
  {
    function Remaining(): int { size - ptr }
  }

  /** The bank descriptors and the two device tables. */
  datatype State = State(banks: seq<Bank>, counts: seq<nat>, table: seq<seq<int>>)

  // ---- What always holds ----

  ghost predicate Placed(c: Config, b: Bank, id: nat, r: int)
    requires r in b.ranges
  {
    var l := b.ranges[r];
    && l.bankId == id && l.epoch == b.epoch && l.base == b.base && l.row == r
    && 0 <= r < c.rows && l.blocks <= c.width && l.start + l.blocks <= b.ptr
  }

  ghost predicate Apart(a: Location, b: Location) {
    a.start + a.blocks <= b.start || b.start + b.blocks <= a.start
  }

  /** Live ranges are inside the bump pointer, at the current epoch, and pairwise disjoint. */
  ghost predicate BankOk(c: Config, b: Bank, id: nat) {
    && b.base == (if id == 0 then 0 else c.bankSize) && b.size == c.bankSize && b.ptr <= b.size
    && (forall r | r in b.ranges :: Placed(c, b, id, r))
    && forall r, s | r in b.ranges && s in b.ranges && r != s :: Apart(b.ranges[r], b.ranges[s])
  }

  /** The row's table prefix is the start of its own contiguous range. */
  ghost predicate Mapped(l: Location, counts: seq<nat>, table: seq<seq<int>>)
    requires 0 <= l.row < |counts| == |table|
  {
    && counts[l.row] <= l.blocks && counts[l.row] <= |table[l.row]|
    && forall j | 0 <= j < counts[l.row] :: table[l.row][j] == l.First() + j
  }

  ghost predicate Shaped(c: Config, s: State) {
    && |s.banks| == 2 && |s.counts| == c.rows == |s.table|
    && forall r | 0 <= r < c.rows :: |s.table[r]| == c.width
  }

  ghost predicate Live(s: State, r: int)
    requires |s.banks| == 2
  {
    r in s.banks[0].ranges || r in s.banks[1].ranges
  }

  ghost predicate Inv(c: Config, s: State) {
    && Shaped(c, s) && BankOk(c, s.banks[0], 0) && BankOk(c, s.banks[1], 1)
    && (forall r | r in s.banks[0].ranges :: r !in s.banks[1].ranges)
    && (forall i, r | 0 <= i < 2 && r in s.banks[i].ranges :: Mapped(s.banks[i].ranges[r], s.counts, s.table))
    && forall r | 0 <= r < c.rows && !Live(s, r) :: s.counts[r] == 0
  }

  /** No physical block is in the tables of two rows, or twice in one. */
  lemma BlocksNotShared(c: Config, s: State, a: nat, i: nat, b: nat, j: nat)
    requires Inv(c, s) && a < c.rows && b < c.rows && i < s.counts[a] && j < s.counts[b]
    ensures i < c.width && j < c.width
    ensures s.table[a][i] == s.table[b][j] ==> a == b && i == j
  {
    assert Live(s, a) && Live(s, b);
    var x := if a in s.banks[0].ranges then 0 else 1;
    var y := if b in s.banks[0].ranges then 0 else 1;
    var p, q := s.banks[x].ranges[a], s.banks[y].ranges[b];
    assert Placed(c, s.banks[x], x, a) && Placed(c, s.banks[y], y, b) && Mapped(p, s.counts, s.table) && Mapped(q, s.counts, s.table);
    if a != b && x == y { assert Apart(p, q); }
  }

  // ---- Elementary changes ----

  function Filled(line: seq<int>, first: int, n: nat): (r: seq<int>)
    requires n <= |line|
    ensures |r| == |line| && forall j | 0 <= j < |r| :: r[j] == if j < n then first + j else line[j]
  {
    seq(n, j => first + j) + line[n..]
  }

  /** _set_valid_blocks_for_location: the first n blocks of the range become the row's table prefix. */
  function Remap(s: State, l: Location, n: nat): State
    requires 0 <= l.row < |s.counts| == |s.table| && n <= |s.table[l.row]|
  {
    if n == 0 then s.(counts := s.counts[l.row := 0])
    else s.(counts := s.counts[l.row := n], table := s.table[l.row := Filled(s.table[l.row], l.First(), n)])
  }

  function WithRange(s: State, id: nat, r: int, l: Location): State
    requires id < |s.banks|
  {
    s.(banks := s.banks[id := s.banks[id].(ranges := s.banks[id].ranges[r := l])])
  }

  /** The row loses its range and its table prefix. */
  function Dropped(s: State, id: nat, r: int): State
    requires id < |s.banks| && 0 <= r < |s.counts|
  {
    s.(banks := s.banks[id := s.banks[id].(ranges := s.banks[id].ranges - {r})], counts := s.counts[r := 0])
  }

  function Reserved(s: State, l: Location, batch: Option<string>): State
    requires l.bankId < |s.banks| && 0 <= l.row < |s.counts| == |s.table| && l.blocks <= |s.table[l.row]|
  {
    var b := s.banks[l.bankId];
    var now := b.(ptr := b.ptr + l.blocks, batch := if batch.Some? then batch else b.batch, ranges := b.ranges[l.row := l]);
    Remap(s.(banks := s.banks[l.bankId := now]), l, l.blocks)
  }

  /** A reservation keeps the invariant exactly when the row is not live in the other bank. */
  lemma ReserveKeeps(c: Config, s: State, l: Location, batch: Option<string>)
    requires Inv(c, s) && l.bankId < 2 && 0 <= l.row < c.rows && l.blocks <= c.width && l.row !in s.banks[l.bankId].ranges
    requires var b := s.banks[l.bankId];
             l.epoch == b.epoch && l.base == b.base && l.start == b.ptr && b.ptr + l.blocks <= b.size
    ensures Inv(c, Reserved(s, l, batch)) <==> l.row !in s.banks[1 - l.bankId].ranges
  {
    if l.row !in s.banks[1 - l.bankId].ranges { ReserveElsewhere(c, s, l, batch); }
  }

  lemma ReserveElsewhere(c: Config, s: State, l: Location, batch: Option<string>)
    requires Inv(c, s) && l.bankId < 2 && 0 <= l.row < c.rows && l.blocks <= c.width && !Live(s, l.row)
    requires var b := s.banks[l.bankId];
             l.epoch == b.epoch && l.base == b.base && l.start == b.ptr && b.ptr + l.blocks <= b.size
    ensures Inv(c, Reserved(s, l, batch))
  {
    var t := Reserved(s, l, batch);
    ReservedBank(c, s.banks[l.bankId], l, batch);
    RemapOwn(s, l, l.blocks);
    forall i, r | 0 <= i < 2 && r in t.banks[i].ranges ensures Mapped(t.banks[i].ranges[r], t.counts, t.table) {
      if r != l.row { OtherMapped(c, s, l, i, r, l.blocks); }
    }
    forall r | 0 <= r < c.rows && !Live(t, r) ensures t.counts[r] == 0 { assert !Live(s, r); }
  }

  lemma ReservedBank(c: Config, b: Bank, l: Location, batch: Option<string>)
    requires l.bankId < 2 && BankOk(c, b, l.bankId) && 0 <= l.row < c.rows && l.blocks <= c.width && l.row !in b.ranges
    requires l.epoch == b.epoch && l.base == b.base && l.start == b.ptr && b.ptr + l.blocks <= b.size
    ensures BankOk(c, b.(ptr := b.ptr + l.blocks, batch := if batch.Some? then batch else b.batch, ranges := b.ranges[l.row := l]), l.bankId)
  {
    var now := b.(ptr := b.ptr + l.blocks, batch := if batch.Some? then batch else b.batch, ranges := b.ranges[l.row := l]);
    forall r | r in now.ranges ensures Placed(c, now, l.bankId, r) {
      if r != l.row { assert Placed(c, b, l.bankId, r); }
    }
    forall r | r in b.ranges ensures Apart(b.ranges[r], l) && Apart(l, b.ranges[r]) { assert Placed(c, b, l.bankId, r); }
  }

  /** The row's own line after the change. */
  lemma RemapOwn(s: State, l: Location, n: nat)
    requires 0 <= l.row < |s.counts| == |s.table| && n <= |s.table[l.row]| && n <= l.blocks
    ensures Mapped(l, Remap(s, l, n).counts, Remap(s, l, n).table)
  {
  }

  lemma OtherMapped(c: Config, s: State, l: Location, i: nat, r: int, n: nat)
    requires Inv(c, s) && i < 2 && r in s.banks[i].ranges && r != l.row && 0 <= l.row < c.rows && n <= c.width
    ensures 0 <= s.banks[i].ranges[r].row < |s.counts|
    ensures Mapped(s.banks[i].ranges[r], Remap(s, l, n).counts, Remap(s, l, n).table)
  {
    assert Placed(c, s.banks[i], i, r) && Mapped(s.banks[i].ranges[r], s.counts, s.table);
  }

  /** Changing how much of a live range is valid, or what it is said to hold, keeps the invariant. */
  lemma UpdateKeeps(c: Config, s: State, id: nat, l: Location, n: nat)
    requires Inv(c, s) && id < 2 && l.row in s.banks[id].ranges && n <= l.blocks
    requires var old' := s.banks[id].ranges[l.row]; l == old'.(logical := l.logical, version := l.version)
    ensures 0 <= l.row < c.rows && l.blocks <= c.width && Inv(c, Remap(WithRange(s, id, l.row, l), l, n))
  {
    assert Placed(c, s.banks[id], id, l.row);
    var w := WithRange(s, id, l.row, l);
    var t := Remap(w, l, n);
    UpdatedBank(c, s.banks[id], id, l);
    RemapOwn(w, l, n);
    forall i, r | 0 <= i < 2 && r in t.banks[i].ranges ensures Mapped(t.banks[i].ranges[r], t.counts, t.table) {
      if r != l.row { OtherMapped(c, s, l, i, r, n); }
    }
    forall r | 0 <= r < c.rows && !Live(t, r) ensures t.counts[r] == 0 { assert !Live(s, r); }
  }

  /** Saying something else of a range leaves it where it is. */
  lemma UpdatedBank(c: Config, b: Bank, id: nat, l: Location)
    requires BankOk(c, b, id) && l.row in b.ranges && l == b.ranges[l.row].(logical := l.logical, version := l.version)
    ensures BankOk(c, b.(ranges := b.ranges[l.row := l]), id)
  {
    var now := b.(ranges := b.ranges[l.row := l]);
    forall r | r in now.ranges ensures Placed(c, now, id, r) { assert Placed(c, b, id, r); }
  }

  /** Only the count goes down: the table line is left as it is. */
  lemma CropKeeps(c: Config, s: State, id: nat, l: Location, n: nat)
    requires Inv(c, s) && id < 2 && l.row in s.banks[id].ranges
    requires var old' := s.banks[id].ranges[l.row]; l == old'.(logical := l.logical, version := l.version)
    requires 0 <= l.row < c.rows && n <= s.counts[l.row]
    ensures Inv(c, WithRange(s, id, l.row, l).(counts := s.counts[l.row := n]))
  {
    var t := WithRange(s, id, l.row, l).(counts := s.counts[l.row := n]);
    forall i, r | 0 <= i < 2 && r in t.banks[i].ranges ensures Mapped(t.banks[i].ranges[r], t.counts, t.table) {
      assert Placed(c, s.banks[i], i, r) && Mapped(s.banks[i].ranges[r], s.counts, s.table);
    }
    forall r | r in t.banks[id].ranges ensures Placed(c, t.banks[id], id, r) { assert Placed(c, s.banks[id], id, r); }
    forall r | 0 <= r < c.rows && !Live(t, r) ensures t.counts[r] == 0 { assert !Live(s, r); }
  }

  lemma DropKeeps(c: Config, s: State, id: nat, r: int)
    requires Inv(c, s) && id < 2 && r in s.banks[id].ranges
    ensures 0 <= r < c.rows && Inv(c, Dropped(s, id, r))
  {
    assert Placed(c, s.banks[id], id, r);
    var t := Dropped(s, id, r);
    forall x | x in t.banks[id].ranges ensures Placed(c, t.banks[id], id, x) { assert Placed(c, s.banks[id], id, x); }
    forall i, x | 0 <= i < 2 && x in t.banks[i].ranges ensures Mapped(t.banks[i].ranges[x], t.counts, t.table) {
      assert Placed(c, s.banks[i], i, x) && Mapped(s.banks[i].ranges[x], s.counts, s.table);
    }
    forall x | 0 <= x < c.rows && !Live(t, x) ensures t.counts[x] == 0 {
      if x != r { assert !Live(s, x); }
    }
  }

  /** reset_bank. */
  function Emptied(s: State, id: nat): State
    requires id < |s.banks|
  {
    var b := s.banks[id];
    s.(banks := s.banks[id := Bank(b.base, b.size, 0, b.epoch + 1, if b.role == PreparedRole then StandbyRole else b.role, None, map[], false)])
  }

  /** Resetting keeps the invariant exactly when no live row of the bank still has blocks in its table. */
  lemma ResetKeeps(c: Config, s: State, id: nat)
    requires Inv(c, s) && id < 2
    ensures Inv(c, Emptied(s, id)) <==> forall r | r in s.banks[id].ranges && 0 <= r < c.rows :: s.counts[r] == 0
  {
    var t := Emptied(s, id);
    if forall r | r in s.banks[id].ranges && 0 <= r < c.rows :: s.counts[r] == 0 {
      forall i, x | 0 <= i < 2 && x in t.banks[i].ranges ensures Mapped(t.banks[i].ranges[x], t.counts, t.table) {
        assert Mapped(s.banks[i].ranges[x], s.counts, s.table);
      }
      forall x | 0 <= x < c.rows && !Live(t, x) ensures t.counts[x] == 0 {
        if x !in s.banks[id].ranges { assert !Live(s, x); }
      }
    }
    if Inv(c, t) {
      forall r | r in s.banks[id].ranges && 0 <= r < c.rows ensures s.counts[r] == 0 {
        assert !Live(t, r) by { assert id == 0 || id == 1; }
      }
    }
  }
}
