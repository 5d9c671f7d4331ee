/** The circular payload arena: allocations wrap with padding and are reclaimed in order of consumption. */
module CommandArena {
  import opened Wrappers
  import SeqNumbers

  type Byte = bv8

  datatype Allocation = Allocation(command: nat, offset: nat, length: nat) {
    function End(): nat { offset + length }
  }

  datatype Handle = Handle(offset: nat, length: nat, generation: nat)

  predicate Apart(a: Allocation, b: Allocation) {
    a.End() <= b.offset || b.End() <= a.offset
  }

  /** A position at most the capacity, as an offset into the circle. */
  function Around(x: nat, capacity: nat): (r: nat)
    requires 0 < capacity && x <= capacity
    ensures r < capacity
  {
    if x == capacity then 0 else x
  }

  /** Allocations from index `from` on lie at or above a start, each above the ones before it. */
  ghost predicate Rising(s: seq<Allocation>, from: nat, to: nat, start: nat)
    requires from <= to <= |s|
  {
    && (forall i | from <= i < to :: s[i].length > 0 && start <= s[i].offset)
    && forall i, j | from <= i < j < to :: s[i].End() <= s[j].offset
  }

  ghost predicate Follows(s: seq<Allocation>, i: nat)
    requires 0 < i < |s|
  {
    s[i].offset == s[i - 1].End()
  }

  /** They begin at the start and leave no gap. */
  ghost predicate Packed(s: seq<Allocation>, from: nat, to: nat, start: nat)
    requires from <= to <= |s|
  {
    (from < to ==> s[from].offset == start) && forall i | from < i < to :: Follows(s, i)
  }

  /**
   * How the live allocations lie. The first `wrap` of them rise from the tail; the others, if any, rise from offset zero
   * and stay below the tail. The head is where the newest ends.
   */
  ghost predicate Layout(s: seq<Allocation>, wrap: nat, tail: nat, head: nat, capacity: nat)
    requires wrap <= |s|
  {
    && tail < capacity
    && Rising(s, 0, wrap, tail) && Rising(s, wrap, |s|, 0)
    && (forall i | 0 <= i < |s| :: s[i].End() <= capacity)
    && (forall i | wrap <= i < |s| :: s[i].End() <= tail)
    && head == (if s == [] then 0 else Around(s[|s| - 1].End(), capacity))
    && (s == [] ==> tail == 0)
  }

  /** Both runs are without gaps. */
  ghost predicate Tight(s: seq<Allocation>, wrap: nat, tail: nat)
    requires wrap <= |s|
  {
    Packed(s, 0, wrap, tail) && Packed(s, wrap, |s|, 0)
  }

  /** Live allocations are pairwise disjoint. */
  lemma LayoutApart(s: seq<Allocation>, wrap: nat, tail: nat, head: nat, capacity: nat, i: nat, j: nat)
    requires wrap <= |s| && Layout(s, wrap, tail, head, capacity) && i < j < |s|
    ensures Apart(s[i], s[j])
  {
  }

  /** The offset at which a payload would go, if the arena has room for it. */
  function Room(s: seq<Allocation>, tail: nat, head: nat, capacity: nat, length: nat): Option<nat>
    requires tail < capacity && head < capacity
  {
    if s == [] then Some(0)
    else if head == tail then None
    else if head > tail then
      if length <= capacity - head then Some(head) else if length <= tail then Some(0) else None
    else
      if length <= tail - head then Some(head) else None
  }

  lemma HeadFacts(s: seq<Allocation>, wrap: nat, tail: nat, head: nat, capacity: nat)
    requires wrap <= |s| && Layout(s, wrap, tail, head, capacity) && s != []
    ensures head < capacity
    ensures var end := s[|s| - 1].End();
            if wrap < |s| then head == end <= tail
            else tail < end && head == if end == capacity then 0 else end
  {
  }

  /** Room is found exactly when it is there: before the end or before the tail, or below the tail once wrapped. */
  lemma RoomExactly(s: seq<Allocation>, wrap: nat, tail: nat, head: nat, capacity: nat, length: nat)
    requires wrap <= |s| && Layout(s, wrap, tail, head, capacity) && 0 < length <= capacity && s != []
    ensures head < capacity
    ensures Room(s, tail, head, capacity, length).Some? <==>
            if wrap < |s| then s[|s| - 1].End() + length <= tail
            else s[|s| - 1].End() + length <= capacity || length <= tail
  {
    HeadFacts(s, wrap, tail, head, capacity);
  }

  /** A stretch of the arena that no live allocation touches. */
  ghost predicate Free(s: seq<Allocation>, capacity: nat, x: nat, length: nat) {
    length > 0 && x + length <= capacity && forall i | 0 <= i < |s| :: Apart(s[i], Allocation(0, x, length))
  }

  lemma {:induction false} FreeOutside(s: seq<Allocation>, from: nat, to: nat, start: nat, x: nat, length: nat)
    requires from < to <= |s| && Packed(s, from, to, start) && length > 0
    requires forall i | from <= i < to :: s[i].length > 0 && Apart(s[i], Allocation(0, x, length))
    ensures x + length <= start || s[to - 1].End() <= x
  {
    if from < to - 1 {
      FreeOutside(s, from, to - 1, start, x, length);
      assert Follows(s, to - 1);
    }
  }

  /**
   * With a long enough stretch free somewhere, a payload is refused exactly when the live allocations have wrapped below
   * the tail and it does not fit between head and tail. Then the stretch reaches past the tail, into padding or released
   * space that has not rejoined.
   */
  lemma RefusedThoughFree(s: seq<Allocation>, wrap: nat, tail: nat, head: nat, capacity: nat, x: nat, length: nat)
    requires wrap <= |s| && Layout(s, wrap, tail, head, capacity) && Tight(s, wrap, tail) && head < capacity && Free(s, capacity, x, length)
    ensures Room(s, tail, head, capacity, length).None? <==> wrap < |s| && tail < head + length
    ensures Room(s, tail, head, capacity, length).None? ==> tail < x + length
  {
    if s != [] { HeadFacts(s, wrap, tail, head, capacity); }
    if wrap > 0 { FreeOutside(s, 0, wrap, tail, x, length); }
    if wrap < |s| { FreeOutside(s, wrap, |s|, 0, x, length); }
  }

  /** That case happens: five free bytes at the end of ten, all in one piece, and no room for five. */
  lemma RefusedExample()
    ensures var s := [Allocation(3, 0, 5)];
            Layout(s, 0, 9, 5, 10) && Tight(s, 0, 9) && Free(s, 10, 5, 5) && Room(s, 9, 5, 10, 5).None?
  {
    assert Around(5, 10) == 5;
  }

  function WrapAfterAllocate(s: seq<Allocation>, wrap: nat, offset: nat): nat {
    if s == [] || (wrap == |s| && offset == s[|s| - 1].End()) then |s| + 1 else wrap
  }

  function WrapAfterRelease(s: seq<Allocation>, wrap: nat, capacity: nat): nat
    requires s != []
  {
    if wrap == 1 && s[0].End() < capacity then 0 else if wrap <= 1 then |s| - 1 else wrap - 1
  }

  function WrapAfterDiscard(s: seq<Allocation>, wrap: nat): nat
    requires s != []
  {
    if wrap == |s| then |s| - 1 else wrap
  }

  /** A new allocation in the room that was found keeps the layout, so it overlaps nothing live. */
  lemma AllocateKeeps(s: seq<Allocation>, wrap: nat, tail: nat, head: nat, capacity: nat, a: Allocation)
    requires wrap <= |s| && Layout(s, wrap, tail, head, capacity) && 0 < a.length <= capacity && head < capacity
    requires Room(s, tail, head, capacity, a.length) == Some(a.offset)
    ensures var next := WrapAfterAllocate(s, wrap, a.offset);
            a.End() <= capacity && next <= |s| + 1 && Layout(s + [a], next, tail, Around(a.End(), capacity), capacity)
  {
    if s != [] {
      HeadFacts(s, wrap, tail, head, capacity);
      if wrap < |s| { AllocateBelow(s, wrap, tail, head, capacity, a); } else { AllocateAbove(s, tail, head, capacity, a); }
    }
  }

  /** Once wrapped, the allocation goes between the newest one and the tail. */
  lemma AllocateBelow(s: seq<Allocation>, wrap: nat, tail: nat, head: nat, capacity: nat, a: Allocation)
    requires wrap < |s| && Layout(s, wrap, tail, head, capacity) && 0 < a.length && a.offset == head == s[|s| - 1].End() && a.End() <= tail
    ensures a.End() < capacity && Layout(s + [a], wrap, tail, a.End(), capacity)
  {
  }

  /** Before that it goes behind the newest one, or to the front below the tail. */
  lemma AllocateAbove(s: seq<Allocation>, tail: nat, head: nat, capacity: nat, a: Allocation)
    requires s != [] && Layout(s, |s|, tail, head, capacity) && 0 < a.length
    requires (a.offset == s[|s| - 1].End() && a.End() <= capacity) || (a.offset == 0 && a.End() <= tail)
    ensures a.End() <= capacity && Layout(s + [a], WrapAfterAllocate(s, |s|, a.offset), tail, Around(a.End(), capacity), capacity)
  {
  }

  lemma NewApart(s: seq<Allocation>, wrap: nat, tail: nat, head: nat, capacity: nat, a: Allocation)
    requires wrap <= |s| + 1 && Layout(s + [a], wrap, tail, head, capacity)
    ensures forall i | 0 <= i < |s| :: Apart(s[i], a)
  {
    var all := s + [a];
    forall i | 0 <= i < |s| ensures Apart(s[i], a) {
      LayoutApart(all, wrap, tail, head, capacity, i, |s|);
      assert all[i] == s[i] && all[|s|] == a;
    }
  }

  lemma AllocateTight(s: seq<Allocation>, wrap: nat, tail: nat, head: nat, capacity: nat, a: Allocation)
    requires wrap <= |s| && Layout(s, wrap, tail, head, capacity) && Tight(s, wrap, tail) && 0 < a.length <= capacity && head < capacity
    requires Room(s, tail, head, capacity, a.length) == Some(a.offset)
    ensures var next := WrapAfterAllocate(s, wrap, a.offset); next <= |s| + 1 && Tight(s + [a], next, tail)
  {
    if s != [] { HeadFacts(s, wrap, tail, head, capacity); }
    forall i | 0 < i < |s| ensures Follows(s + [a], i) <==> Follows(s, i) {}
  }

  /** Releasing the oldest moves the tail to where it ended. */
  lemma ReleaseKeeps(s: seq<Allocation>, wrap: nat, tail: nat, head: nat, capacity: nat)
    requires wrap <= |s| && Layout(s, wrap, tail, head, capacity) && |s| > 1
    ensures var next := WrapAfterRelease(s, wrap, capacity);
            next <= |s| - 1 && Layout(s[1..], next, Around(s[0].End(), capacity), head, capacity)
  {
    var rest := s[1..];
    assert forall i | 0 <= i < |rest| :: rest[i] == s[i + 1];
    assert wrap > 0 ==> tail <= s[0].offset < s[0].End();
    assert wrap != 1 ==> s[0].End() <= s[1].offset < capacity;
  }

  lemma ReleaseTight(s: seq<Allocation>, wrap: nat, tail: nat, head: nat, capacity: nat)
    requires wrap <= |s| && Layout(s, wrap, tail, head, capacity) && Tight(s, wrap, tail) && |s| > 1
    ensures var next := WrapAfterRelease(s, wrap, capacity); next <= |s| - 1 && Tight(s[1..], next, Around(s[0].End(), capacity))
  {
    forall i | 0 < i < |s| - 1 ensures Follows(s[1..], i) <==> Follows(s, i + 1) {}
    assert wrap != 1 ==> Follows(s, 1);
  }

  /** Discarding the newest moves the head back to where the one before it ended. */
  lemma DiscardKeeps(s: seq<Allocation>, wrap: nat, tail: nat, head: nat, capacity: nat)
    requires wrap <= |s| && Layout(s, wrap, tail, head, capacity) && |s| > 1
    ensures var next := WrapAfterDiscard(s, wrap);
            next <= |s| - 1 && Layout(s[..|s| - 1], next, tail, Around(s[|s| - 2].End(), capacity), capacity)
  {
    var rest := s[..|s| - 1];
    assert forall i | 0 <= i < |rest| :: rest[i] == s[i];
  }

  lemma DiscardTight(s: seq<Allocation>, wrap: nat, tail: nat)
    requires wrap <= |s| && Tight(s, wrap, tail) && |s| > 1
    ensures var next := WrapAfterDiscard(s, wrap); next <= |s| - 1 && Tight(s[..|s| - 1], next, tail)
  {
    var rest := s[..|s| - 1];
    assert forall i | 0 <= i < |rest| :: rest[i] == s[i];
    forall i | 0 < i < |rest| ensures Follows(rest, i) <==> Follows(s, i) {}
  }

  // ---- The arena ----

  /** Modulus of the command sequence order. */
  const COMMANDS: nat := 0xFFFF_FFFF_FFFF_FFFF

  ghost predicate HoldsAt(b: seq<Byte>, a: Allocation, content: seq<Byte>) {
    a.End() <= |b| && b[a.offset..a.End()] == content
  }

  /** The live bytes are those last written for each live allocation. */
  ghost predicate Kept(b: seq<Byte>, s: seq<Allocation>, contents: seq<seq<Byte>>) {
    |contents| == |s| && forall i | 0 <= i < |s| :: HoldsAt(b, s[i], contents[i])
  }

  lemma KeptSlice(b: seq<Byte>, s: seq<Allocation>, contents: seq<seq<Byte>>, from: nat, to: nat)
    requires Kept(b, s, contents) && from <= to <= |s|
    ensures Kept(b, s[from..to], contents[from..to])
  {
  }

  lemma KeptAfterWrite(b: seq<Byte>, now: seq<Byte>, s: seq<Allocation>, contents: seq<seq<Byte>>, a: Allocation, payload: seq<Byte>)
    requires Kept(b, s, contents) && |now| == |b| && a.End() <= |b| && |payload| == a.length
    requires forall j | 0 <= j < |b| :: now[j] == if a.offset <= j < a.End() then payload[j - a.offset] else b[j]
    requires forall i | 0 <= i < |s| :: Apart(s[i], a)
    ensures Kept(now, s + [a], contents + [payload])
  {
    forall i | 0 <= i < |s| + 1 ensures HoldsAt(now, (s + [a])[i], (contents + [payload])[i]) {
      if i < |s| {
        assert HoldsAt(b, s[i], contents[i]) && Apart(s[i], a);
        assert now[s[i].offset..s[i].End()] == b[s[i].offset..s[i].End()];
      } else {
        assert now[a.offset..a.End()] == payload;
      }
    }
  }

  class CommandArena {
    const capacity: nat
    const generation: nat
    const bytes: array<Byte>
    var head: nat
    var tail: nat
    var allocations: seq<Allocation>
    ghost var wrap: nat
    ghost var contents: seq<seq<Byte>>

    ghost predicate Valid()
      reads this, bytes
    {
      && capacity > 0 && bytes.Length == capacity && wrap <= |allocations|
      && Layout(allocations, wrap, tail, head, capacity) && Tight(allocations, wrap, tail) && Kept(bytes[..], allocations, contents)
    }

    constructor (capacity: nat, generation: nat)
      requires capacity > 0
      ensures Valid() && this.capacity == capacity && this.generation == generation
      ensures allocations == [] && fresh(bytes)
    {
      this.capacity, this.generation := capacity, generation;
      bytes := new Byte[capacity];
      head, tail, allocations, wrap, contents := 0, 0, [], 0, [];
    }

    predicate InOrder(command: nat)
      reads this
    {
      allocations == [] || SeqNumbers.IsNewer(COMMANDS, command, allocations[|allocations| - 1].command)
    }

    /** _reserve: room at the head, else at the start of the circle, else none; the head moves behind what is reserved. */
    method Reserve(length: nat) returns (offset: Option<nat>)
      requires Valid() && 0 < length <= capacity
      modifies `head, `tail
      ensures offset == old(Room(allocations, tail, head, capacity, length)) && head < capacity
      ensures tail == old(tail)
      ensures offset.Some? ==> offset.value + length <= capacity && head == Around(offset.value + length, capacity)
      ensures offset.None? ==> head == old(head)
    {
      if allocations == [] {
        head, tail := Around(length, capacity), 0;
        return Some(0);
      }
      HeadFacts(allocations, wrap, tail, head, capacity);
      if head == tail { return None; }
      if head >= tail {
        if length <= capacity - head {
          offset := Some(head);
          head := Around(head + length, capacity);
          return;
        }
        if length <= tail {
          head := length;
          return Some(0);
        }
      } else {
        if length <= tail - head {
          offset := Some(head);
          head := head + length;
          return;
        }
      }
      offset := None;
    }

    /**
     * Allocate room and write the payload. Earlier payloads stay as written; when there is no room, or the payload or
     * sequence is not acceptable, nothing changes.
     */
    method Allocate(command: nat, payload: seq<Byte>) returns (r: Result<Handle>)
      requires Valid() && command < COMMANDS
      modifies this, bytes
      ensures Valid()
      ensures r.Ok? <==> 0 < |payload| <= capacity && old(InOrder(command)) && old(Room(allocations, tail, head, capacity, |payload|)).Some?
      ensures tail == old(tail)
      ensures r.Err? ==> allocations == old(allocations) && contents == old(contents) && head == old(head) && tail == old(tail)
      ensures r.Ok? ==>
                && r.value == Handle(old(Room(allocations, tail, head, capacity, |payload|)).value, |payload|, generation)
                && allocations == old(allocations) + [Allocation(command, r.value.offset, |payload|)] && contents == old(contents) + [payload]
    {
      if |payload| == 0 { return Err("payload must be non-empty"); }
      if |payload| > capacity { return Err("command payload is larger than arena capacity"); }
      if !InOrder(command) { return Err("command arena allocation sequence must increase monotonically"); }
      ghost var room := Room(allocations, tail, head, capacity, |payload|);
      ghost var oldHead := head;
      var offset := Reserve(|payload|);
      if offset.None? { return Err("command arena has insufficient free space"); }
      var a := Allocation(command, offset.value, |payload|);
      Commit(a, payload, oldHead);
      r := Ok(Handle(a.offset, |payload|, generation));
    }

    /** Write the payload into the reserved room and record the allocation. */
    method Commit(a: Allocation, payload: seq<Byte>, ghost oldHead: nat)
      requires capacity > 0 && bytes.Length == capacity && wrap <= |allocations| && oldHead < capacity
      requires Layout(allocations, wrap, tail, oldHead, capacity) && Tight(allocations, wrap, tail) && Kept(bytes[..], allocations, contents)
      requires |payload| == a.length && 0 < a.length <= capacity && Room(allocations, tail, oldHead, capacity, a.length) == Some(a.offset)
      requires a.End() <= capacity && head == Around(a.End(), capacity)
      modifies `allocations, `wrap, `contents, bytes
      ensures Valid() && allocations == old(allocations) + [a] && contents == old(contents) + [payload]
    {
      AllocateKeeps(allocations, wrap, tail, oldHead, capacity, a);
      AllocateTight(allocations, wrap, tail, oldHead, capacity, a);
      NewApart(allocations, WrapAfterAllocate(allocations, wrap, a.offset), tail, head, capacity, a);
      Write(a.offset, payload);
      KeptAfterWrite(old(bytes[..]), bytes[..], allocations, contents, a, payload);
      Install(a, payload);
    }

    method Install(a: Allocation, ghost payload: seq<Byte>)
      requires capacity > 0 && bytes.Length == capacity && wrap <= |allocations|
      requires var next := WrapAfterAllocate(allocations, wrap, a.offset);
               next <= |allocations| + 1 && Layout(allocations + [a], next, tail, head, capacity) && Tight(allocations + [a], next, tail)
      requires Kept(bytes[..], allocations + [a], contents + [payload])
      modifies `allocations, `wrap, `contents
      ensures Valid() && allocations == old(allocations) + [a] && contents == old(contents) + [payload]
    {
      wrap := WrapAfterAllocate(allocations, wrap, a.offset);
      allocations, contents := allocations + [a], contents + [payload];
    }

    method Write(at: nat, payload: seq<Byte>)
      requires at + |payload| <= bytes.Length
      modifies bytes
      ensures forall j | 0 <= j < bytes.Length :: bytes[..][j] == if at <= j < at + |payload| then payload[j - at] else old(bytes[..])[j]
    {
      for i := 0 to |payload|
        invariant forall j | 0 <= j < bytes.Length :: bytes[j] == if at <= j < at + i then payload[j - at] else old(bytes[j])
      {
        bytes[at + i] := payload[i];
      }
    }

    /** Reading the handle of a live allocation returns the bytes written for it. */
    method Read(h: Handle) returns (r: Result<seq<Byte>>)
      requires Valid()
      ensures r.Ok? <==> h.generation == generation && h.offset + h.length <= capacity
      ensures r.Ok? ==> r.value == bytes[h.offset..h.offset + h.length]
      ensures forall i | 0 <= i < |allocations| && h == Handle(allocations[i].offset, allocations[i].length, generation) :: r == Ok(contents[i])
    {
      if h.generation != generation { return Err("stale command arena generation"); }
      if h.offset + h.length > capacity { return Err("command arena handle outside capacity"); }
      r := Ok(bytes[h.offset..h.offset + h.length]);
      forall i | 0 <= i < |allocations| && h == Handle(allocations[i].offset, allocations[i].length, generation) ensures r == Ok(contents[i]) {
        assert HoldsAt(bytes[..], allocations[i], contents[i]);
      }
    }

    predicate Reached(consumer: nat, a: Allocation) {
      a.command == consumer || SeqNumbers.IsNewerOrEqual(COMMANDS, consumer, a.command)
    }

    /** Release the oldest allocations up to the first that the consumer has not reached. */
    method ReleaseThrough(consumer: nat) returns (ghost n: nat)
      requires Valid() && consumer < COMMANDS
      modifies this
      ensures Valid() && n <= |old(allocations)|
      ensures allocations == old(allocations)[n..] && contents == old(contents)[n..]
      ensures forall i | 0 <= i < n :: Reached(consumer, old(allocations)[i])
      ensures allocations != [] ==>
                && !Reached(consumer, allocations[0])
                && head == old(head) && tail == if n == 0 then old(tail) else Around(old(allocations)[n - 1].End(), capacity)
    {
      n := 0;
      ghost var s, c := allocations, contents;
      while allocations != [] && Reached(consumer, allocations[0])
        invariant Valid() && n <= |s| == |c| && allocations == s[n..] && contents == c[n..]
        invariant forall i | 0 <= i < n :: Reached(consumer, s[i])
        invariant allocations != [] ==> head == old(head) && tail == if n == 0 then old(tail) else Around(s[n - 1].End(), capacity)
        decreases |allocations|
      {
        TailSlice(s, n);
        TailSlice(c, n);
        DropFirst();
        n := n + 1;
      }
    }

    method DropFirst()
      requires Valid() && allocations != []
      modifies this
      ensures Valid() && allocations == old(allocations)[1..] && contents == old(contents)[1..]
      ensures allocations != [] ==> head == old(head) && tail == Around(old(allocations)[0].End(), capacity)
    {
      if |allocations| == 1 { Clear(); } else { DropOldest(); }
    }

    method DropOldest()
      requires Valid() && |allocations| > 1
      modifies `allocations, `contents, `wrap, `tail
      ensures Valid() && allocations == old(allocations)[1..] && contents == old(contents)[1..]
      ensures tail == Around(old(allocations)[0].End(), capacity)
    {
      KeptSlice(bytes[..], allocations, contents, 1, |allocations|);
      ReleaseKeeps(allocations, wrap, tail, head, capacity);
      ReleaseTight(allocations, wrap, tail, head, capacity);
      wrap := WrapAfterRelease(allocations, wrap, capacity);
      tail := Around(allocations[0].End(), capacity);
      allocations, contents := allocations[1..], contents[1..];
    }

    /** Take back the newest allocation, and only it. */
    method DiscardLast(command: nat) returns (ok: bool)
      requires Valid() && command < COMMANDS
      modifies this
      ensures allocations != [] ==> tail == old(tail)
      ensures Valid() && ok == (old(allocations) != [] && old(allocations)[|old(allocations)| - 1].command == command)
      ensures !ok ==> allocations == old(allocations) && contents == old(contents) && head == old(head) && tail == old(tail)
      ensures ok ==> allocations == old(allocations)[..|old(allocations)| - 1] && contents == old(contents)[..|old(allocations)| - 1]
    {
      if allocations == [] || allocations[|allocations| - 1].command != command { return false; }
      if |allocations| == 1 { Clear(); } else { DropLast(); }
      ok := true;
    }

    method DropLast()
      requires Valid() && |allocations| > 1
      modifies this
      ensures Valid() && tail == old(tail)
      ensures allocations == old(allocations)[..|old(allocations)| - 1] && contents == old(contents)[..|old(allocations)| - 1]
    {
      var n := |allocations| - 1;
      DropLastSound(bytes[..], allocations, contents, wrap, tail, head, capacity);
      wrap, head := WrapAfterDiscard(allocations, wrap), Around(allocations[n - 1].End(), capacity);
      allocations, contents := allocations[..n], contents[..n];
    }

    /** Without live allocations both offsets are zero again. */
    method Clear()
      requires capacity > 0 && bytes.Length == capacity && |allocations| == 1
      modifies this
      ensures Valid() && allocations == [] && contents == []
    {
      wrap, head, tail, allocations, contents := 0, 0, 0, [], [];
    }
  }

  lemma TailSlice<T>(s: seq<T>, n: nat)
    requires n < |s|
    ensures s[n..][1..] == s[n + 1..] && s[n..][0] == s[n]
  {
  }

  lemma DropLastSound(b: seq<Byte>, s: seq<Allocation>, contents: seq<seq<Byte>>, wrap: nat, tail: nat, head: nat, capacity: nat)
    requires wrap <= |s| && |s| > 1 && Layout(s, wrap, tail, head, capacity) && Tight(s, wrap, tail) && Kept(b, s, contents)
    ensures var n, next := |s| - 1, WrapAfterDiscard(s, wrap);
            && next <= n && Layout(s[..n], next, tail, Around(s[n - 1].End(), capacity), capacity)
            && Tight(s[..n], next, tail) && Kept(b, s[..n], contents[..n])
  {
    DiscardKeeps(s, wrap, tail, head, capacity);
    DiscardTight(s, wrap, tail);
    KeptSlice(b, s, contents, 0, |s| - 1);
  }

  /** An arena that allocates and then takes the allocation back is where it was, ready to give the same offset again. */
  method AllocateThenDiscard(arena: CommandArena, command: nat, payload: seq<Byte>) returns (done: bool)
    requires arena.Valid() && command < COMMANDS
    modifies arena, arena.bytes
    ensures arena.Valid() && arena.allocations == old(arena.allocations) && arena.contents == old(arena.contents)
    ensures arena.head == old(arena.head) && arena.tail == old(arena.tail)
  {
    var r := arena.Allocate(command, payload);
    done := r.Ok?;
    if done {
      var n := |arena.allocations| - 1;
      assert arena.allocations[..n] == old(arena.allocations) && arena.contents[..n] == old(arena.contents);
      done := arena.DiscardLast(command);
      SameHead(arena.allocations, arena.wrap, arena.tail, arena.head, old(arena.wrap), old(arena.tail), old(arena.head), arena.capacity);
    }
  }

  lemma SameHead(s: seq<Allocation>, wrap: nat, tail: nat, head: nat, wrap': nat, tail': nat, head': nat, capacity: nat)
    requires wrap <= |s| && wrap' <= |s| && Layout(s, wrap, tail, head, capacity) && Layout(s, wrap', tail', head', capacity)
    requires s != [] ==> tail == tail'
    ensures head == head' && tail == tail'
  {
  }

  lemma Later(a: nat, b: nat)
    requires a < b < 100
    ensures SeqNumbers.IsNewer(COMMANDS, b, a) && !SeqNumbers.IsNewerOrEqual(COMMANDS, a, b)
  {
    SeqNumbers.Wrap(COMMANDS, b - a);
    SeqNumbers.Wrap(COMMANDS, a - b);
  }

  /** A run that ends in a refusal although the five bytes asked for lie free in one piece behind the live allocation. */
  method RefusedRun() returns (arena: CommandArena, r: Result<Handle>)
    ensures arena.Valid() && r.Err? && arena.allocations == [Allocation(3, 0, 5)] && Free(arena.allocations, arena.capacity, 5, 5)
  {
    var five, four: seq<Byte> := [1, 2, 3, 4, 5], [6, 7, 8, 9];
    arena := Wrapped(five, four);
    Later(2, 3);
    var released := arena.ReleaseThrough(2);
    assert released == 1;
    Later(3, 4);
    r := arena.Allocate(4, five);
  }

  /** Nine of ten bytes allocated, the first five released and allocated again. */
  method Wrapped(five: seq<Byte>, four: seq<Byte>) returns (arena: CommandArena)
    requires |five| == 5 && |four| == 4
    ensures fresh(arena) && fresh(arena.bytes) && arena.Valid() && arena.capacity == 10 && arena.head == arena.tail == 5
    ensures arena.allocations == [Allocation(2, 5, 4), Allocation(3, 0, 5)]
  {
    arena := NineOfTen(five, four);
    Later(1, 2);
    var released := arena.ReleaseThrough(1);
    assert released == 1;
    Later(2, 3);
    var c := arena.Allocate(3, five);
  }

  method NineOfTen(five: seq<Byte>, four: seq<Byte>) returns (arena: CommandArena)
    requires |five| == 5 && |four| == 4
    ensures fresh(arena) && fresh(arena.bytes) && arena.Valid() && arena.capacity == 10 && arena.head == 9 && arena.tail == 0
    ensures arena.allocations == [Allocation(1, 0, 5), Allocation(2, 5, 4)]
  {
    arena := new CommandArena(10, 1);
    var a := arena.Allocate(1, five);
    assert arena.allocations == [Allocation(1, 0, 5)] && arena.head == 5;
    Later(1, 2);
    var b := arena.Allocate(2, four);
  }
}
