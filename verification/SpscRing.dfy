/**
 * Single-producer single-consumer ring over shared memory. The two u64 counters wrap; the two processes
 * interleave between any two of their shared accesses.
 */
module SpscRing {
  import opened SeqNumbers

  const WORD: nat := 0x1_0000_0000_0000_0000

  datatype PopResult<R> = Empty | Stale | Popped(record: R)

  function Add(a: nat, b: nat): nat { (a + b) % WORD }

  function Sub(a: nat, b: nat): nat { (a - b) % WORD }

  function Min(a: nat, b: nat): nat { if a < b then a else b }

  /** Ring capacities are powers of two below the counter range. */
  ghost predicate Capacity(n: nat) {
    exists k: nat | k < 64 :: n == Pow2(k)
  }

  lemma {:induction false} Pow2Sum(a: nat, b: nat)
    ensures Pow2(a + b) == Pow2(a) * Pow2(b)
  {
    if a > 0 {
      Pow2Sum(a - 1, b);
      assert 2 * (Pow2(a - 1) * Pow2(b)) == (2 * Pow2(a - 1)) * Pow2(b);
    }
  }

  lemma WordIsPow2()
    ensures Pow2(64) == WORD
  {
    assert Pow2(16) == 0x1_0000 by {
      assert Pow2(8) == 256 by { assert Pow2(4) == 16; Pow2Sum(4, 4); }
      Pow2Sum(8, 8);
    }
    assert Pow2(32) == 0x1_0000_0000 by { Pow2Sum(16, 16); }
    Pow2Sum(32, 32);
  }

  /** Reducing a counter modulo 2^64 first does not change the slot it selects. */
  lemma SlotSurvivesWrap(capacity: nat, k: nat)
    requires Capacity(capacity)
    ensures 0 < capacity < WORD && (k % WORD) % capacity == k % capacity
  {
    var e: nat :| e < 64 && capacity == Pow2(e);
    Pow2Sum(e, 64 - e);
    WordIsPow2();
    var c := Pow2(64 - e);
    assert c >= 2 by { assert c == 2 * Pow2(63 - e); }
    assert capacity < WORD by { assert capacity * 2 <= capacity * c; }
    NestedResidue(capacity, c, k);
  }

  lemma NestedResidue(a: nat, c: nat, k: nat)
    requires a > 0 && c > 0 && a * c > 0
    ensures (k % (a * c)) % a == k % a
  {
    var w := a * c;
    var q, r := k / w, k % w;
    var q2, s := r / a, r % a;
    assert k == w * q + r && r == a * q2 + s;
    assert w * q == a * (c * q);
    assert a * (c * q) + a * q2 == (c * q + q2) * a;
    SameResidue(a, k, c * q + q2, s);
  }

  lemma CounterDifference(newer: nat, older: nat)
    requires older <= newer < older + WORD
    ensures Sub(newer % WORD, older % WORD) == newer - older
  {
    ResidueDistance(WORD, newer, older);
  }

  lemma CounterAdvance(k: nat, n: nat)
    ensures Add(k % WORD, n) == (k + n) % WORD
  {
    var q, r := k / WORD, k % WORD;
    assert k + n == q * WORD + (r + n);
    var p, s := (r + n) / WORD, (r + n) % WORD;
    SameResidue(WORD, k + n, q + p, s);
  }

  /** The slot counter k selects: k modulo the capacity, by repeated subtraction. */
  function Slot(k: nat, capacity: nat): (r: nat)
    requires capacity > 0
    ensures r < capacity
  {
    if k < capacity then k else Slot(k - capacity, capacity)
  }

  lemma {:induction false} SlotIsModulo(k: nat, capacity: nat)
    requires capacity > 0
    ensures Slot(k, capacity) == k % capacity
  {
    if k < capacity {
      SameResidue(capacity, k, 0, k);
    } else {
      SlotIsModulo(k - capacity, capacity);
      AddModulus(capacity, k - capacity);
    }
  }

  /** A record and any later one fewer than `capacity` places behind it never share a slot. */
  lemma {:induction false} SlotsDiffer(capacity: nat, i: nat, j: nat)
    requires capacity > 0 && i < j < i + capacity
    ensures Slot(i, capacity) != Slot(j, capacity)
    decreases j
  {
    if i >= capacity {
      SlotsDiffer(capacity, i - capacity, j - capacity);
    }
  }

  lemma {:induction false} SlotOffset(capacity: nat, h: nat, j: nat)
    requires capacity > 0 && j < capacity
    ensures Slot(h + j, capacity)
         == if Slot(h, capacity) + j < capacity then Slot(h, capacity) + j else Slot(h, capacity) + j - capacity
    decreases h
  {
    if h >= capacity {
      SlotOffset(capacity, h - capacity, j);
    }
  }

  /** The slot a wrapped counter word selects is the slot of the unbounded count. */
  lemma WordSlot(capacity: nat, k: nat)
    requires Capacity(capacity)
    ensures 0 < capacity < WORD && (k % WORD) % capacity == Slot(k, capacity)
  {
    SlotSurvivesWrap(capacity, k);
    SlotIsModulo(k, capacity);
  }

  class Ring<R(0, !new)> {
    const capacity: nat
    const slots: array<R>
    var head: nat
    var tail: nat
    /** History: everything ever pushed, and how much of it has been acknowledged. */
    var produced: seq<R>
    var taken: nat

    ghost predicate Valid()
      reads this, slots
    {
      && Capacity(capacity) && 0 < capacity < WORD && slots.Length == capacity
      && taken <= |produced| <= taken + capacity
      && head == taken % WORD && tail == |produced| % WORD
      && forall k | taken <= k < |produced| :: slots[Slot(k, capacity)] == produced[k]
    }

    constructor (capacity: nat, blank: R)
      requires Capacity(capacity)
      ensures Valid() && fresh(slots) && this.capacity == capacity && produced == [] && taken == 0
    {
      WordSlot(capacity, 0);
      this.capacity := capacity;
      slots := new R[capacity](_ => blank);
      head, tail, produced, taken := 0, 0, [], 0;
    }

    /** What the producer may find the consumer has done: acknowledge some records, touch nothing else. */
    twostate predicate OnlyConsumed()
      reads this, slots
    {
      old(taken) <= taken && produced == old(produced) && tail == old(tail) && slots[..] == old(slots[..])
    }

    /** What the consumer may find the producer has done: append records, never touch an unread slot. */
    twostate predicate OnlyProduced()
      reads this, slots
    {
      old(produced) <= produced && taken == old(taken) && head == old(head)
    }

    method ConsumerRuns()
      requires Valid()
      modifies this`head, this`taken
      ensures Valid() && OnlyConsumed()
    {
      var n := *;
      if 0 < n <= |produced| - taken {
        CounterAdvance(taken, n);
        head, taken := Add(head, n), taken + n;
      }
    }

    /** One producer step: part of a record lands in the free slot at the tail, or the tail is published. */
    method ProducerStep(value: R)
      requires Valid()
      modifies this`tail, this`produced, slots
      ensures Valid() && OnlyProduced()
    {
      if |produced| - taken < capacity {
        var slot := Slot(|produced|, capacity);
        forall k | taken <= k < |produced| ensures Slot(k, capacity) != slot { SlotsDiffer(capacity, k, |produced|); }
        slots[slot] := value;
        if * {
          CounterAdvance(|produced|, 1);
          produced, tail := produced + [value], Add(tail, 1);
        }
      }
    }

    method ProducerRuns()
      requires Valid()
      modifies this`tail, this`produced, slots
      ensures Valid() && OnlyProduced()
    {
      var steps: nat := *;
      while steps > 0
        invariant Valid() && OnlyProduced()
      {
        var value: R := *;
        ProducerStep(value);
        steps := steps - 1;
      }
    }

    /**
     * sd_ring_push. It appends exactly one record after everything pushed before, or reports a full ring,
     * and it can only do the latter when the ring was already full on entry.
     */
    method Push(record: R) returns (ok: bool)
      requires Valid()
      modifies this, slots
      ensures Valid() && old(taken) <= taken
      ensures produced == if ok then old(produced) + [record] else old(produced)
      ensures !ok ==> |old(produced)| - old(taken) == capacity
      ensures forall k | taken <= k < |old(produced)| :: slots[Slot(k, capacity)] == old(slots[Slot(k, capacity)])
    {
      var t := tail;
      ConsumerRuns();
      var h := head;
      ghost var seen := taken;
      ConsumerRuns();
      CounterDifference(|produced|, seen);
      if Sub(t, h) >= capacity { return false; }
      WordSlot(capacity, |produced|);
      forall k | taken <= k < |produced| ensures Slot(k, capacity) != Slot(|produced|, capacity) {
        SlotsDiffer(capacity, k, |produced|);
      }
      slots[t % capacity] := record;
      ConsumerRuns();
      CounterAdvance(|produced|, 1);
      tail, produced := Add(t, 1), produced + [record];
      return true;
    }

    /** sd_ring_peek. */
    method Peek() returns (found: bool, record: R)
      requires Valid()
      modifies this`tail, this`produced, slots
      ensures Valid() && OnlyProduced()
      ensures found ==> taken < |produced| && record == produced[taken]
      ensures !found ==> taken == |old(produced)|
    {
      var h := head;
      ProducerRuns();
      var t := tail;
      ghost var visible := |produced|;
      CounterDifference(visible, taken);
      if h == t {
        record := *;
        return false, record;
      }
      ProducerRuns();
      WordSlot(capacity, taken);
      return true, slots[h % capacity];
    }

    /** sd_ring_ack. */
    method Ack()
      requires Valid() && taken < |produced|
      modifies this`head, this`taken
      ensures Valid() && taken == old(taken) + 1
    {
      CounterAdvance(taken, 1);
      head, taken := Add(head, 1), taken + 1;
    }

    /** CommandRingView::TryPop: a stale head record is reported and left in place. */
    method TryPop(current: R -> bool) returns (result: PopResult<R>)
      requires Valid()
      modifies this, slots
      ensures Valid() && old(produced) <= produced
      ensures result.Empty? ==> taken == old(taken) == |old(produced)|
      ensures result.Stale? ==> taken == old(taken) < |produced| && !current(produced[taken])
      ensures result.Popped? ==> taken == old(taken) + 1 <= |produced|
                                 && result.record == produced[old(taken)] && current(result.record)
    {
      var found, record := Peek();
      if !found { return Empty; }
      if !current(record) { return Stale; }
      Ack();
      return Popped(record);
    }

    /** What taking at most `limit` records must deliver, however it is done. */
    twostate predicate Delivered(limit: nat, out: seq<R>)
      reads this
    {
      && old(produced) <= produced && taken == old(taken) + |out| <= |produced|
      && out == produced[old(taken)..taken]
      && (|out| == limit || |old(produced)| - old(taken) <= |out| < limit)
    }

    /** sd_ring_drain: one snapshot of the counters, two contiguous copies, one acknowledgement. */
    method Drain(limit: nat) returns (out: seq<R>)
      requires Valid()
      modifies this, slots
      ensures Valid() && Delivered(limit, out)
    {
      var h, count := Snapshot(limit);
      out := CopyPrefix(h, count);
      if count != 0 {
        CounterAdvance(taken, count);
        head, taken := Add(h, count), taken + count;
      }
    }

    method Snapshot(limit: nat) returns (h: nat, count: nat)
      requires Valid()
      modifies this`tail, this`produced, slots
      ensures Valid() && OnlyProduced() && h == head && count <= capacity && taken + count <= |produced|
      ensures count == limit || (|old(produced)| - taken <= count < limit)
    {
      h := head;
      ProducerRuns();
      var t := tail;
      CounterDifference(|produced|, taken);
      count := Min(Min(Sub(t, h), limit), capacity);
    }

    method SlotOfHead(h: nat) returns (start: nat)
      requires Valid() && h == head
      ensures start == Slot(taken, capacity)
    {
      WordSlot(capacity, taken);
      start := h % capacity;
    }

    /** The unread prefix in at most two contiguous pieces: up to the end of the buffer, then from its start. */
    method CopyPrefix(h: nat, count: nat) returns (out: seq<R>)
      requires Valid() && h == head && count <= capacity && taken + count <= |produced|
      modifies this`tail, this`produced, slots
      ensures Valid() && OnlyProduced()
      ensures out == produced[taken..taken + count]
    {
      var start := SlotOfHead(h);
      var first := Min(capacity - start, count);
      out := CopySlots([], start, first);
      if first < count {
        SlotOffset(capacity, taken, first);
        out := CopySlots(out, 0, count - first);
      }
    }

    /** One memcpy of `n` slots behind the unread records already copied, the producer running throughout. */
    method CopySlots(done: seq<R>, slot: nat, n: nat) returns (out: seq<R>)
      requires Valid() && slot + n <= capacity && |done| + n <= capacity && taken + |done| + n <= |produced|
      requires done == produced[taken..taken + |done|]
      requires n > 0 ==> slot == Slot(taken + |done|, capacity)
      modifies this`tail, this`produced, slots
      ensures Valid() && OnlyProduced()
      ensures |out| == |done| + n && out == produced[taken..taken + |out|]
    {
      out := done;
      for j := 0 to n
        invariant Valid() && OnlyProduced() && |out| == |done| + j
        invariant out == produced[taken..taken + |out|]
      {
        SlotOffset(capacity, taken + |done|, j);
        out := CopySlot(out, slot + j);
      }
    }

    method CopySlot(done: seq<R>, slot: nat) returns (out: seq<R>)
      requires Valid() && |done| < capacity && taken + |done| < |produced| && done == produced[taken..taken + |done|] && slot == Slot(taken + |done|, capacity)
      modifies this`tail, this`produced, slots
      ensures Valid() && OnlyProduced() && |out| == |done| + 1 && out == produced[taken..taken + |out|]
    {
      ProducerRuns();
      var k := taken + |done|;
      assert slots[Slot(k, capacity)] == produced[k];
      out := done + [slots[slot]];
    }

    /** Repeated peek and ack delivers exactly what one drain delivers. */
    method DrainOneByOne(limit: nat) returns (out: seq<R>)
      requires Valid()
      modifies this, slots
      ensures Valid() && Delivered(limit, out)
    {
      out := [];
      while |out| < limit
        invariant Valid() && old(produced) <= produced && taken == old(taken) + |out| <= |produced|
        invariant out == produced[old(taken)..taken] && |out| <= limit
      {
        var found, record := Peek();
        if !found { return; }
        Ack();
        out := out + [record];
      }
    }
  }
}
