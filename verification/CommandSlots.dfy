/** Commands with their payloads in one slot per ring entry: a payload stays in place until its consumer has copied it. */
module CommandSlots {
  import opened Wrappers
  import opened BlockMath
  import SpscRing
  import SeqNumbers

  type Byte = b: nat | b < 256

  /** Modulus of command numbers. */
  const NUMBERS: nat := 0xFFFF_FFFF_FFFF_FFFF

  datatype Header = Header(number: nat, generation: nat, offset: nat, length: nat)

  datatype Command = Command(number: nat, generation: nat, payload: seq<Byte>)

  datatype Taken = Empty | Stale | NotNewer | Misplaced | Got(command: Command)

  datatype Sending = Sent | Full | Bad

  /** The slots of two unread commands are different stretches of memory. */
  lemma SlotsApart(capacity: nat, size: nat, i: nat, j: nat, b: nat, c: nat)
    requires capacity > 0 && i < j < i + capacity && b < size && c < size
    ensures Span(SpscRing.Slot(i, capacity), size) + b != Span(SpscRing.Slot(j, capacity), size) + c
  {
    SpscRing.SlotsDiffer(capacity, i, j);
    var x, y := SpscRing.Slot(i, capacity), SpscRing.Slot(j, capacity);
    SpanAdds(x, 1, size);
    SpanAdds(y, 1, size);
    if x < y { SpanGrows(x + 1, y, size); } else { SpanGrows(y + 1, x, size); }
  }

  lemma SlotInside(capacity: nat, size: nat, k: nat, b: nat)
    requires capacity > 0 && b < size
    ensures Span(SpscRing.Slot(k, capacity), size) + b < Span(capacity, size)
  {
    SpanAdds(SpscRing.Slot(k, capacity), 1, size);
    SpanGrows(SpscRing.Slot(k, capacity) + 1, capacity, size);
  }

  /** Each command's number is newer than the one before it. */
  ghost predicate Rising(commands: seq<Command>) {
    && (forall k | 0 <= k < |commands| :: SeqNumbers.Valid(NUMBERS, commands[k].number))
    && forall k | 0 < k < |commands| :: SeqNumbers.IsNewer(NUMBERS, commands[k].number, commands[k - 1].number)
  }

  class Channel {
    const capacity: nat
    const size: nat
    const memory: array<Byte>
    const headers: array<Header>
    /** History: everything published, and how much of it has been acknowledged. */
    var produced: seq<Command>
    var taken: nat
    var lastConsumed: Option<nat>

    ghost predicate Valid()
      reads this, memory, headers
    {
      && Shape() && taken <= |produced| <= taken + capacity && Rising(produced)
      && lastConsumed == (if taken == 0 then None else Some(produced[taken - 1].number))
      && forall k | taken <= k < |produced| :: Holds(k)
    }

    ghost predicate Shape() {
      capacity > 0 && size > 0 && memory.Length == Span(capacity, size) && headers.Length == capacity
    }

    function Base(k: nat): nat
      requires capacity > 0
    {
      Span(SpscRing.Slot(k, capacity), size)
    }

    /** The header and the payload of a published command are in its slot. */
    ghost predicate Holds(k: nat)
      requires Shape() && k < |produced|
      reads this, memory, headers
    {
      var c := produced[k];
      && 0 < |c.payload| <= size && Base(k) + |c.payload| <= memory.Length
      && headers[SpscRing.Slot(k, capacity)] == Header(c.number, c.generation, Base(k), |c.payload|)
      && forall b | 0 <= b < |c.payload| :: memory[Base(k) + b] == c.payload[b]
    }

    constructor (capacity: nat, size: nat)
      requires capacity > 0 && size > 0
      ensures Valid() && produced == [] && taken == 0
    {
      this.capacity, this.size := capacity, size;
      memory := new Byte[Span(capacity, size)](_ => 0);
      headers := new Header[capacity](_ => Header(0, 0, 0, 0));
      produced, taken, lastConsumed := [], 0, None;
    }

    /** What the producer does is to publish more; what is unread stays in place. */
    twostate predicate OnlyProduced()
      reads this
    {
      old(produced) <= produced && taken == old(taken) && lastConsumed == old(lastConsumed)
    }

    twostate predicate OnlyConsumed()
      reads this, memory, headers
    {
      old(taken) <= taken && produced == old(produced) && memory[..] == old(memory[..]) && headers[..] == old(headers[..])
    }

    method ConsumerRuns()
      requires Valid()
      modifies this`taken, this`lastConsumed
      ensures Valid() && OnlyConsumed()
    {
      var n: nat := *;
      if 0 < n <= |produced| - taken {
        Take(n);
      }
    }

    method Take(n: nat)
      requires Valid() && 0 < n <= |produced| - taken
      modifies this`taken, this`lastConsumed
      ensures Valid() && OnlyConsumed() && taken == old(taken) + n
    {
      taken, lastConsumed := taken + n, Some(produced[taken + n - 1].number);
      forall k | taken <= k < |produced| ensures Holds(k) { assert old(Holds(k)); }
    }

    /** A byte lands in the free slot at the tail. */
    method StoreByte(b: nat, value: Byte)
      requires Valid() && |produced| < taken + capacity && b < size
      modifies memory
      ensures Valid() && Base(|produced|) + b < memory.Length && memory[..] == old(memory[..])[Base(|produced|) + b := value]
    {
      SlotInside(capacity, size, |produced|, b);
      memory[Base(|produced|) + b] := value;
      forall k | taken <= k < |produced| ensures Holds(k) {
        assert old(Holds(k));
        forall c | 0 <= c < |produced[k].payload| ensures memory[Base(k) + c] == produced[k].payload[c] {
          SlotsApart(capacity, size, k, |produced|, c, b);
        }
      }
    }

    /** The header for the bytes now in the slot at the tail is published. */
    method PublishSlot(number: nat, generation: nat, length: nat)
      requires Valid() && |produced| < taken + capacity && 0 < length <= size && SeqNumbers.Valid(NUMBERS, number)
      requires produced != [] ==> SeqNumbers.IsNewer(NUMBERS, number, produced[|produced| - 1].number)
      modifies headers, this`produced
      ensures Valid() && Base(|old(produced)|) + length <= memory.Length
      ensures produced == old(produced) + [Command(number, generation, memory[Base(|old(produced)|)..Base(|old(produced)|) + length])]
    {
      var n := |produced|;
      SlotInside(capacity, size, n, length - 1);
      headers[SpscRing.Slot(n, capacity)] := Header(number, generation, Base(n), length);
      ghost var was := produced;
      produced := produced + [Command(number, generation, memory[Base(n)..Base(n) + length])];
      forall k | taken <= k < |produced| ensures Holds(k) {
        if k < n {
          assert old(Holds(k)) && produced[k] == was[k];
          SpscRing.SlotsDiffer(capacity, k, n);
        }
      }
    }

    /** The producer between two steps of the consumer: stores into the free slot, and sometimes publishes it. */
    method ProducerRuns()
      requires Valid()
      modifies memory, headers, this`produced
      ensures Valid() && OnlyProduced()
    {
      var steps: nat := *;
      while steps > 0
        invariant Valid() && OnlyProduced()
      {
        var b: nat, value: Byte, number: nat, generation: nat, length: nat := *, *, *, *, *;
        if |produced| < taken + capacity && b < size {
          StoreByte(b, value);
          if 0 < length <= size && SeqNumbers.Valid(NUMBERS, number)
             && (produced == [] || SeqNumbers.IsNewer(NUMBERS, number, produced[|produced| - 1].number)) {
            PublishSlot(number, generation, length);
          }
        }
        steps := steps - 1;
      }
    }

    /**
     * Consume the next command while the producer goes on. The number and the place are always right, a stale command
     * stays, and what is handed over is the command that was published, to the last byte.
     */
    method Consume(generation: nat) returns (r: Taken)
      requires Valid()
      modifies this, memory, headers
      ensures Valid() && old(produced) <= produced
      ensures !r.NotNewer? && !r.Misplaced?
      ensures r.Empty? ==> taken == old(taken) == |old(produced)|
      ensures r.Stale? ==> taken == old(taken) < |produced| && produced[taken].generation != generation
      ensures r.Got? ==> taken == old(taken) + 1 <= |produced| && r.command == produced[old(taken)] && r.command.generation == generation
    {
      if taken == |produced| { return Empty; }
      ProducerRuns();
      assert Holds(taken);
      var header := headers[SpscRing.Slot(taken, capacity)];
      if header.generation != generation { return Stale; }
      if lastConsumed.Some? && !SeqNumbers.IsNewer(NUMBERS, header.number, lastConsumed.value) { return NotNewer; }
      if header.offset != Base(taken) || header.length > size { return Misplaced; }
      var payload := Copy(header.length);
      r := Got(Command(header.number, header.generation, payload));
      Take(1);
    }

    /** Copy the payload at the head byte by byte. */
    method Copy(length: nat) returns (payload: seq<Byte>)
      requires Valid() && taken < |produced| && length == |produced[taken].payload|
      modifies memory, headers, this`produced
      ensures Valid() && OnlyProduced() && payload == produced[taken].payload
    {
      payload := [];
      while |payload| < length
        invariant Valid() && OnlyProduced() && taken < |produced| && produced[taken] == old(produced[taken])
        invariant |payload| <= length && payload == produced[taken].payload[..|payload|]
      {
        assert Holds(taken);
        payload := payload + [memory[Base(taken) + |payload|]];
        ProducerRuns();
      }
    }

    /**
     * Allocate and publish. A payload that does not fit a slot and a number that is not newer are refused; the ring is
     * full only if it was full at the start, and once the slot is written the header always has room.
     */
    method Send(number: nat, generation: nat, payload: seq<Byte>) returns (r: Sending)
      requires Valid() && SeqNumbers.Valid(NUMBERS, number)
      modifies this, memory, headers
      ensures Valid() && old(taken) <= taken
      ensures r.Bad? <==> payload == [] || |payload| > size || (!r.Full? && old(produced) != [] && !SeqNumbers.IsNewer(NUMBERS, number, old(produced)[|old(produced)| - 1].number))
      ensures r.Full? ==> |old(produced)| == old(taken) + capacity
      ensures produced == if r.Sent? then old(produced) + [Command(number, generation, payload)] else old(produced)
    {
      if payload == [] || |payload| > size { return Bad; }
      if |produced| == taken + capacity { return Full; }
      WriteSlot(payload);
      if produced != [] && !SeqNumbers.IsNewer(NUMBERS, number, produced[|produced| - 1].number) { return Bad; }
      PublishSlot(number, generation, |payload|);
      r := Sent;
    }

    method WriteSlot(payload: seq<Byte>)
      requires Valid() && |produced| < taken + capacity && 0 < |payload| <= size
      modifies memory, this`taken, this`lastConsumed
      ensures Valid() && produced == old(produced) && old(taken) <= taken && |produced| < taken + capacity
      ensures Base(|produced|) + |payload| <= memory.Length && memory[Base(|produced|)..Base(|produced|) + |payload|] == payload
    {
      SlotInside(capacity, size, |produced|, |payload| - 1);
      for b := 0 to |payload|
        invariant Valid() && produced == old(produced) && old(taken) <= taken && |produced| < taken + capacity
        invariant forall c | 0 <= c < b :: memory[Base(|produced|) + c] == payload[c]
      {
        StoreByte(b, payload[b]);
        ConsumerRuns();
      }
    }
  }
}
