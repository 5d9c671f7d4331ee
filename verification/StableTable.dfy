/** One row of a shared table: a sequence word, payload bytes, one writer and any number of stable readers. */
module StableTable {

  /** The all-ones u64, which marks a row that is unpublished or being rewritten. */
  const INVALID: nat := 0xFFFF_FFFF_FFFF_FFFF

  /** Bytes 0..8 of a row hold the sequence word; payload offsets start here. */
  const HEADER: nat := 8

  newtype byte = x: int | 0 <= x < 256

  datatype Store = Store(offset: nat, value: byte)

  datatype Writer = Idle | Publishing(seqNo: nat, todo: seq<Store>)

  function Sum(xs: seq<nat>): nat {
    if xs == [] then 0 else xs[0] + Sum(xs[1..])
  }

  function FieldStores(offset: nat, raw: seq<byte>): seq<Store>
    decreases |raw|
  {
    if raw == [] then [] else [Store(offset, raw[0])] + FieldStores(offset + 1, raw[1..])
  }

  /** The byte stores one publication makes, field after field, in program order. */
  function AllStores(offsets: seq<nat>, lengths: seq<nat>, data: seq<byte>): seq<Store>
    requires |offsets| == |lengths| && Sum(lengths) <= |data|
  {
    if offsets == [] then []
    else FieldStores(offsets[0], data[..lengths[0]]) + AllStores(offsets[1..], lengths[1..], data[lengths[0]..])
  }

  predicate InBounds(stores: seq<Store>, size: nat) {
    forall s <- stores :: HEADER <= s.offset < size
  }

  function Put(cells: seq<byte>, s: Store): seq<byte> {
    if s.offset < |cells| then cells[s.offset := s.value] else cells
  }

  function Apply(cells: seq<byte>, stores: seq<Store>): (r: seq<byte>)
    ensures |r| == |cells|
    decreases |stores|
  {
    if stores == [] then cells else Apply(Put(cells, stores[0]), stores[1..])
  }

  /** Bytes no store names are carried over from the previous publication. */
  lemma {:induction false} UnnamedCarriedOver(cells: seq<byte>, stores: seq<Store>, k: nat)
    requires k < |cells| && forall s <- stores :: s.offset != k
    ensures Apply(cells, stores)[k] == cells[k]
    decreases |stores|
  {
    if stores != [] {
      assert stores[0] in stores;
      UnnamedCarriedOver(Put(cells, stores[0]), stores[1..], k);
    }
  }

  lemma {:induction false} ApplyConcat(cells: seq<byte>, a: seq<Store>, b: seq<Store>)
    ensures Apply(cells, a + b) == Apply(Apply(cells, a), b)
    decreases |a|
  {
    if a == [] {
      assert a + b == b;
    } else {
      assert (a + b)[1..] == a[1..] + b;
      ApplyConcat(Put(cells, a[0]), a[1..], b);
    }
  }

  lemma {:induction false} FieldOffsets(offset: nat, raw: seq<byte>, s: Store)
    requires s in FieldStores(offset, raw)
    ensures offset <= s.offset < offset + |raw|
    decreases |raw|
  {
    if s != Store(offset, raw[0]) {
      FieldOffsets(offset + 1, raw[1..], s);
    }
  }

  predicate Apart(o1: nat, n1: nat, o2: nat, n2: nat) {
    o1 + n1 <= o2 || o2 + n2 <= o1
  }

  lemma {:induction false} StoresBelongToField(offsets: seq<nat>, lengths: seq<nat>, data: seq<byte>, s: Store) returns (f: nat)
    requires |offsets| == |lengths| && Sum(lengths) <= |data|
    requires s in AllStores(offsets, lengths, data)
    ensures f < |offsets| && offsets[f] <= s.offset < offsets[f] + lengths[f]
  {
    if s in FieldStores(offsets[0], data[..lengths[0]]) {
      FieldOffsets(offsets[0], data[..lengths[0]], s);
      f := 0;
    } else {
      var g := StoresBelongToField(offsets[1..], lengths[1..], data[lengths[0]..], s);
      f := g + 1;
    }
  }

  ghost predicate DisjointFields(offsets: seq<nat>, lengths: seq<nat>, size: nat) {
    && |offsets| == |lengths|
    && (forall g | 0 <= g < |offsets| :: offsets[g] + lengths[g] <= size)
    && forall g, h | 0 <= g < h < |offsets| :: Apart(offsets[g], lengths[g], offsets[h], lengths[h])
  }

  lemma LaterFieldsMissFirst(offsets: seq<nat>, lengths: seq<nat>, data: seq<byte>, size: nat, k: nat)
    requires DisjointFields(offsets, lengths, size) && offsets != [] && Sum(lengths) <= |data|
    requires offsets[0] <= k < offsets[0] + lengths[0]
    ensures forall s <- AllStores(offsets[1..], lengths[1..], data[lengths[0]..]) :: s.offset != k
  {
    forall s | s in AllStores(offsets[1..], lengths[1..], data[lengths[0]..]) ensures s.offset != k {
      var g := StoresBelongToField(offsets[1..], lengths[1..], data[lengths[0]..], s);
      assert Apart(offsets[0], lengths[0], offsets[g + 1], lengths[g + 1]);
    }
  }

  lemma {:induction false} FirstFieldLands(cells: seq<byte>, offset: nat, raw: seq<byte>, tail: seq<Store>, j: nat)
    requires offset + |raw| <= |cells| && j < |raw| && forall s <- tail :: s.offset != offset + j
    ensures Apply(cells, FieldStores(offset, raw) + tail)[offset + j] == raw[j]
    decreases |raw|
  {
    var next, rest := cells[offset := raw[0]], FieldStores(offset + 1, raw[1..]) + tail;
    FirstByte(offset, raw, tail);
    if j == 0 {
      forall s | s in rest ensures s.offset != offset {
        if s in FieldStores(offset + 1, raw[1..]) { FieldOffsets(offset + 1, raw[1..], s); }
      }
      UnnamedCarriedOver(next, rest, offset);
    } else {
      FirstFieldLands(next, offset + 1, raw[1..], tail, j - 1);
    }
  }

  lemma RestIsDisjoint(offsets: seq<nat>, lengths: seq<nat>, size: nat)
    requires DisjointFields(offsets, lengths, size) && offsets != []
    ensures DisjointFields(offsets[1..], lengths[1..], size)
  {
    forall g, h | 0 <= g < h < |offsets[1..]|
      ensures Apart(offsets[1..][g], lengths[1..][g], offsets[1..][h], lengths[1..][h])
    {
      assert Apart(offsets[g + 1], lengths[g + 1], offsets[h + 1], lengths[h + 1]);
    }
  }

  /** Byte j of field f of a publication with disjoint fields ends up holding that field's own byte of the packed data. */
  lemma {:induction false} NamedFieldLands(cells: seq<byte>, offsets: seq<nat>, lengths: seq<nat>, data: seq<byte>, f: nat, j: nat)
    requires DisjointFields(offsets, lengths, |cells|) && Sum(lengths) <= |data| && f < |offsets| && j < lengths[f]
    ensures Sum(lengths[..f]) + j < |data|
    ensures Apply(cells, AllStores(offsets, lengths, data))[offsets[f] + j] == data[Sum(lengths[..f]) + j]
    decreases f
  {
    var head, rest := FieldStores(offsets[0], data[..lengths[0]]), AllStores(offsets[1..], lengths[1..], data[lengths[0]..]);
    SumSplit(lengths, f);
    if f == 0 {
      var first := FirstAndRest(offsets, lengths, data, |cells|, offsets[0] + j);
      FieldAmong(cells, AllStores(offsets, lengths, data), offsets[0], data[..lengths[0]], first, j);
    } else {
      ApplyConcat(cells, head, rest);
      RestIsDisjoint(offsets, lengths, |cells|);
      NamedFieldLands(Apply(cells, head), offsets[1..], lengths[1..], data[lengths[0]..], f - 1, j);
    }
  }

  lemma FieldAmong(cells: seq<byte>, stores: seq<Store>, offset: nat, raw: seq<byte>, rest: seq<Store>, j: nat)
    requires stores == FieldStores(offset, raw) + rest
    requires offset + |raw| <= |cells| && j < |raw| && forall s <- rest :: s.offset != offset + j
    ensures Apply(cells, stores)[offset + j] == raw[j]
  {
    FirstFieldLands(cells, offset, raw, rest, j);
  }

  /** The stores of a publication are those of its first field and others that miss it. */
  lemma FirstAndRest(offsets: seq<nat>, lengths: seq<nat>, data: seq<byte>, size: nat, k: nat) returns (rest: seq<Store>)
    requires DisjointFields(offsets, lengths, size) && Sum(lengths) <= |data| && offsets != [] && offsets[0] <= k < offsets[0] + lengths[0]
    ensures offsets[0] + lengths[0] <= size && AllStores(offsets, lengths, data) == FieldStores(offsets[0], data[..lengths[0]]) + rest
    ensures forall s <- rest :: s.offset != k
  {
    rest := AllStores(offsets[1..], lengths[1..], data[lengths[0]..]);
    LaterFieldsMissFirst(offsets, lengths, data, size, k);
  }

  lemma SumSplit(lengths: seq<nat>, f: nat)
    requires f < |lengths|
    ensures Sum(lengths[..f]) == if f == 0 then 0 else lengths[0] + Sum(lengths[1..][..f - 1])
  {
    if f > 0 { assert lengths[..f][1..] == lengths[1..][..f - 1]; }
  }

  /** What a publication still has to store once its first i fields, pos bytes of data, are written. */
  function Remaining(offsets: seq<nat>, lengths: seq<nat>, data: seq<byte>, i: nat, pos: nat): seq<Store>
    requires Fits(offsets, lengths, data, i, pos)
  {
    AllStores(offsets[i..], lengths[i..], data[pos..])
  }

  predicate Fits(offsets: seq<nat>, lengths: seq<nat>, data: seq<byte>, i: nat, pos: nat) {
    |offsets| == |lengths| && i <= |offsets| && pos <= |data| && Sum(lengths[i..]) <= |data| - pos
  }

  lemma AllRemains(offsets: seq<nat>, lengths: seq<nat>, data: seq<byte>)
    requires |offsets| == |lengths| && Sum(lengths) <= |data|
    ensures Fits(offsets, lengths, data, 0, 0) && Remaining(offsets, lengths, data, 0, 0) == AllStores(offsets, lengths, data)
  {
    assert offsets[0..] == offsets && lengths[0..] == lengths && data[0..] == data;
  }

  lemma NothingRemains(offsets: seq<nat>, lengths: seq<nat>, data: seq<byte>, pos: nat)
    requires Fits(offsets, lengths, data, |offsets|, pos)
    ensures Remaining(offsets, lengths, data, |offsets|, pos) == []
  {
  }

  lemma NextField(offsets: seq<nat>, lengths: seq<nat>, data: seq<byte>, i: nat, pos: nat)
    requires Fits(offsets, lengths, data, i, pos) && i < |offsets|
    ensures Fits(offsets, lengths, data, i + 1, pos + lengths[i])
    ensures Remaining(offsets, lengths, data, i, pos)
         == FieldStores(offsets[i], data[pos..pos + lengths[i]]) + Remaining(offsets, lengths, data, i + 1, pos + lengths[i])
  {
    assert offsets[i..][1..] == offsets[i + 1..] && lengths[i..][1..] == lengths[i + 1..];
    assert data[pos..][..lengths[i]] == data[pos..pos + lengths[i]];
    assert data[pos..][lengths[i]..] == data[pos + lengths[i]..];
  }

  lemma FirstByte(offset: nat, raw: seq<byte>, after: seq<Store>)
    requires raw != []
    ensures (FieldStores(offset, raw) + after)[0] == Store(offset, raw[0])
    ensures (FieldStores(offset, raw) + after)[1..] == FieldStores(offset + 1, raw[1..]) + after
  {
  }

  class TableRow {
    var word: nat
    const bytes: array<byte>
    var writer: Writer
    /** History: every payload ever committed, under the sequence that committed it. */
    var log: map<nat, seq<byte>>
    /** What the publication in progress will have written when it commits. */
    ghost var target: seq<byte>

    ghost predicate Valid()
      reads this, bytes
    {
      && bytes.Length >= HEADER
      && INVALID !in log
      && match writer
         case Idle => word == INVALID || (word in log && log[word] == bytes[HEADER..])
         case Publishing(seqNo, todo) =>
           && word == INVALID && seqNo != INVALID && seqNo !in log
           && InBounds(todo, bytes.Length)
           && |target| == bytes.Length && Apply(bytes[..], todo) == target
    }

    constructor (size: nat)
      requires size >= HEADER
      ensures Valid() && fresh(bytes) && bytes.Length == size && word == INVALID && log == map[] && writer == Idle
    {
      word, writer, log, target := INVALID, Idle, map[], [];
      bytes := new byte[size](_ => 0);
    }

    /** What may have happened between two accesses of a reader: whole or partial publications under unused sequences. */
    twostate predicate Interference()
      reads this, bytes
    {
      && (forall k | k in old(log) :: k in log && log[k] == old(log)[k])
      && (word in old(log) ==> word == old(word) && bytes[..] == old(bytes[..]))
    }

    method Begin(seqNo: nat, stores: seq<Store>)
      requires Valid() && writer.Idle? && seqNo < INVALID && seqNo !in log && InBounds(stores, bytes.Length)
      modifies this
      ensures Valid() && writer == Publishing(seqNo, stores) && word == INVALID && log == old(log)
      ensures target == Apply(bytes[..], stores)
    {
      word := INVALID;
      writer := Publishing(seqNo, stores);
      target := Apply(bytes[..], stores);
    }

    method StoreByte(offset: nat, value: byte)
      requires Valid() && writer.Publishing? && writer.todo != [] && writer.todo[0] == Store(offset, value)
      modifies this`writer, bytes
      ensures Valid() && writer == Publishing(old(writer.seqNo), old(writer.todo)[1..])
    {
      assert writer.todo[0] in writer.todo;
      bytes[offset] := value;
      assert bytes[..] == old(bytes[..])[offset := value];
      writer := writer.(todo := writer.todo[1..]);
    }

    method Commit()
      requires Valid() && writer.Publishing? && writer.todo == []
      modifies this
      ensures Valid() && writer.Idle? && word == old(writer.seqNo)
      ensures log == old(log)[old(writer.seqNo) := bytes[HEADER..]]
    {
      word := writer.seqNo;
      log := log[writer.seqNo := bytes[HEADER..]];
      writer := Idle;
    }

    /** The inner loop of a publication: one named field, byte by byte. */
    method StoreField(offset: nat, length: nat, data: seq<byte>, pos: nat, ghost after: seq<Store>)
      requires Valid() && writer.Publishing? && pos + length <= |data|
      requires writer.todo == FieldStores(offset, data[pos..pos + length]) + after
      modifies this`writer, bytes
      ensures Valid() && writer == Publishing(old(writer.seqNo), after)
    {
      var j := 0;
      ghost var raw := data[pos..pos + length];
      while j < length
        invariant 0 <= j <= length && Valid()
        invariant writer == Publishing(old(writer.seqNo), FieldStores(offset + j, raw[j..]) + after)
      {
        FirstByte(offset + j, raw[j..], after);
        StoreByte(offset + j, data[pos + j]);
        assert raw[j..][1..] == raw[j + 1..];
        j := j + 1;
      }
      assert FieldStores(offset + j, raw[j..]) + after == after;
    }

    method PublishField(offsets: seq<nat>, lengths: seq<nat>, data: seq<byte>, i: nat, pos: nat)
      requires Valid() && writer.Publishing? && Fits(offsets, lengths, data, i, pos) && i < |offsets|
      requires writer.todo == Remaining(offsets, lengths, data, i, pos)
      modifies this`writer, bytes
      ensures Fits(offsets, lengths, data, i + 1, pos + lengths[i])
      ensures Valid() && writer == Publishing(old(writer.seqNo), Remaining(offsets, lengths, data, i + 1, pos + lengths[i]))
    {
      NextField(offsets, lengths, data, i, pos);
      StoreField(offsets[i], lengths[i], data, pos, Remaining(offsets, lengths, data, i + 1, pos + lengths[i]));
    }

    /** sd_table_publish: invalidate, store every named byte, commit the new sequence. */
    method Publish(seqNo: nat, offsets: seq<nat>, lengths: seq<nat>, data: seq<byte>)
      requires Valid() && writer.Idle? && seqNo < INVALID && seqNo !in log
      requires |offsets| == |lengths| && Sum(lengths) <= |data| && InBounds(AllStores(offsets, lengths, data), bytes.Length)
      modifies this, bytes
      ensures Valid() && writer.Idle? && word == seqNo
      ensures bytes[..] == Apply(old(bytes[..]), AllStores(offsets, lengths, data))
      ensures log == old(log)[seqNo := bytes[HEADER..]]
    {
      ghost var goal := Apply(bytes[..], AllStores(offsets, lengths, data));
      Begin(seqNo, AllStores(offsets, lengths, data));
      StoreAll(offsets, lengths, data);
      Commit();
    }

    /** The outer loop of a publication: every named field in turn. */
    method StoreAll(offsets: seq<nat>, lengths: seq<nat>, data: seq<byte>)
      requires Valid() && writer.Publishing? && |offsets| == |lengths| && Sum(lengths) <= |data|
      requires writer.todo == AllStores(offsets, lengths, data)
      modifies this`writer, bytes
      ensures Valid() && writer == Publishing(old(writer.seqNo), [])
    {
      var pos: nat, i: nat := 0, 0;
      AllRemains(offsets, lengths, data);
      while i < |offsets|
        invariant Fits(offsets, lengths, data, i, pos)
        invariant Valid() && writer == Publishing(old(writer.seqNo), Remaining(offsets, lengths, data, i, pos))
      {
        PublishField(offsets, lengths, data, i, pos);
        pos, i := pos + lengths[i], i + 1;
      }
      NothingRemains(offsets, lengths, data, pos);
    }

    /** One arbitrary step of the row's single writer. */
    method WriterStep()
      requires Valid()
      modifies this, bytes
      ensures Valid() && Interference()
    {
      if writer.Publishing? {
        if writer.todo == [] {
          Commit();
        } else {
          StoreByte(writer.todo[0].offset, writer.todo[0].value);
        }
      } else {
        var seqNo: nat, stores: seq<Store> := *, *;
        if seqNo < INVALID && seqNo !in log && InBounds(stores, bytes.Length) {
          Begin(seqNo, stores);
        }
      }
    }

    /** Any number of writer steps, possibly none. */
    method Interfere() returns (quiet: bool)
      requires Valid()
      modifies this, bytes
      ensures Valid() && Interference()
      ensures quiet ==> word == old(word) && bytes[..] == old(bytes[..]) && log == old(log) && writer == old(writer)
    {
      var steps: nat := *;
      quiet := steps == 0;
      while steps > 0
        invariant Valid() && Interference()
        invariant quiet ==> steps == 0 && word == old(word) && bytes[..] == old(bytes[..]) && log == old(log) && writer == old(writer)
      {
        WriterStep();
        steps := steps - 1;
      }
    }

    /**
     * sd_table_read against an arbitrary writer. A successful read is the whole row as it stands at the
     * closing load, which is also the payload committed under the sequence it reports; a read the writer
     * does not disturb fails only on an unpublished row.
     */
    method Read() returns (ok: bool, out: seq<byte>, seqNo: nat, quiet: bool)
      requires Valid()
      modifies this, bytes
      ensures Valid() && Interference()
      ensures ok ==> seqNo in log && log[seqNo] == out && word == seqNo && out == bytes[HEADER..]
      ensures quiet ==> ok == (old(word) != INVALID) && word == old(word) && bytes[..] == old(bytes[..])
    {
      ok, out, seqNo, quiet := false, [], INVALID, true;
      quiet := Interfere();
      var a := word;
      if a == INVALID { return; }
      label first:
      var i := HEADER;
      while i < bytes.Length
        invariant HEADER <= i <= bytes.Length && |out| == i - HEADER
        invariant Valid() && Interference() && Interference@first()
        invariant a in log && old@first(a in log)
        invariant word == a ==> out == bytes[HEADER..i]
        invariant quiet ==> word == a == old(word) && bytes[..] == old(bytes[..])
      {
        label before:
        var q := Interfere();
        assert word == a ==> word == old@before(word);
        quiet := quiet && q;
        out := out + [bytes[i]];
        i := i + 1;
      }
      var q := Interfere();
      quiet := quiet && q;
      var b := word;
      if a != b || b == INVALID { return; }
      ok, seqNo := true, b;
    }
  }
}
