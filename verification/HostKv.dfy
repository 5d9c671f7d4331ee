/** The host copy of a request's cells: a two-plane arena, its write leases, and the rule for which blocks to write back. */
module HostKv {
  import opened Wrappers
  import opened BlockMath
  import SeqNumbers

  /** Modulus of version ordering; the value itself marks an absent version. */
  const VERSION_MODULUS: nat := 0xFFFF_FFFF_FFFF_FFFF

  datatype Extent = Extent(slot: nat, epoch: nat, hostSlot: nat, hostGeneration: nat, lease: nat,
                           offset: nat, blocks: nat, arenaGeneration: nat, capacity: nat, committed: nat, version: nat)

  datatype Lease = Lease(slot: nat, epoch: nat, hostSlot: nat, hostGeneration: nat, lease: nat,
                         expected: nat, begin: nat, count: nat)

  /** HostKVWriteLease.for_extent. */
  function LeaseFor(e: Extent, begin: nat, count: nat): Lease {
    Lease(e.slot, e.epoch, e.hostSlot, e.hostGeneration, e.lease, e.version, begin, count)
  }

  predicate SameIdentity(e: Extent, l: Lease) {
    l.slot == e.slot && l.epoch == e.epoch && l.hostSlot == e.hostSlot && l.hostGeneration == e.hostGeneration && l.lease == e.lease
  }

  // ---- The arena ----

  function Spliced<P>(s: seq<P>, at: nat, p: seq<P>): (r: seq<P>)
    requires at + |p| <= |s|
    ensures |r| == |s|
    ensures forall i | 0 <= i < |s| :: r[i] == if at <= i < at + |p| then p[i - at] else s[i]
  {
    s[..at] + p + s[at + |p|..]
  }

  lemma SubSlice<P>(s: seq<P>, from: nat, to: nat, i: nat, n: nat)
    requires from <= to <= |s| && i + n <= to - from
    ensures s[from..to][i..i + n] == s[from + i..from + i + n]
  {
    var a, b := s[from..to][i..i + n], s[from + i..from + i + n];
    assert |a| == |b| && forall j | 0 <= j < n :: a[j] == b[j];
  }

  lemma SpliceInside<P>(s: seq<P>, from: nat, to: nat, at: nat, p: seq<P>)
    requires from <= at && at + |p| <= to <= |s|
    ensures Spliced(s, at, p)[from..to] == Spliced(s[from..to], at - from, p)
  {
  }

  lemma SpliceOutside<P>(s: seq<P>, from: nat, to: nat, at: nat, p: seq<P>)
    requires from <= to <= |s| && at + |p| <= |s| && (at + |p| <= from || to <= at)
    ensures Spliced(s, at, p)[from..to] == s[from..to]
  {
  }

  class HostArena<P(0)> {
    const total: nat
    const unit: nat
    const generation: nat
    const buf: array<P>

    constructor (total: nat, unit: nat, generation: nat)
      requires unit > 0
      ensures Valid() && this.total == total && this.unit == unit && this.generation == generation && fresh(buf)
    {
      this.total, this.unit, this.generation := total, unit, generation;
      buf := new P[2 * Span(total, unit)];
    }

    ghost predicate Valid() {
      unit > 0 && buf.Length == 2 * Span(total, unit)
    }

    predicate ExtentOk(e: Extent) {
      e.arenaGeneration == generation && e.blocks == e.capacity && e.offset + e.blocks <= total
    }

    /** Where a block of the extent begins in the K plane; the V plane follows the K plane. */
    function At(e: Extent, block: nat): nat { Span(e.offset + block, unit) }

    function VPlane(): nat { Span(total, unit) }

    lemma InBounds(e: Extent, begin: nat, count: nat)
      requires Valid() && ExtentOk(e) && begin + count <= e.capacity
      ensures At(e, begin) + Span(count, unit) == At(e, begin + count) <= At(e, e.capacity) <= VPlane()
      ensures At(e, 0) <= At(e, begin) && At(e, begin) == At(e, 0) + Span(begin, unit)
    {
      SpanAdds(e.offset + begin, count, unit);
      SpanGrows(e.offset + begin + count, e.offset + e.capacity, unit);
      SpanGrows(e.offset + e.capacity, total, unit);
      SpanAdds(e.offset, begin, unit);
    }

    /** The two planes of the extent in a buffer. */
    ghost function View(b: seq<P>, e: Extent): (r: (seq<P>, seq<P>))
      requires Valid() && ExtentOk(e) && |b| == buf.Length
      ensures |r.0| == |r.1| == Span(e.capacity, unit)
    {
      InBounds(e, 0, e.capacity);
      (b[At(e, 0)..At(e, e.capacity)], b[VPlane() + At(e, 0)..VPlane() + At(e, e.capacity)])
    }

    ghost function K(e: Extent): (r: seq<P>)
      requires Valid() && ExtentOk(e)
      reads buf
      ensures |r| == Span(e.capacity, unit)
    {
      View(buf[..], e).0
    }

    ghost function V(e: Extent): (r: seq<P>)
      requires Valid() && ExtentOk(e)
      reads buf
      ensures |r| == Span(e.capacity, unit)
    {
      View(buf[..], e).1
    }

    /** The extents share no block. */
    predicate Apart(d: Extent, e: Extent) {
      d.offset + d.capacity <= e.offset || e.offset + e.capacity <= d.offset
    }

    /** The buffer with a payload in both planes. */
    ghost function Written(e: Extent, begin: nat, b: seq<P>, k: seq<P>, v: seq<P>): (r: seq<P>)
      requires |k| == |v| && At(e, begin) + |k| <= VPlane() && 2 * VPlane() == |b|
      ensures |r| == |b|
    {
      Spliced(Spliced(b, At(e, begin), k), VPlane() + At(e, begin), v)
    }

    lemma WriteShows(e: Extent, begin: nat, count: nat, b: seq<P>, k: seq<P>, v: seq<P>)
      requires Valid() && ExtentOk(e) && begin + count <= e.capacity && |b| == buf.Length && |k| == |v| == Span(count, unit)
      ensures Span(begin, unit) + Span(count, unit) <= Span(e.capacity, unit) && At(e, begin) + |k| <= VPlane()
      ensures View(Written(e, begin, b, k, v), e).0 == Spliced(View(b, e).0, Span(begin, unit), k)
      ensures View(Written(e, begin, b, k, v), e).1 == Spliced(View(b, e).1, Span(begin, unit), v)
    {
      InBounds(e, begin, count);
      InBounds(e, 0, e.capacity);
      SpanAdds(begin, count, unit);
      SpanGrows(begin + count, e.capacity, unit);
      var from, to, at, plane := At(e, 0), At(e, e.capacity), At(e, begin), VPlane();
      var half := Spliced(b, at, k);
      SpliceOutside(half, from, to, plane + at, v);
      SpliceInside(b, from, to, at, k);
      SpliceInside(half, plane + from, plane + to, plane + at, v);
      SpliceOutside(b, plane + from, plane + to, at, k);
    }

    lemma WriteHides(d: Extent, e: Extent, begin: nat, count: nat, b: seq<P>, k: seq<P>, v: seq<P>)
      requires Valid() && ExtentOk(e) && begin + count <= e.capacity && |b| == buf.Length && |k| == |v| == Span(count, unit)
      requires ExtentOk(d) && Apart(d, e)
      ensures At(e, begin) + |k| <= VPlane() && View(Written(e, begin, b, k, v), d) == View(b, d)
    {
      InBounds(e, begin, count);
      InBounds(d, 0, d.capacity);
      var from, to, at, plane := At(d, 0), At(d, d.capacity), At(e, begin), VPlane();
      if d.offset + d.capacity <= e.offset {
        SpanGrows(d.offset + d.capacity, e.offset + begin, unit);
      } else {
        SpanGrows(e.offset + begin + count, d.offset, unit);
      }
      var half := Spliced(b, at, k);
      SpliceOutside(half, from, to, plane + at, v);
      SpliceOutside(b, from, to, at, k);
      SpliceOutside(half, plane + from, plane + to, plane + at, v);
      SpliceOutside(b, plane + from, plane + to, at, k);
    }

    predicate LeaseOk(e: Extent, l: Lease) {
      && ExtentOk(e) && SameIdentity(e, l) && l.expected == e.version
      && l.begin <= e.committed && l.begin + l.count <= e.capacity
    }

    /**
     * SharedHostKVArena.write_kv. It fails, writing nothing, when the payload or the lease does not match; otherwise the
     * leased blocks of both planes hold the payload and every other cell of the arena is as before.
     */
    method WriteKv(e: Extent, l: Lease, k: seq<P>, v: seq<P>) returns (r: Result<Extent>)
      requires Valid() && e.committed <= e.capacity && e.version < VERSION_MODULUS
      modifies buf
      ensures r.Ok? <==> |k| == |v| == Span(l.count, unit) && LeaseOk(e, l)
      ensures r.Err? || l.count == 0 ==> buf[..] == old(buf[..])
      ensures r.Ok? ==>
                At(e, l.begin) + |k| <= VPlane() && buf[..] == Written(e, l.begin, old(buf[..]), k, v)
      ensures r.Ok? ==>
                && Span(l.begin, unit) + |k| <= Span(e.capacity, unit)
                && K(e) == Spliced(old(K(e)), Span(l.begin, unit), k) && V(e) == Spliced(old(V(e)), Span(l.begin, unit), v)
      ensures r.Ok? ==> forall d | ExtentOk(d) && Apart(d, e) :: K(d) == old(K(d)) && V(d) == old(V(d))
      ensures r.Ok? ==>
                r.value == if l.count == 0 then e
                           else e.(committed := Max(e.committed, l.begin + l.count), version := SeqNumbers.Next(VERSION_MODULUS, e.version))
    {
      if |k| != |v| { return Err("K and V payloads must have equal byte length"); }
      if |k| != Span(l.count, unit) { return Err("payload size must match lease dirty range"); }
      if !LeaseOk(e, l) { return Err("HostKV write lease"); }
      if l.count == 0 {
        WriteShows(e, l.begin, 0, buf[..], k, v);
        assert buf[..] == Written(e, l.begin, buf[..], k, v);
        return Ok(e);
      }
      WriteBoth(e, l.begin, l.count, k, v);
      r := Ok(e.(committed := Max(e.committed, l.begin + l.count), version := SeqNumbers.Next(VERSION_MODULUS, e.version)));
    }

    /** The two copies of a write. */
    method WriteBoth(e: Extent, begin: nat, count: nat, k: seq<P>, v: seq<P>)
      requires Valid() && ExtentOk(e) && begin + count <= e.capacity && |k| == |v| == Span(count, unit)
      modifies buf
      ensures Span(begin, unit) + |k| <= Span(e.capacity, unit) && At(e, begin) + |k| <= VPlane()
      ensures buf[..] == Written(e, begin, old(buf[..]), k, v)
      ensures K(e) == Spliced(old(K(e)), Span(begin, unit), k) && V(e) == Spliced(old(V(e)), Span(begin, unit), v)
      ensures forall d | ExtentOk(d) && Apart(d, e) :: K(d) == old(K(d)) && V(d) == old(V(d))
    {
      ghost var before := buf[..];
      WriteShows(e, begin, count, before, k, v);
      forall d | ExtentOk(d) && Apart(d, e) ensures View(Written(e, begin, before, k, v), d) == View(before, d) {
        WriteHides(d, e, begin, count, before, k, v);
      }
      Fill(At(e, begin), k);
      Fill(VPlane() + At(e, begin), v);
    }

    /** Copy a payload into the buffer. */
    method Fill(at: nat, p: seq<P>)
      requires at + |p| <= buf.Length
      modifies buf
      ensures buf[..] == Spliced(old(buf[..]), at, p)
    {
      for i := 0 to |p|
        invariant forall j | 0 <= j < buf.Length :: buf[j] == if at <= j < at + i then p[j - at] else old(buf[j])
      {
        buf[at + i] := p[i];
      }
      assert forall j | 0 <= j < buf.Length :: buf[..][j] == Spliced(old(buf[..]), at, p)[j];
    }

    /** SharedHostKVArena.read_kv. */
    method ReadKv(e: Extent, begin: nat, count: nat) returns (r: Result<(seq<P>, seq<P>)>)
      requires Valid()
      ensures r.Ok? <==> ExtentOk(e) && begin + count <= e.capacity
      ensures r.Ok? ==>
                && Span(begin, unit) + Span(count, unit) <= Span(e.capacity, unit)
                && r.value.0 == K(e)[Span(begin, unit)..Span(begin, unit) + Span(count, unit)]
                && r.value.1 == V(e)[Span(begin, unit)..Span(begin, unit) + Span(count, unit)]
    {
      if !ExtentOk(e) { return Err("HostKV extent"); }
      if begin + count > e.capacity { return Err("HostKV view range exceeds extent capacity"); }
      InBounds(e, begin, count);
      InBounds(e, 0, e.capacity);
      SpanAdds(begin, count, unit);
      SpanGrows(begin + count, e.capacity, unit);
      var at, n := At(e, begin), Span(count, unit);
      SubSlice(buf[..], At(e, 0), At(e, e.capacity), Span(begin, unit), n);
      SubSlice(buf[..], VPlane() + At(e, 0), VPlane() + At(e, e.capacity), Span(begin, unit), n);
      r := Ok((buf[at..at + n], buf[VPlane() + at..VPlane() + at + n]));
    }
  }

  function Max(a: nat, b: nat): nat { if a < b then b else a }

  // ---- Which blocks to write, and when they may be read back ----

  /** The completion row of the last write-back of a request. */
  datatype Completion = Completion(epoch: nat, hostReady: bool, ok: bool, hostGeneration: nat, writer: nat,
                                   version: nat, committed: nat, logical: nat)

  /** The completion that vouches for the extent, if any; a completion under another fence is an error. */
  function ReadyFor(row: Option<Completion>, e: Extent): (r: Result<Option<Completion>>) {
    if row.None? || row.value.epoch != e.epoch || !row.value.hostReady then Ok(None)
    else if !row.value.ok || row.value.hostGeneration != e.hostGeneration || row.value.writer != e.lease
    then Err("HostKV completion fence mismatch")
    else Ok(row)
  }

  datatype Dirty = Dirty(version: int, logical: nat, begin: nat, count: nat)

  /** HostKVFacts.write_extent. */
  function WriteExtent(d: Dirty, row: Option<Completion>, e: Extent, size: nat): (r: Result<Extent>)
    requires size > 0
    ensures r.Ok? ==> LeaseFor(r.value, d.begin, d.count).begin <= r.value.committed
    ensures r.Ok? <==>
              && ReadyFor(row, e).Ok? && SeqNumbers.Valid(VERSION_MODULUS, d.version)
              && (ReadyFor(row, e).value.Some? ==> SeqNumbers.IsNewer(VERSION_MODULUS, d.version, row.value.version))
              && d.begin == Tail(if ReadyFor(row, e).value.Some? then row.value.committed else 0)
              && d.begin + d.count == Blocks(d.logical, size) <= e.capacity
  {
    var ready := ReadyFor(row, e);
    if ready.Err? then Err(ready.reason)
    else
      var committed := if ready.value.None? then 0 else ready.value.value.committed;
      var version := if ready.value.None? then 0 else ready.value.value.version;
      if !SeqNumbers.Valid(VERSION_MODULUS, d.version) then Err("kv_version out of range")
      else if ready.value.Some? && !SeqNumbers.IsNewer(VERSION_MODULUS, d.version, version) then Err("D2H KV version must advance")
      else if d.begin != Tail(committed) || d.begin + d.count != Blocks(d.logical, size) || Blocks(d.logical, size) > e.capacity
      then Err("D2H dirty range must cover the old tail and full new prefix")
      else Ok(e.(committed := committed, version := version))
  }

  /** The first block that a write-back must cover: the last committed one, which may have been partial. */
  function Tail(committed: nat): nat { if committed == 0 then 0 else committed - 1 }

  datatype Source = Source(version: int, committed: nat, valid: nat, logical: nat)

  /** HostKVFacts.source_ready. */
  function SourceReady(q: Source, row: Option<Completion>, e: Extent): (r: Result<Option<Extent>>) {
    var ready := ReadyFor(row, e);
    if ready.Err? then Err(ready.reason)
    else if ready.value.None? then Ok(None)
    else
      var c := ready.value.value;
      if c.version != q.version then
        if SeqNumbers.IsNewer(VERSION_MODULUS, c.version, q.version) then Err("prepare refers to an overwritten HostKV version")
        else Ok(None)
      else if c.committed != q.committed then Err("HostKV committed blocks mismatch")
      else if c.logical != q.logical then Err("HostKV logical length mismatch")
      else if q.valid != q.committed then Err("full-prefix H2D requires all valid blocks committed in HostKV")
      else Ok(Some(e))
  }

  /** A row's version goes up by two with every verification; only from one value does that give the absent marker. */
  lemma VersionAdvances(v: nat)
    requires SeqNumbers.Valid(VERSION_MODULUS, v)
    ensures var next := (v + 2) % (VERSION_MODULUS + 1);
            && (SeqNumbers.Valid(VERSION_MODULUS, next) <==> v != VERSION_MODULUS - 2)
            && (SeqNumbers.Valid(VERSION_MODULUS, next) ==> SeqNumbers.IsNewer(VERSION_MODULUS, next, v))
  {
    var next := (v + 2) % (VERSION_MODULUS + 1);
    if v + 2 < VERSION_MODULUS + 1 {
      assert next == v + 2;
    } else {
      assert next == v + 2 - (VERSION_MODULUS + 1);
      SeqNumbers.AddModulus(VERSION_MODULUS, next - v);
    }
  }
}
