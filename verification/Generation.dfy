/** The whole life of a request: rounds with arbitrary drafts, write-backs to the host, and moves between workers. */
module Generation {
  import opened Wrappers
  import opened BlockMath
  import opened Lossless
  import opened CompactTarget
  import opened HostKv
  import SeqNumbers

  /** What one position contributes to the two planes. */
  datatype Cell<P> = Cell(k: P, v: P)

  function Ks<P>(cells: seq<Cell<P>>): (r: seq<P>)
    ensures |r| == |cells| && forall i | 0 <= i < |r| :: r[i] == cells[i].k
  {
    seq(|cells|, i requires 0 <= i < |cells| => cells[i].k)
  }

  function Vs<P>(cells: seq<Cell<P>>): (r: seq<P>)
    ensures |r| == |cells| && forall i | 0 <= i < |r| :: r[i] == cells[i].v
  {
    seq(|cells|, i requires 0 <= i < |cells| => cells[i].v)
  }

  function Zip<P>(k: seq<P>, v: seq<P>): (r: seq<Cell<P>>)
    requires |k| == |v|
    ensures |r| == |k| && forall i | 0 <= i < |r| :: r[i] == Cell(k[i], v[i])
  {
    seq(|k|, i requires 0 <= i < |k| => Cell(k[i], v[i]))
  }

  /** The first n positions of the two planes are the cells. */
  ghost predicate Mirrors<P>(k: seq<P>, v: seq<P>, cells: seq<Cell<P>>, n: nat) {
    n <= |k| && n <= |v| && n <= |cells| && forall p | 0 <= p < n :: Cell(k[p], v[p]) == cells[p]
  }

  /** The completion vouches for the extent and describes a row with this length and version. */
  ghost predicate Vouches(c: Completion, e: Extent, unit: nat, logical: nat, version: nat)
    requires unit > 0
  {
    && ReadyFor(Some(c), e) == Ok(Some(c))
    && c.committed == Blocks(logical, unit) && c.logical == logical && c.version == version
  }

  /** The whole valid prefix of the row is on the host, under its current version. */
  ghost predicate Saved<P>(k: seq<P>, v: seq<P>, c: Completion, e: Extent, unit: nat, row: Row<Cell<P>>)
    requires unit > 0
  {
    Vouches(c, e, unit, row.logical, row.version) && Mirrors(k, v, row.cells, row.logical)
  }

  /** The old completion still describes a prefix of the row: nothing before its length has changed since. */
  ghost predicate Extends<P>(k: seq<P>, v: seq<P>, last: Option<Completion>, e: Extent, unit: nat, row: Row<Cell<P>>)
    requires unit > 0
  {
    last.Some? ==>
      && last.value.logical <= row.logical
      && Vouches(last.value, e, unit, last.value.logical, last.value.version)
      && Mirrors(k, v, row.cells, last.value.logical)
  }

  ghost predicate NewVersion(last: Option<Completion>, version: nat) {
    && SeqNumbers.Valid(VERSION_MODULUS, version)
    && (last.Some? ==> SeqNumbers.IsNewer(VERSION_MODULUS, version, last.value.version))
  }

  /** The extent is the allocation as write_extent returns it. */
  ghost predicate Fenced(w: Extent, e: Extent) {
    w == e.(committed := w.committed, version := w.version) && w.committed <= e.capacity && SeqNumbers.Valid(VERSION_MODULUS, w.version)
  }

  /** Copy cells over whole blocks of both planes under a lease for them. */
  method CopyBlocks<P(0)>(arena: HostArena<P>, ghost e: Extent, w: Extent, begin: nat, count: nat, cells: seq<Cell<P>>)
    requires arena.Valid() && arena.ExtentOk(e) && Fenced(w, e)
    requires begin <= w.committed && begin + count <= e.capacity && |cells| == Span(count, arena.unit)
    modifies arena.buf
    ensures Span(begin, arena.unit) + |cells| <= Span(e.capacity, arena.unit)
    ensures arena.K(e) == Spliced(old(arena.K(e)), Span(begin, arena.unit), Ks(cells))
    ensures arena.V(e) == Spliced(old(arena.V(e)), Span(begin, arena.unit), Vs(cells))
    ensures forall d | arena.ExtentOk(d) && arena.Apart(d, e) :: arena.K(d) == old(arena.K(d)) && arena.V(d) == old(arena.V(d))
  {
    var written := arena.WriteKv(w, LeaseFor(w, begin, count), Ks(cells), Vs(cells));
  }

  /**
   * Write back from the old tail block through the new last block. That is enough: afterwards the host holds the whole
   * valid prefix, although the blocks before the old tail were not sent again.
   */
  method WriteBack<P(0)>(arena: HostArena<P>, e: Extent, last: Option<Completion>, row: Row<Cell<P>>)
    returns (r: Result<Completion>)
    requires arena.Valid() && arena.ExtentOk(e)
    requires row.logical <= |row.cells| && Span(Blocks(row.logical, arena.unit), arena.unit) <= |row.cells|
    requires Extends(arena.K(e), arena.V(e), last, e, arena.unit, row)
    requires last.Some? ==> SeqNumbers.Valid(VERSION_MODULUS, last.value.version)
    modifies arena.buf
    ensures r.Ok? <==> NewVersion(last, row.version) && Blocks(row.logical, arena.unit) <= e.capacity
    ensures r.Ok? ==> Saved(arena.K(e), arena.V(e), r.value, e, arena.unit, row)
    ensures forall d | arena.ExtentOk(d) && arena.Apart(d, e) :: arena.K(d) == old(arena.K(d)) && arena.V(d) == old(arena.V(d))
  {
    var unit := arena.unit;
    var committed, valid := if last.Some? then last.value.committed else 0, Blocks(row.logical, unit);
    var begin := Tail(committed);
    DirtyRange(last, row.logical, unit);
    WriteExtentFor(last, e, unit, row.logical, row.version);
    var w := WriteExtent(Dirty(row.version, row.logical, begin, valid - begin), last, e, unit);
    if w.Err? { return Err(w.reason); }
    var cells := row.cells[Span(begin, unit)..Span(valid, unit)];
    SpanAdds(begin, valid - begin, unit);
    SpanGrows(valid, e.capacity, unit);
    CopyBlocks(arena, e, w.value, begin, valid - begin, cells);
    PrefixSaved(old(arena.K(e)), old(arena.V(e)), row.cells, Span(begin, unit), Span(valid, unit), row.logical);
    r := Ok(Completion(e.epoch, true, true, e.hostGeneration, e.lease, row.version, valid, row.logical));
  }

  /** The dirty range starts inside the old prefix, so everything before it was saved by an earlier write-back. */
  lemma DirtyRange(last: Option<Completion>, logical: nat, unit: nat)
    requires unit > 0
    requires last.Some? ==> last.value.logical <= logical && last.value.committed == Blocks(last.value.logical, unit)
    ensures var begin := Tail(if last.Some? then last.value.committed else 0);
            && begin <= Blocks(logical, unit) && Span(begin, unit) <= Span(Blocks(logical, unit), unit)
            && Span(begin, unit) <= if last.Some? then last.value.logical else 0
    ensures last.Some? ==> last.value.committed <= Blocks(logical, unit)
    ensures logical <= Span(Blocks(logical, unit), unit)
  {
    BlocksCover(logical, unit);
    if last.Some? {
      BlocksCover(last.value.logical, unit);
      BlocksMonotone(last.value.logical, logical, unit);
      SpanGrows(Tail(last.value.committed), Blocks(logical, unit), unit);
    }
  }

  lemma WriteExtentFor(last: Option<Completion>, e: Extent, unit: nat, logical: nat, version: nat)
    requires unit > 0
    requires last.Some? ==> last.value.logical <= logical && Vouches(last.value, e, unit, last.value.logical, last.value.version)
    ensures var committed := if last.Some? then last.value.committed else 0;
            && Tail(committed) <= Blocks(logical, unit)
            && var w := WriteExtent(Dirty(version, logical, Tail(committed), Blocks(logical, unit) - Tail(committed)), last, e, unit);
               && (w.Ok? <==> NewVersion(last, version) && Blocks(logical, unit) <= e.capacity)
               && (w.Ok? ==> w.value == e.(committed := committed, version := if last.Some? then last.value.version else 0))
  {
    DirtyRange(last, logical, unit);
  }

  lemma PrefixSaved<P>(k: seq<P>, v: seq<P>, cells: seq<Cell<P>>, from: nat, to: nat, n: nat)
    requires Mirrors(k, v, cells, from) && n <= to && from <= to <= |cells| && to <= |k| && to <= |v|
    ensures Mirrors(Spliced(k, from, Ks(cells[from..to])), Spliced(v, from, Vs(cells[from..to])), cells, n)
  {
  }

  /**
   * Restore the row on any worker from the host. Whatever stale cells the new row held, the valid prefix is the one
   * that was saved; without a completion for the asked version nothing is restored.
   */
  method Restore<P(0)>(arena: HostArena<P>, e: Extent, last: Option<Completion>, q: Source, stale: seq<Cell<P>>)
    returns (r: Result<Option<Row<Cell<P>>>>)
    requires arena.Valid() && arena.ExtentOk(e) && Span(q.committed, arena.unit) <= |stale| && q.version >= 0
    ensures r.Err? <==> SourceReady(q, last, e).Err? || (SourceReady(q, last, e).value.Some? && q.committed > e.capacity)
    ensures r.Ok? ==> (r.value.Some? <==> SourceReady(q, last, e).value.Some?)
    ensures r.Ok? && r.value.Some? ==>
              var row := r.value.value;
              && row.logical == q.logical && row.version == q.version && row.blocks == q.committed && |row.cells| == |stale|
              && Mirrors(arena.K(e), arena.V(e), row.cells, Span(q.committed, arena.unit))
  {
    var source := SourceReady(q, last, e);
    if source.Err? { return Err(source.reason); }
    if source.value.None? { return Ok(None); }
    var read := arena.ReadKv(e, 0, q.committed);
    if read.Err? { return Err(read.reason); }
    var n := Span(q.committed, arena.unit);
    var cells := Zip(read.value.0, read.value.1) + stale[n..];
    r := Ok(Some(Row(cells, q.logical, q.committed, q.version)));
  }

  lemma {:induction false} FedKeeps<C>(m: Model<C>, prefix: seq<C>, tokens: seq<Token>)
    ensures Fed(m, prefix, tokens)[..|prefix|] == prefix
  {
    if tokens != [] { FedKeeps(m, prefix, tokens[..|tokens| - 1]); }
  }

  /** A verification round leaves the cells before the row's length alone. */
  lemma RoundKeeps<C>(m: Model<C>, size: nat, row: Row<C>, item: Item)
    requires size > 0 && Fits(row, item)
    ensures var now := Verified(m, size, row, item);
            |now.cells| == |row.cells| && now.cells[..row.logical] == row.cells[..row.logical] && now.logical >= row.logical
  {
    FedKeeps(m, row.cells[..row.logical], item.Tokens());
  }

  /** The row is right for the output so far, and plain decoding leads to the same whole output as at the start. */
  ghost predicate Kept<P>(m: Model<Cell<P>>, unit: nat, row: Row<Cell<P>>, room: nat, prompt: seq<Token>, output: seq<Token>,
                          length: nat, stops: seq<Token>)
  {
    && Holds(m, row, prompt, output) && |row.cells| == Span(room, unit)
    && SeqNumbers.Valid(VERSION_MODULUS, row.version) && row.version % 2 == 0
    && |output| <= length && Decode(m.T(), prompt, output, length, stops) == Decode(m.T(), prompt, [], length, stops)
  }

  /** What a round does to the row. */
  lemma RoundRow<P>(m: Model<Cell<P>>, unit: nat, row: Row<Cell<P>>, item: Item, room: nat, prompt: seq<Token>, output: seq<Token>,
                    length: nat, stops: seq<Token>)
    requires unit > 0 && Kept(m, unit, row, room, prompt, output, length, stops)
    requires Asks(row, item, output, length, stops) && !Finished(output, length, stops)
    ensures var now, more := Verified(m, unit, row, item), Reported(m, unit, row, item).tokens;
            && 0 < |more| && Kept(m, unit, now, room, prompt, output + more, length, stops)
            && SeqNumbers.IsNewer(VERSION_MODULUS, now.version, row.version)
  {
    RoundIsLossless(m, unit, row, item, prompt, output, length, stops);
    RoundKeeps(m, unit, row, item);
    RoundVersion(m, unit, row, item);
  }

  lemma RoundVersion<P>(m: Model<Cell<P>>, unit: nat, row: Row<Cell<P>>, item: Item)
    requires unit > 0 && Fits(row, item) && SeqNumbers.Valid(VERSION_MODULUS, row.version) && row.version % 2 == 0
    ensures var version := Verified(m, unit, row, item).version;
            && SeqNumbers.Valid(VERSION_MODULUS, version) && version % 2 == 0
            && SeqNumbers.IsNewer(VERSION_MODULUS, version, row.version)
  {
    VersionAdvances(row.version);
    EvenVersion(row.version);
  }

  lemma EvenVersion(v: nat)
    requires v < VERSION_MODULUS && v % 2 == 0
    ensures (v + 1 + 1) % VERSIONS == (v + 2) % (VERSION_MODULUS + 1) && (v + 1 + 1) % VERSIONS % 2 == 0
  {
    if v + 2 < VERSIONS {
      assert (v + 2) % VERSIONS == v + 2;
    } else {
      assert (v + 2) % VERSIONS == v + 2 - VERSIONS;
    }
  }

  /** What a round leaves of the host copy: it still describes a prefix of the row. */
  lemma RoundExtends<P>(m: Model<Cell<P>>, unit: nat, k: seq<P>, v: seq<P>, e: Extent, last: Completion, row: Row<Cell<P>>, item: Item)
    requires unit > 0 && Saved(k, v, last, e, unit, row) && Fits(row, item)
    ensures Extends(k, v, Some(last), e, unit, Verified(m, unit, row, item))
  {
    RoundKeeps(m, unit, row, item);
    MirrorsPrefix(k, v, row.cells, Verified(m, unit, row, item).cells, row.logical);
  }

  lemma MirrorsPrefix<P>(k: seq<P>, v: seq<P>, a: seq<Cell<P>>, b: seq<Cell<P>>, n: nat)
    requires Mirrors(k, v, a, n) && n <= |b| && a[..n] == b[..n]
    ensures Mirrors(k, v, b, n)
  {
    forall p | 0 <= p < n ensures Cell(k[p], v[p]) == b[p] {
      assert a[p] == a[..n][p] && b[p] == b[..n][p];
    }
  }

  /** The row's blocks fit both its own room and the host extent. */
  lemma RowFits<P>(m: Model<Cell<P>>, unit: nat, row: Row<Cell<P>>, room: nat, capacity: nat, prompt: seq<Token>, output: seq<Token>,
                   length: nat, stops: seq<Token>)
    requires unit > 0 && Kept(m, unit, row, room, prompt, output, length, stops) && |prompt| + length <= Span(capacity, unit)
    ensures Blocks(row.logical, unit) <= capacity && Span(Blocks(row.logical, unit), unit) <= |row.cells|
  {
    BlocksFit(row.logical, unit, room);
    BlocksFit(row.logical, unit, capacity);
    SpanGrows(Blocks(row.logical, unit), room, unit);
  }

  /** One round with any draft that fits the row, and the write-back after it. */
  method Round<P(0)>(m: Model<Cell<P>>, arena: HostArena<P>, e: Extent, last: Completion, row: Row<Cell<P>>,
                     ghost room: nat, ghost prompt: seq<Token>, output: seq<Token>, length: nat, stops: seq<Token>, draft: seq<Token>)
    returns (now: Row<Cell<P>>, saved: Completion, more: seq<Token>)
    requires arena.Valid() && arena.ExtentOk(e) && |prompt| + length <= Span(e.capacity, arena.unit)
    requires Kept(m, arena.unit, row, room, prompt, output, length, stops) && Saved(arena.K(e), arena.V(e), last, e, arena.unit, row)
    requires !Finished(output, length, stops) && row.logical + 1 + |draft| <= |row.cells|
    modifies arena.buf
    ensures 0 < |more| && Kept(m, arena.unit, now, room, prompt, output + more, length, stops)
    ensures Saved(arena.K(e), arena.V(e), saved, e, arena.unit, now)
    ensures forall d | arena.ExtentOk(d) && arena.Apart(d, e) :: arena.K(d) == old(arena.K(d)) && arena.V(d) == old(arena.V(d))
  {
    var item := Item(("", ""), 0, row.logical, row.version, output[|output| - 1], draft, length - |output|, stops, "linear");
    RoundRow(m, arena.unit, row, item, room, prompt, output, length, stops);
    RoundExtends(m, arena.unit, arena.K(e), arena.V(e), e, last, row, item);
    more := Reported(m, arena.unit, row, item).tokens;
    now := Verified(m, arena.unit, row, item);
    RowFits(m, arena.unit, now, room, e.capacity, prompt, output + more, length, stops);
    var written := WriteBack(arena, e, Some(last), now);
    saved := written.value;
  }

  /** Moving the request: the restored row is as good as the one it replaces. */
  method Move<P(0)>(m: Model<Cell<P>>, arena: HostArena<P>, e: Extent, last: Completion, row: Row<Cell<P>>, stale: seq<Cell<P>>,
                    ghost room: nat, ghost prompt: seq<Token>, ghost output: seq<Token>, ghost length: nat, ghost stops: seq<Token>)
    returns (now: Row<Cell<P>>)
    requires arena.Valid() && arena.ExtentOk(e) && |prompt| + length <= Span(e.capacity, arena.unit)
    requires Kept(m, arena.unit, row, room, prompt, output, length, stops) && Saved(arena.K(e), arena.V(e), last, e, arena.unit, row)
    requires |stale| == |row.cells|
    ensures Kept(m, arena.unit, now, room, prompt, output, length, stops) && Saved(arena.K(e), arena.V(e), last, e, arena.unit, now)
    ensures now.cells[..now.logical] == row.cells[..row.logical] && now.logical == row.logical
  {
    RowFits(m, arena.unit, row, room, e.capacity, prompt, output, length, stops);
    var q := Source(row.version, Blocks(row.logical, arena.unit), Blocks(row.logical, arena.unit), row.logical);
    var restored := Restore(arena, e, Some(last), q, stale);
    now := restored.value.value;
    BlocksCover(row.logical, arena.unit);
    SamePrefix(arena.K(e), arena.V(e), row.cells, now.cells, row.logical);
  }

  lemma SamePrefix<P>(k: seq<P>, v: seq<P>, a: seq<Cell<P>>, b: seq<Cell<P>>, n: nat)
    requires Mirrors(k, v, a, n) && n <= |b| && forall p | 0 <= p < n :: Cell(k[p], v[p]) == b[p]
    ensures a[..n] == b[..n]
  {
  }

  /** The row and output that the prompt pass leaves. */
  lemma FirstToken<P>(m: Model<Cell<P>>, unit: nat, blank: seq<Cell<P>>, room: nat, prompt: seq<Token>, length: nat, stops: seq<Token>)
    requires unit > 0 && length > 0 && |blank| == Span(room, unit) && |prompt| <= |blank|
    ensures Kept(m, unit, Row(m.Cells(prompt) + blank[|prompt|..], |prompt|, Blocks(|prompt|, unit), 0), room,
                 prompt, [m.T()(prompt)], length, stops)
  {
    var first := [m.T()(prompt)];
    PassesOne(m.T(), prompt, length, stops);
    assert prompt + [] == prompt && [] + first == first;
    DecodePasses(m.T(), prompt, [], length, stops, first);
    assert prompt + first[..0] == prompt;
  }

  /**
   * A request from its prompt to its end. Drafts are arbitrary; after any round the request may move to another worker
   * whose row holds arbitrary cells. The output is exactly what plain greedy decoding gives, in fewer rounds than
   * tokens, and no other extent of the arena is touched.
   */
  method Generate<P(0)>(m: Model<Cell<P>>, arena: HostArena<P>, e: Extent, prompt: seq<Token>, length: nat, stops: seq<Token>,
                        room: nat, blank: seq<Cell<P>>)
    returns (output: seq<Token>, rounds: nat)
    requires arena.Valid() && arena.ExtentOk(e) && length > 0 && |blank| == Span(room, arena.unit)
    requires |prompt| + length <= Span(e.capacity, arena.unit) && |prompt| + length <= |blank|
    modifies arena.buf
    ensures output == Decode(m.T(), prompt, [], length, stops) && rounds < |output| <= length
    ensures forall d | arena.ExtentOk(d) && arena.Apart(d, e) :: arena.K(d) == old(arena.K(d)) && arena.V(d) == old(arena.V(d))
  {
    var unit := arena.unit;
    FirstToken(m, unit, blank, room, prompt, length, stops);
    var row := Row(m.Cells(prompt) + blank[|prompt|..], |prompt|, Blocks(|prompt|, unit), 0);
    output, rounds := [m.T()(prompt)], 0;
    RowFits(m, unit, row, room, e.capacity, prompt, output, length, stops);
    var written := WriteBack(arena, e, None, row);
    var saved := written.value;
    while !Finished(output, length, stops)
      invariant Kept(m, unit, row, room, prompt, output, length, stops) && Saved(arena.K(e), arena.V(e), saved, e, unit, row)
      invariant rounds < |output|
      invariant forall d | arena.ExtentOk(d) && arena.Apart(d, e) :: arena.K(d) == old(arena.K(d)) && arena.V(d) == old(arena.V(d))
      decreases length - |output|
    {
      var draft: seq<Token> := *;
      if row.logical + 1 + |draft| > |row.cells| { draft := []; }
      var more;
      row, saved, more := Round(m, arena, e, saved, row, room, prompt, output, length, stops, draft);
      output, rounds := output + more, rounds + 1;
      var stale: seq<Cell<P>> := *;
      if |stale| == |row.cells| {
        row := Move(m, arena, e, saved, row, stale, room, prompt, output, length, stops);
      }
    }
  }
}
