/** Splitting a host-to-device copy into chunks under a byte budget. */
module CopyChunks {

  datatype Region = Region(id: int, blocks: nat)

  datatype Plan = Plan(toDevice: bool, regions: seq<Region>, dependencies: seq<int>, rounds: seq<int>) {
    /** What the plan's constructor checks. */
    ghost predicate Valid() {
      regions != [] && (rounds != [] ==> |rounds| == |regions|)
    }
  }

  /** Part of a plan with its size, and whether it is over the budget. */
  datatype Chunk = Chunk(plan: Plan, bytes: int, oversized: bool)

  type Piece = seq<Region>

  function Bytes(r: Region, blockBytes: nat): nat { r.blocks * blockBytes * 2 }

  function Total(piece: Piece, blockBytes: nat): nat {
    if piece == [] then 0 else Total(piece[..|piece| - 1], blockBytes) + Bytes(piece[|piece| - 1], blockBytes)
  }

  function Joined(pieces: seq<Piece>): Piece {
    if pieces == [] then [] else Joined(pieces[..|pieces| - 1]) + pieces[|pieces| - 1]
  }

  /** A piece is acceptable when it is nonempty and within the budget, or a single region. */
  ghost predicate Fits(piece: Piece, blockBytes: nat, budget: nat) {
    piece != [] && (Total(piece, blockBytes) <= budget || |piece| == 1)
  }

  /** The regions in order, cut into acceptable pieces. */
  ghost predicate Split(pieces: seq<Piece>, regions: seq<Region>, blockBytes: nat, budget: nat) {
    Joined(pieces) == regions && forall i | 0 <= i < |pieces| :: Fits(pieces[i], blockBytes, budget)
  }

  /** The next region joins the last piece when the budget allows it, and opens a piece when not. */
  function Place(pieces: seq<Piece>, r: Region, blockBytes: nat, budget: nat): (next: seq<Piece>)
    ensures next != []
  {
    var n := |pieces| - 1;
    if pieces != [] && pieces[n] != [] && Total(pieces[n], blockBytes) + Bytes(r, blockBytes) <= budget
    then pieces[..n] + [pieces[n] + [r]] else pieces + [[r]]
  }

  function Greedy(regions: seq<Region>, blockBytes: nat, budget: nat): seq<Piece> {
    if regions == [] then []
    else Place(Greedy(regions[..|regions| - 1], blockBytes, budget), regions[|regions| - 1], blockBytes, budget)
  }

  lemma TotalMore(piece: Piece, r: Region, blockBytes: nat)
    ensures Total(piece + [r], blockBytes) == Total(piece, blockBytes) + Bytes(r, blockBytes)
  {
    assert (piece + [r])[..|piece|] == piece;
  }

  lemma JoinedMore(pieces: seq<Piece>, piece: Piece)
    ensures Joined(pieces + [piece]) == Joined(pieces) + piece
  {
    assert (pieces + [piece])[..|pieces|] == pieces;
  }

  /** The greedy pieces are an acceptable split. */
  lemma {:induction false} GreedySplits(regions: seq<Region>, blockBytes: nat, budget: nat)
    ensures Split(Greedy(regions, blockBytes, budget), regions, blockBytes, budget)
  {
    if regions != [] {
      var n, r := |regions| - 1, regions[|regions| - 1];
      GreedySplits(regions[..n], blockBytes, budget);
      PlaceSplits(Greedy(regions[..n], blockBytes, budget), regions[..n], r, blockBytes, budget);
      assert regions == regions[..n] + [r];
    }
  }

  lemma PlaceSplits(pieces: seq<Piece>, regions: seq<Region>, r: Region, blockBytes: nat, budget: nat)
    requires Split(pieces, regions, blockBytes, budget)
    ensures Split(Place(pieces, r, blockBytes, budget), regions + [r], blockBytes, budget)
  {
    var n := |pieces| - 1;
    if pieces != [] && pieces[n] != [] && Total(pieces[n], blockBytes) + Bytes(r, blockBytes) <= budget {
      assert pieces == pieces[..n] + [pieces[n]];
      JoinedMore(pieces[..n], pieces[n]);
      JoinedMore(pieces[..n], pieces[n] + [r]);
      TotalMore(pieces[n], r, blockBytes);
      assert Joined(pieces[..n]) + (pieces[n] + [r]) == Joined(pieces[..n]) + pieces[n] + [r];
    } else {
      JoinedMore(pieces, [r]);
    }
  }

  // ---- The greedy split is the shortest ----

  lemma {:induction false} TotalOfBoth(a: Piece, b: Piece, blockBytes: nat)
    ensures Total(a + b, blockBytes) == Total(a, blockBytes) + Total(b, blockBytes)
  {
    if b == [] {
      assert a + b == a;
    } else {
      var n := |b| - 1;
      TotalOfBoth(a, b[..n], blockBytes);
      assert a + b == a + b[..n] + [b[n]];
      TotalMore(a + b[..n], b[n], blockBytes);
    }
  }

  /** Of two endings of the same regions the shorter is no larger. */
  lemma SuffixTotal(regions: seq<Region>, a: nat, b: nat, blockBytes: nat)
    requires a <= b <= |regions|
    ensures Total(regions[|regions| - a..], blockBytes) <= Total(regions[|regions| - b..], blockBytes)
  {
    var long, short := regions[|regions| - b..], regions[|regions| - a..];
    assert long == long[..b - a] + short;
    TotalOfBoth(long[..b - a], short, blockBytes);
  }

  function LastSize(pieces: seq<Piece>): nat {
    if pieces == [] then 0 else |pieces[|pieces| - 1]|
  }

  /** The last piece of a split is an ending of the regions. */
  lemma LastPiece(pieces: seq<Piece>, regions: seq<Region>)
    requires pieces != [] && Joined(pieces) == regions
    ensures LastSize(pieces) <= |regions| && pieces[|pieces| - 1] == regions[|regions| - LastSize(pieces)..]
  {
    var n := |pieces| - 1;
    assert regions == Joined(pieces[..n]) + pieces[n];
  }

  /** The split of the regions without the last one. */
  function Shorter(pieces: seq<Piece>): seq<Piece>
    requires pieces != []
  {
    var n := |pieces| - 1;
    if |pieces[n]| <= 1 then pieces[..n] else pieces[..n] + [pieces[n][..|pieces[n]| - 1]]
  }

  lemma ShorterSplits(pieces: seq<Piece>, regions: seq<Region>, blockBytes: nat, budget: nat)
    requires pieces != [] && Split(pieces, regions, blockBytes, budget)
    ensures regions != [] && Split(Shorter(pieces), regions[..|regions| - 1], blockBytes, budget)
  {
    var n := |pieces| - 1;
    var last := pieces[n];
    assert Fits(last, blockBytes, budget) && regions == Joined(pieces[..n]) + last;
    forall i | 0 <= i < n ensures Fits(pieces[..n][i], blockBytes, budget) { assert Fits(pieces[i], blockBytes, budget); }
    if |last| > 1 {
      var short := last[..|last| - 1];
      JoinedMore(pieces[..n], short);
      assert regions[..|regions| - 1] == Joined(pieces[..n]) + short;
      forall i | 0 <= i < n + 1 ensures Fits((pieces[..n] + [short])[i], blockBytes, budget) {
        if i < n { assert Fits(pieces[i], blockBytes, budget); }
      }
    } else {
      assert regions[..|regions| - 1] == Joined(pieces[..n]);
    }
  }

  /** The greedy split has no more pieces than any other, and when it has as many its last one is no longer. */
  lemma {:induction false} GreedyStaysAhead(regions: seq<Region>, pieces: seq<Piece>, blockBytes: nat, budget: nat)
    requires Split(pieces, regions, blockBytes, budget)
    ensures var g := Greedy(regions, blockBytes, budget);
            |g| <= |pieces| && (|g| == |pieces| ==> LastSize(g) <= LastSize(pieces))
    decreases |regions|
  {
    if regions == [] {
    } else {
      var n := |regions| - 1;
      NoPieces(pieces, regions);
      ShorterSplits(pieces, regions, blockBytes, budget);
      GreedyStaysAhead(regions[..n], Shorter(pieces), blockBytes, budget);
      GreedySplits(regions[..n], blockBytes, budget);
      if |pieces[|pieces| - 1]| > 1 && |Greedy(regions[..n], blockBytes, budget)| == |pieces| {
        LastFits(regions, pieces, blockBytes, budget);
      }
    }
  }

  lemma NoPieces(pieces: seq<Piece>, regions: seq<Region>)
    requires Joined(pieces) == regions
    ensures regions != [] ==> pieces != []
  {
  }

  /** Where another split still has room for the last region, the greedy one has it too. */
  lemma LastFits(regions: seq<Region>, pieces: seq<Piece>, blockBytes: nat, budget: nat)
    requires regions != [] && pieces != [] && Split(pieces, regions, blockBytes, budget) && |pieces[|pieces| - 1]| > 1
    requires var g := Greedy(regions[..|regions| - 1], blockBytes, budget);
             && g != [] && LastSize(g) <= |pieces[|pieces| - 1]| - 1 && Split(g, regions[..|regions| - 1], blockBytes, budget)
    ensures var g := Greedy(regions[..|regions| - 1], blockBytes, budget);
            g[|g| - 1] != [] && Total(g[|g| - 1], blockBytes) + Bytes(regions[|regions| - 1], blockBytes) <= budget
  {
    var g, last := Greedy(regions[..|regions| - 1], blockBytes, budget), pieces[|pieces| - 1];
    assert Fits(last, blockBytes, budget) && Fits(g[|g| - 1], blockBytes, budget);
    LastPiece(pieces, regions);
    LastPiece(g, regions[..|regions| - 1]);
    EndingFits(regions, LastSize(g), |last|, blockBytes, budget);
  }

  lemma EndingFits(regions: seq<Region>, a: nat, b: nat, blockBytes: nat, budget: nat)
    requires 0 < a < b <= |regions| && Total(regions[|regions| - b..], blockBytes) <= budget
    ensures var n := |regions| - 1; Total(regions[..n][n - a..], blockBytes) + Bytes(regions[n], blockBytes) <= budget
  {
    var n := |regions| - 1;
    assert regions[..n][n - a..] + [regions[n]] == regions[n - a..];
    TotalMore(regions[..n][n - a..], regions[n], blockBytes);
    SuffixTotal(regions, a + 1, b, blockBytes);
  }

  /** The greedy split uses the fewest pieces. */
  lemma GreedyIsShortest(regions: seq<Region>, pieces: seq<Piece>, blockBytes: nat, budget: nat)
    requires Split(pieces, regions, blockBytes, budget)
    ensures |Greedy(regions, blockBytes, budget)| <= |pieces|
  {
    GreedyStaysAhead(regions, pieces, blockBytes, budget);
  }

  // ---- The chunks ----

  /** The rounds of the regions that start at a position, when the plan has rounds. */
  function RoundsAt(plan: Plan, from: nat, n: nat): seq<int>
    requires plan.rounds == [] || from + n <= |plan.rounds|
  {
    if plan.rounds == [] then [] else plan.rounds[from..from + n]
  }

  /** How many regions the first k pieces hold. */
  function Before(pieces: seq<Piece>, k: nat): nat
    requires k <= |pieces|
  {
    if k == 0 then 0 else Before(pieces, k - 1) + |pieces[k - 1]|
  }

  /** Chunk k carries piece k with its rounds; only the first carries the dependencies. */
  ghost predicate IsChunk(plan: Plan, pieces: seq<Piece>, k: nat, c: Chunk, blockBytes: nat, budget: nat)
    requires k < |pieces|
  {
    && (plan.rounds == [] || Before(pieces, k) + |pieces[k]| <= |plan.rounds|)
    && c.plan == Plan(plan.toDevice, pieces[k], if k == 0 then plan.dependencies else [], RoundsAt(plan, Before(pieces, k), |pieces[k]|))
    && c.bytes == Total(pieces[k], blockBytes) && c.oversized == (c.bytes > budget)
  }

  ghost predicate AreChunks(plan: Plan, pieces: seq<Piece>, chunks: seq<Chunk>, blockBytes: nat, budget: nat) {
    |chunks| == |pieces| && forall k | 0 <= k < |pieces| :: IsChunk(plan, pieces, k, chunks[k], blockBytes, budget)
  }

  lemma {:induction false} BeforeIsJoined(pieces: seq<Piece>, k: nat)
    requires k <= |pieces|
    ensures Before(pieces, k) == |Joined(pieces[..k])|
  {
    if k > 0 {
      BeforeIsJoined(pieces, k - 1);
      assert pieces[..k] == pieces[..k - 1] + [pieces[k - 1]];
      JoinedMore(pieces[..k - 1], pieces[k - 1]);
    }
  }

  lemma {:induction false} BeforeStays(a: seq<Piece>, b: seq<Piece>, k: nat)
    requires k <= |a| && k <= |b| && a[..k] == b[..k]
    ensures Before(a, k) == Before(b, k)
  {
    if k > 0 {
      assert a[..k][k - 1] == b[..k][k - 1] && a[..k - 1] == a[..k][..k - 1] && b[..k - 1] == b[..k][..k - 1];
      BeforeStays(a, b, k - 1);
    }
  }

  /** One more flushed piece. */
  lemma MoreChunks(plan: Plan, pieces: seq<Piece>, chunks: seq<Chunk>, piece: Piece, c: Chunk, blockBytes: nat, budget: nat)
    requires AreChunks(plan, pieces, chunks, blockBytes, budget)
    requires plan.rounds == [] || |Joined(pieces)| + |piece| <= |plan.rounds|
    requires c == Chunk(Plan(plan.toDevice, piece, if pieces == [] then plan.dependencies else [], RoundsAt(plan, |Joined(pieces)|, |piece|)),
                        Total(piece, blockBytes), Total(piece, blockBytes) > budget)
    ensures AreChunks(plan, pieces + [piece], chunks + [c], blockBytes, budget)
  {
    var all := pieces + [piece];
    BeforeIsJoined(all, |pieces|);
    assert all[..|pieces|] == pieces;
    forall k | 0 <= k < |all| ensures IsChunk(plan, all, k, (chunks + [c])[k], blockBytes, budget) {
      if k < |pieces| {
        assert IsChunk(plan, pieces, k, chunks[k], blockBytes, budget);
        assert all[..k] == pieces[..k];
        BeforeStays(all, pieces, k);
      }
    }
  }

  /** The state of the planning loop after the first i regions: flushed chunks and the open piece. */
  ghost predicate Planning(plan: Plan, i: nat, chunks: seq<Chunk>, pieces: seq<Piece>, open: Piece, total: nat, blockBytes: nat, budget: nat)
    requires i <= |plan.regions|
  {
    && AreChunks(plan, pieces, chunks, blockBytes, budget)
    && Greedy(plan.regions[..i], blockBytes, budget) == (if open == [] then pieces else pieces + [open])
    && Joined(pieces) + open == plan.regions[..i] && total == Total(open, blockBytes)
    && (pieces != [] && open == [] ==> pieces[|pieces| - 1] != [] && Total(pieces[|pieces| - 1], blockBytes) > budget)
    && (open != [] ==> total <= budget)
  }

  lemma GreedyStep(regions: seq<Region>, i: nat, blockBytes: nat, budget: nat)
    requires i < |regions|
    ensures Greedy(regions[..i + 1], blockBytes, budget) == Place(Greedy(regions[..i], blockBytes, budget), regions[i], blockBytes, budget)
    ensures regions[..i + 1] == regions[..i] + [regions[i]]
  {
    assert regions[..i + 1][..i] == regions[..i];
  }

  lemma PlaceOnOpen(pieces: seq<Piece>, open: Piece, r: Region, blockBytes: nat, budget: nat)
    requires open != []
    ensures Place(pieces + [open], r, blockBytes, budget) ==
            if Total(open, blockBytes) + Bytes(r, blockBytes) <= budget then pieces + [open + [r]] else pieces + [open] + [[r]]
  {
    assert (pieces + [open])[..|pieces|] == pieces;
  }

  lemma PlaceOnClosed(pieces: seq<Piece>, r: Region, blockBytes: nat, budget: nat)
    requires pieces != [] ==> pieces[|pieces| - 1] != [] && Total(pieces[|pieces| - 1], blockBytes) > budget
    ensures Place(pieces, r, blockBytes, budget) == pieces + [[r]]
  {
  }

  lemma PlanStep(plan: Plan, i: nat, chunks: seq<Chunk>, pieces: seq<Piece>, open: Piece, total: nat, blockBytes: nat, budget: nat)
    requires i < |plan.regions| && Planning(plan, i, chunks, pieces, open, total, blockBytes, budget)
    ensures var r := plan.regions[i];
            Greedy(plan.regions[..i + 1], blockBytes, budget) ==
              (if open != [] && total + Bytes(r, blockBytes) <= budget then pieces + [open + [r]]
               else if open != [] then pieces + [open] + [[r]] else pieces + [[r]])
  {
    GreedyStep(plan.regions, i, blockBytes, budget);
    if open != [] {
      PlaceOnOpen(pieces, open, plan.regions[i], blockBytes, budget);
    } else {
      PlaceOnClosed(pieces, plan.regions[i], blockBytes, budget);
    }
  }

  /** flush. */
  method Flush(plan: Plan, chunks: seq<Chunk>, ghost pieces: seq<Piece>, open: Piece, rounds: seq<int>, total: nat, blockBytes: nat, budget: nat)
    returns (more: seq<Chunk>)
    requires open != [] && AreChunks(plan, pieces, chunks, blockBytes, budget) && total == Total(open, blockBytes)
    requires plan.rounds == [] || |Joined(pieces)| + |open| <= |plan.rounds|
    requires rounds == RoundsAt(plan, |Joined(pieces)|, |open|)
    ensures AreChunks(plan, pieces + [open], more, blockBytes, budget)
  {
    var c := Chunk(Plan(plan.toDevice, open, if chunks == [] then plan.dependencies else [], rounds), total, total > budget);
    MoreChunks(plan, pieces, chunks, open, c, blockBytes, budget);
    more := chunks + [c];
  }

  /**
   * _plan_chunks. Without a budget, or away from the device, the plan is one chunk. Otherwise the chunks are the greedy
   * split: regions and rounds in order, dependencies on the first chunk only, and no chunk over the budget but a single
   * oversized region.
   */
  method PlanChunks(plan: Plan, blockBytes: int, budget: int) returns (chunks: seq<Chunk>)
    requires plan.Valid()
    ensures !plan.toDevice || budget <= 0 || blockBytes <= 0 ==> chunks == [Chunk(plan, 2 * blockBytes * AllBlocks(plan.regions), false)]
    ensures plan.toDevice && budget > 0 && blockBytes > 0 ==>
              AreChunks(plan, Greedy(plan.regions, blockBytes, budget), chunks, blockBytes, budget)
  {
    if !plan.toDevice || budget <= 0 || blockBytes <= 0 {
      var bytes := WholeBytes(plan.regions, blockBytes);
      return [Chunk(plan, bytes, false)];
    }
    chunks := [];
    ghost var pieces: seq<Piece> := [];
    var open: Piece := [];
    var total := 0;
    for i := 0 to |plan.regions|
      invariant Planning(plan, i, chunks, pieces, open, total, blockBytes, budget)
    {
      chunks, pieces, open, total := PlanOne(plan, i, chunks, pieces, open, total, blockBytes, budget);
    }
    assert plan.regions[..|plan.regions|] == plan.regions;
    if open != [] {
      chunks := Flush(plan, chunks, pieces, open, RoundsAt(plan, |plan.regions| - |open|, |open|), total, blockBytes, budget);
    }
  }

  /** The sum over the regions of a plan that stays whole; with a negative block size it is negative. */
  method WholeBytes(regions: seq<Region>, blockBytes: int) returns (bytes: int)
    ensures bytes == 2 * blockBytes * AllBlocks(regions)
  {
    bytes := 0;
    for i := 0 to |regions|
      invariant bytes == 2 * blockBytes * AllBlocks(regions[..i])
    {
      assert regions[..i + 1][..i] == regions[..i];
      MoreBytes(blockBytes, AllBlocks(regions[..i]), regions[i].blocks);
      bytes := bytes + regions[i].blocks * blockBytes * 2;
    }
    assert regions[..|regions|] == regions;
  }

  function AllBlocks(regions: seq<Region>): nat {
    if regions == [] then 0 else AllBlocks(regions[..|regions| - 1]) + regions[|regions| - 1].blocks
  }

  lemma MoreBytes(blockBytes: int, n: int, more: int)
    ensures 2 * blockBytes * (n + more) == 2 * blockBytes * n + more * blockBytes * 2
  {
  }

  /** One round of the loop. */
  method PlanOne(plan: Plan, i: nat, chunks: seq<Chunk>, ghost pieces: seq<Piece>, open: Piece, total: nat, blockBytes: nat, budget: nat)
    returns (more: seq<Chunk>, ghost now: seq<Piece>, next: Piece, sum: nat)
    requires plan.Valid() && i < |plan.regions| && Planning(plan, i, chunks, pieces, open, total, blockBytes, budget)
    ensures Planning(plan, i + 1, more, now, next, sum, blockBytes, budget)
  {
    more, now, next, sum := MakeRoom(plan, i, chunks, pieces, open, total, blockBytes, budget);
    more, now, next, sum := AddRegion(plan, i, more, now, next, sum, blockBytes, budget);
  }

  /** The open piece has room for region i, or is empty. */
  ghost predicate Roomy(plan: Plan, i: nat, chunks: seq<Chunk>, pieces: seq<Piece>, open: Piece, total: nat, blockBytes: nat, budget: nat)
    requires i < |plan.regions|
  {
    && AreChunks(plan, pieces, chunks, blockBytes, budget)
    && Greedy(plan.regions[..i + 1], blockBytes, budget) == pieces + [open + [plan.regions[i]]]
    && Joined(pieces) + open == plan.regions[..i] && total == Total(open, blockBytes)
    && (open != [] ==> total + Bytes(plan.regions[i], blockBytes) <= budget)
  }

  /** Flush if the region does not fit. */
  method MakeRoom(plan: Plan, i: nat, chunks: seq<Chunk>, ghost pieces: seq<Piece>, open: Piece, total: nat, blockBytes: nat, budget: nat)
    returns (more: seq<Chunk>, ghost now: seq<Piece>, next: Piece, sum: nat)
    requires plan.Valid() && i < |plan.regions| && Planning(plan, i, chunks, pieces, open, total, blockBytes, budget)
    ensures Roomy(plan, i, more, now, next, sum, blockBytes, budget)
  {
    more, now, next, sum := chunks, pieces, open, total;
    if open != [] && total + Bytes(plan.regions[i], blockBytes) > budget {
      OpenRounds(plan, i, pieces, open);
      more := Flush(plan, chunks, pieces, open, RoundsAt(plan, i - |open|, |open|), total, blockBytes, budget);
      now, next, sum := pieces + [open], [], 0;
      FlushedRoom(plan, i, chunks, more, pieces, open, total, blockBytes, budget);
    } else {
      OpenRoom(plan, i, chunks, pieces, open, total, blockBytes, budget);
    }
  }

  lemma OpenRoom(plan: Plan, i: nat, chunks: seq<Chunk>, pieces: seq<Piece>, open: Piece, total: nat, blockBytes: nat, budget: nat)
    requires i < |plan.regions| && Planning(plan, i, chunks, pieces, open, total, blockBytes, budget)
    requires open == [] || total + Bytes(plan.regions[i], blockBytes) <= budget
    ensures Roomy(plan, i, chunks, pieces, open, total, blockBytes, budget)
  {
    PlanStep(plan, i, chunks, pieces, open, total, blockBytes, budget);
    assert [] + [plan.regions[i]] == [plan.regions[i]];
  }

  lemma FlushedRoom(plan: Plan, i: nat, chunks: seq<Chunk>, more: seq<Chunk>, pieces: seq<Piece>, open: Piece, total: nat, blockBytes: nat, budget: nat)
    requires i < |plan.regions| && Planning(plan, i, chunks, pieces, open, total, blockBytes, budget)
    requires open != [] && total + Bytes(plan.regions[i], blockBytes) > budget && AreChunks(plan, pieces + [open], more, blockBytes, budget)
    ensures Roomy(plan, i, more, pieces + [open], [], 0, blockBytes, budget)
  {
    PlanStep(plan, i, chunks, pieces, open, total, blockBytes, budget);
    JoinedMore(pieces, open);
    assert [] + [plan.regions[i]] == [plan.regions[i]];
    assert Joined(pieces + [open]) + [] == Joined(pieces + [open]);
  }

  lemma OpenRounds(plan: Plan, i: nat, pieces: seq<Piece>, open: Piece)
    requires plan.Valid() && i <= |plan.regions| && Joined(pieces) + open == plan.regions[..i]
    ensures |Joined(pieces)| == i - |open| && (plan.rounds == [] || |Joined(pieces)| + |open| <= |plan.rounds|)
  {
  }

  /** Add the region, and flush again if it is oversized by itself. */
  method AddRegion(plan: Plan, i: nat, chunks: seq<Chunk>, ghost pieces: seq<Piece>, open: Piece, total: nat, blockBytes: nat, budget: nat)
    returns (more: seq<Chunk>, ghost now: seq<Piece>, next: Piece, sum: nat)
    requires plan.Valid() && i < |plan.regions| && Roomy(plan, i, chunks, pieces, open, total, blockBytes, budget)
    ensures Planning(plan, i + 1, more, now, next, sum, blockBytes, budget)
  {
    var r := plan.regions[i];
    TotalMore(open, r, blockBytes);
    AddedRegion(plan, i, pieces, open);
    more, now, next, sum := chunks, pieces, open + [r], total + Bytes(r, blockBytes);
    if Bytes(r, blockBytes) > budget {
      OpenRounds(plan, i + 1, pieces, next);
      more := Flush(plan, chunks, pieces, next, RoundsAt(plan, i + 1 - |next|, |next|), sum, blockBytes, budget);
      JoinedMore(pieces, next);
      now, next, sum := pieces + [next], [], 0;
    }
  }

  lemma AddedRegion(plan: Plan, i: nat, pieces: seq<Piece>, open: Piece)
    requires i < |plan.regions| && Joined(pieces) + open == plan.regions[..i]
    ensures Joined(pieces) + (open + [plan.regions[i]]) == plan.regions[..i + 1]
  {
    assert plan.regions[..i + 1] == plan.regions[..i] + [plan.regions[i]];
  }
}
