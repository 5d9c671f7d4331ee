/** Verification of a batch of draft proposals against the cells that a bank holds for each row. */
module CompactTarget {
  import opened Wrappers
  import opened BlockMath
  import opened Lossless

  /** A row of the bank: the cells it has room for, how many are valid, the blocks in use and the version. */
  datatype Row<C> = Row(cells: seq<C>, logical: nat, blocks: nat, version: nat)

  datatype Item = Item(key: (string, string), row: int, logical: int, version: int, anchor: Token, draft: seq<Token>,
                       remaining: int, stops: seq<Token>, kind: string)
  {
    function Tokens(): seq<Token> { [anchor] + draft }
  }

  /** One line of the flat forward batch: the token of a row at a position, given as the length through it. */
  datatype Entry = Entry(row: int, length: int, token: Token)

  datatype Outcome = Outcome(key: (string, string), row: int, tokens: seq<Token>, drafts: nat, logical: nat, version: nat,
                             blocks: nat, finished: bool)

  const VERSIONS: nat := 0x1_0000_0000_0000_0000

  // ---- Feeding tokens after a prefix of cells ----

  function Fed<C>(m: Model<C>, prefix: seq<C>, tokens: seq<Token>): (r: seq<C>)
    ensures |r| == |prefix| + |tokens|
  {
    if tokens == [] then prefix
    else
      var before := Fed(m, prefix, tokens[..|tokens| - 1]);
      before + [m.cell(before, tokens[|tokens| - 1])]
  }

  function Said<C>(m: Model<C>, prefix: seq<C>, tokens: seq<Token>): (r: seq<Token>)
    ensures |r| == |tokens|
  {
    if tokens == [] then []
    else Said(m, prefix, tokens[..|tokens| - 1]) + [m.out(Fed(m, prefix, tokens))]
  }

  lemma {:induction false} FedCells<C>(m: Model<C>, h: seq<Token>, tokens: seq<Token>)
    ensures Fed(m, m.Cells(h), tokens) == m.Cells(h + tokens)
  {
    if tokens == [] {
      assert h + tokens == h;
    } else {
      var n := |tokens| - 1;
      FedCells(m, h, tokens[..n]);
      assert (h + tokens)[..|h| + n] == h + tokens[..n];
    }
  }

  lemma {:induction false} SaidAt<C>(m: Model<C>, h: seq<Token>, tokens: seq<Token>, i: nat)
    requires i < |tokens|
    ensures Said(m, m.Cells(h), tokens)[i] == m.T()(h + tokens[..i + 1])
  {
    var n := |tokens| - 1;
    if i < n {
      SaidAt(m, h, tokens[..n], i);
      assert tokens[..n][..i + 1] == tokens[..i + 1];
    } else {
      FedCells(m, h, tokens);
      assert tokens[..i + 1] == tokens;
    }
  }

  /** Feeding the anchor and the draft makes the model say what it would put after each of them. */
  lemma SaidIsPosterior<C>(m: Model<C>, h: seq<Token>, anchor: Token, draft: seq<Token>)
    ensures Said(m, m.Cells(h), [anchor] + draft) == Posterior(m.T(), h + [anchor], draft)
  {
    var said, posterior := Said(m, m.Cells(h), [anchor] + draft), Posterior(m.T(), h + [anchor], draft);
    forall i | 0 <= i < |said| ensures said[i] == posterior[i] {
      SaidIsPosteriorAt(m, h, anchor, draft, i);
    }
  }

  lemma SaidIsPosteriorAt<C>(m: Model<C>, h: seq<Token>, anchor: Token, draft: seq<Token>, i: nat)
    requires i <= |draft|
    ensures Said(m, m.Cells(h), [anchor] + draft)[i] == Posterior(m.T(), h + [anchor], draft)[i]
  {
    AnchorFirst(h, anchor, draft, i);
    SaidAt(m, h, [anchor] + draft, i);
    PosteriorAt(m.T(), h + [anchor], draft, i);
  }

  lemma AnchorFirst(h: seq<Token>, anchor: Token, draft: seq<Token>, i: nat)
    requires i <= |draft|
    ensures h + ([anchor] + draft)[..i + 1] == h + [anchor] + draft[..i]
  {
  }

  // ---- What verification does to one row ----

  ghost predicate Fits<C>(row: Row<C>, item: Item) {
    item.logical == row.logical && item.remaining > 0 && row.logical + 1 + |item.draft| <= |row.cells|
  }

  /** The row with the fed cells stored after its valid ones. */
  function Stored<C>(m: Model<C>, cells: seq<C>, n: nat, tokens: seq<Token>): (r: seq<C>)
    requires n + |tokens| <= |cells|
    ensures |r| == |cells|
  {
    Fed(m, cells[..n], tokens) + cells[n + |tokens|..]
  }

  function Accept<C>(m: Model<C>, row: Row<C>, item: Item): Acceptance
    requires Fits(row, item)
  {
    Accepted(item.draft, Said(m, row.cells[..row.logical], item.Tokens()), Some(item.remaining), item.stops)
  }

  /** The row as the forward pass leaves it: the item's tokens are fed after its own valid cells. */
  function ForwardRow<C>(m: Model<C>, row: Row<C>, item: Item): Row<C>
    requires Fits(row, item)
  {
    row.(cells := Stored(m, row.cells, row.logical, item.Tokens()))
  }

  /** The row with so many of the fed cells kept: the crop advances the version, and the one after it is published. */
  function CropTo<C>(size: nat, row: Row<C>, count: nat): Row<C>
    requires size > 0
  {
    Row(row.cells, row.logical + count, Blocks(row.logical + count, size), (row.version + 1 + 1) % VERSIONS)
  }

  function Report<C>(item: Item, a: Acceptance, now: Row<C>): Outcome {
    Outcome(item.key, item.row, a.tokens, a.drafts, now.logical, now.version, now.blocks,
            |a.tokens| == item.remaining || (a.tokens != [] && a.tokens[|a.tokens| - 1] in item.stops))
  }

  function Verified<C>(m: Model<C>, size: nat, row: Row<C>, item: Item): Row<C>
    requires Fits(row, item) && size > 0
  {
    CropTo(size, ForwardRow(m, row, item), |Accept(m, row, item).tokens|)
  }

  function Reported<C>(m: Model<C>, size: nat, row: Row<C>, item: Item): Outcome
    requires Fits(row, item) && size > 0
  {
    Report(item, Accept(m, row, item), Verified(m, size, row, item))
  }

  /** What a verification has to say of a row: the tokens and the count that the acceptance rule asks for. */
  ghost predicate RightTokens<C>(m: Model<C>, row: Row<C>, item: Item, o: Outcome)
    requires Fits(row, item)
  {
    && o.key == item.key && o.row == item.row && o.tokens != []
    && Agrees(item.draft, Said(m, row.cells[..row.logical], item.Tokens()), Some(item.remaining), item.stops, Acceptance(o.tokens, o.drafts))
    && (o.finished <==> |o.tokens| == item.remaining || o.tokens[|o.tokens| - 1] in item.stops)
  }

  /** What it has to make of the row: so many more valid cells, the blocks that cover them and no block more, two version steps. */
  ghost predicate RightRow<C>(size: nat, row: Row<C>, count: nat, now: Row<C>) {
    && |now.cells| == |row.cells| && now.logical == row.logical + count
    && now.logical <= Span(now.blocks, size) < now.logical + size
    && now.version == (row.version + 2) % VERSIONS
  }

  /** The report is about the row as it is left. */
  ghost predicate Right<C>(m: Model<C>, size: nat, row: Row<C>, item: Item, now: Row<C>, o: Outcome)
    requires Fits(row, item)
  {
    && RightTokens(m, row, item, o) && RightRow(size, row, |o.tokens|, now)
    && (o.logical, o.version, o.blocks) == (now.logical, now.version, now.blocks)
  }

  lemma VerifiedRight<C>(m: Model<C>, size: nat, row: Row<C>, item: Item)
    requires Fits(row, item) && size > 0
    ensures Right(m, size, row, item, Verified(m, size, row, item), Reported(m, size, row, item))
  {
    AcceptRight(m, row, item);
    CropRight(size, ForwardRow(m, row, item), |Accept(m, row, item).tokens|);
  }

  lemma CropRight<C>(size: nat, row: Row<C>, count: nat)
    requires size > 0
    ensures RightRow(size, row, count, CropTo(size, row, count))
  {
    BlocksCover(row.logical + count, size);
  }

  lemma AcceptRight<C>(m: Model<C>, row: Row<C>, item: Item)
    requires Fits(row, item)
    ensures var posterior, a := Said(m, row.cells[..row.logical], item.Tokens()), Accept(m, row, item);
            a.tokens != [] && Agrees(item.draft, posterior, Some(item.remaining), item.stops, a)
  {
    var posterior := Said(m, row.cells[..row.logical], item.Tokens());
    AcceptedAgrees(item.draft, posterior, Some(item.remaining), item.stops);
    AcceptedWithin(item.draft, posterior, item.remaining, item.stops);
  }

  /** The valid cells of the row are those of the prompt and the output without its last token, the anchor. */
  ghost predicate Holds<C>(m: Model<C>, row: Row<C>, prompt: seq<Token>, output: seq<Token>) {
    && output != [] && row.logical == |prompt| + |output| - 1 && row.logical <= |row.cells|
    && row.cells[..row.logical] == m.Cells(prompt + output[..|output| - 1])
  }

  /** The item asks to go on with the request from where its output is. */
  ghost predicate Asks<C>(row: Row<C>, item: Item, output: seq<Token>, length: nat, stops: seq<Token>) {
    && Fits(row, item) && output != [] && item.anchor == output[|output| - 1]
    && item.remaining == length - |output| && item.stops == stops
  }

  /**
   * One verification round: it adds at least one token, the output stays on the path of plain decoding, the row again
   * holds exactly the cells of all but the last output token, and the finish flag is right.
   */
  lemma RoundIsLossless<C>(m: Model<C>, size: nat, row: Row<C>, item: Item, prompt: seq<Token>, output: seq<Token>,
                           length: nat, stops: seq<Token>)
    requires size > 0 && Holds(m, row, prompt, output) && Asks(row, item, output, length, stops)
    requires !Finished(output, length, stops)
    ensures var tokens := Reported(m, size, row, item).tokens;
            && 0 < |tokens| <= length - |output|
            && Holds(m, Verified(m, size, row, item), prompt, output + tokens)
            && Decode(m.T(), prompt, output + tokens, length, stops) == Decode(m.T(), prompt, output, length, stops)
            && (Reported(m, size, row, item).finished <==> Finished(output + tokens, length, stops))
  {
    var h := prompt + output[..|output| - 1];
    assert h + [item.anchor] == prompt + output;
    SaidIsPosterior(m, h, item.anchor, item.draft);
    AcceptedFollows(m.T(), prompt, output, length, stops, item.draft);
    AcceptedWithin(item.draft, Said(m, m.Cells(h), item.Tokens()), item.remaining, item.stops);
    KeptCells(m, row, Verified(m, size, row, item), item, prompt, output, Accept(m, row, item).tokens);
  }

  /** After the crop, exactly the cells of the accepted tokens but the last are valid. */
  lemma KeptCells<C>(m: Model<C>, row: Row<C>, now: Row<C>, item: Item, prompt: seq<Token>, output: seq<Token>, tokens: seq<Token>)
    requires Holds(m, row, prompt, output) && Fits(row, item) && item.anchor == output[|output| - 1]
    requires 0 < |tokens| <= |item.draft| + 1 && tokens[..|tokens| - 1] == item.draft[..|tokens| - 1]
    requires now.cells == Stored(m, row.cells, row.logical, item.Tokens()) && now.logical == row.logical + |tokens|
    ensures Holds(m, now, prompt, output + tokens)
  {
    var h := prompt + output[..|output| - 1];
    StoredPrefix(m, row.cells, row.logical, h, item.Tokens(), |tokens|);
    CroppedTokens(prompt, output, item.anchor, item.draft, tokens);
  }

  lemma StoredPrefix<C>(m: Model<C>, cells: seq<C>, n: nat, h: seq<Token>, tokens: seq<Token>, k: nat)
    requires n + |tokens| <= |cells| && k <= |tokens| && cells[..n] == m.Cells(h)
    ensures Stored(m, cells, n, tokens)[..n + k] == m.Cells(h + tokens[..k])
  {
    FedCells(m, h, tokens);
    m.CellsPrefix(h + tokens, n + k);
    assert (h + tokens)[..n + k] == h + tokens[..k];
    assert Stored(m, cells, n, tokens)[..n + k] == m.Cells(h + tokens)[..n + k];
  }

  lemma CroppedTokens(prompt: seq<Token>, output: seq<Token>, anchor: Token, draft: seq<Token>, tokens: seq<Token>)
    requires output != [] && anchor == output[|output| - 1] && 0 < |tokens| <= |draft| + 1
    requires tokens[..|tokens| - 1] == draft[..|tokens| - 1]
    ensures var now := output + tokens;
            prompt + now[..|now| - 1] == prompt + output[..|output| - 1] + ([anchor] + draft)[..|tokens|]
  {
    var n, now := |tokens|, output + tokens;
    assert ([anchor] + draft)[..n] == [anchor] + draft[..n - 1];
    assert now[..|now| - 1] == output + tokens[..n - 1];
    assert output == output[..|output| - 1] + [anchor];
  }
}
