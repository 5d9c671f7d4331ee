/** The batch around verification: validation, the flat forward batch and its slices, acceptance, crop and versions. */
module VerifyBatch {
  import opened Wrappers
  import opened BlockMath
  import opened Lossless
  import opened CompactTarget

  /** The lines of one item: consecutive positions after its valid cells. */
  function Lines(item: Item): (r: seq<Entry>)
    ensures |r| == |item.draft| + 1
  {
    seq(|item.draft| + 1, j requires 0 <= j <= |item.draft| => Entry(item.row, item.logical + 1 + j, item.Tokens()[j]))
  }

  function Width(item: Item): nat { |item.draft| + 1 }

  /** The lines of the first n items are at their starts in the flat batch and follow each other without a gap. */
  ghost predicate Laid(items: seq<Item>, n: nat, flat: seq<Entry>, starts: seq<nat>) {
    && |starts| == n <= |items| && (n == 0 ==> flat == []) && (n > 0 ==> starts[0] == 0)
    && forall k | 0 <= k < n :: LaidAt(items, starts, flat, k)
  }

  ghost predicate LaidAt(items: seq<Item>, starts: seq<nat>, flat: seq<Entry>, k: nat)
    requires k < |items| && k < |starts|
  {
    LaidItem(items[k], starts[k], End(starts, flat, k), flat)
  }

  function End(starts: seq<nat>, flat: seq<Entry>, k: nat): nat {
    if k + 1 < |starts| then starts[k + 1] else |flat|
  }

  ghost predicate LaidItem(item: Item, start: nat, end: nat, flat: seq<Entry>) {
    start + Width(item) == end <= |flat| && flat[start..end] == Lines(item)
  }

  /** How many lines the first n items have. */
  function TotalWidth(items: seq<Item>, n: nat): nat
    requires n <= |items|
  {
    if n == 0 then 0 else TotalWidth(items, n - 1) + Width(items[n - 1])
  }

  /** The loop that builds the flat inputs. */
  method LayOut(items: seq<Item>) returns (flat: seq<Entry>, starts: seq<nat>)
    ensures Laid(items, |items|, flat, starts) && |flat| == TotalWidth(items, |items|)
  {
    flat, starts := [], [];
    for k := 0 to |items|
      invariant Laid(items, k, flat, starts) && |flat| == TotalWidth(items, k)
    {
      LaidMore(items, k, flat, starts);
      flat, starts := flat + Lines(items[k]), starts + [|flat|];
    }
  }

  lemma LaidMore(items: seq<Item>, k: nat, flat: seq<Entry>, starts: seq<nat>)
    requires k < |items| && Laid(items, k, flat, starts)
    ensures Laid(items, k + 1, flat + Lines(items[k]), starts + [|flat|])
  {
    var longer, at := flat + Lines(items[k]), starts + [|flat|];
    forall j | 0 <= j < k + 1 ensures LaidAt(items, at, longer, j) {
      if j < k {
        assert LaidAt(items, starts, flat, j);
        LaidStays(items[j], starts[j], End(starts, flat, j), flat, Lines(items[k]));
      }
    }
  }

  lemma LaidStays(item: Item, start: nat, end: nat, flat: seq<Entry>, more: seq<Entry>)
    requires LaidItem(item, start, end, flat)
    ensures LaidItem(item, start, end, flat + more)
  {
    assert (flat + more)[start..end] == flat[start..end];
  }

  /** Run one item's lines: each computes its cell from the cells before it, stores it, and says the next token. */
  method RunLines<C>(m: Model<C>, cells: seq<C>, item: Item, lines: seq<Entry>) returns (now: seq<C>, said: seq<Token>)
    requires item.logical >= 0 && item.logical + |item.draft| + 1 <= |cells| && lines == Lines(item)
    ensures now == Stored(m, cells, item.logical, item.Tokens())
    ensures said == Said(m, cells[..item.logical], item.Tokens())
  {
    var n, tokens: seq<Token> := item.logical, item.Tokens();
    now, said := cells, [];
    assert Stored(m, cells, n, []) == cells && tokens[..0] == [];
    for j := 0 to |lines|
      invariant now == Stored(m, cells, n, tokens[..j]) && said == Said(m, cells[..n], tokens[..j])
    {
      var e := lines[j];
      LineRun(m, cells, n, tokens, j);
      now := now[e.length - 1 := m.cell(now[..e.length - 1], e.token)];
      said := said + [m.out(now[..e.length])];
    }
    assert tokens[..|lines|] == tokens;
  }

  lemma LineRun<C>(m: Model<C>, cells: seq<C>, n: nat, tokens: seq<Token>, j: nat)
    requires j < |tokens| && n + |tokens| <= |cells|
    ensures var before, after := Stored(m, cells, n, tokens[..j]), Stored(m, cells, n, tokens[..j + 1]);
            && before[n + j := m.cell(before[..n + j], tokens[j])] == after
            && Said(m, cells[..n], tokens[..j + 1]) == Said(m, cells[..n], tokens[..j]) + [m.out(after[..n + j + 1])]
  {
    var some, more := tokens[..j], tokens[..j + 1];
    assert more[..j] == some;
    var before, after := Stored(m, cells, n, some), Stored(m, cells, n, more);
    assert before[..n + j] == Fed(m, cells[..n], some);
    assert after[..n + j + 1] == Fed(m, cells[..n], more);
    assert before[n + j := m.cell(before[..n + j], tokens[j])] == after;
  }

  ghost predicate Ready<C>(rows: map<int, Row<C>>, items: seq<Item>) {
    && (forall i | 0 <= i < |items| :: items[i].row in rows && Fits(rows[items[i].row], items[i]))
    && forall i, j | 0 <= i < j < |items| :: items[i].row != items[j].row
  }

  ghost predicate Unnamed(items: seq<Item>, n: nat, r: int)
    requires n <= |items|
  {
    forall i | 0 <= i < n :: items[i].row != r
  }

  /** The rows of the first n items are as if each had run alone, and the other rows are as before. */
  ghost predicate Forwarded<C>(m: Model<C>, rows: map<int, Row<C>>, items: seq<Item>, n: nat, now: map<int, Row<C>>)
    requires Ready(rows, items) && n <= |items|
  {
    && now.Keys == rows.Keys
    && (forall i | 0 <= i < n :: now[items[i].row] == ForwardRow(m, rows[items[i].row], items[i]))
    && forall r | r in rows && Unnamed(items, n, r) :: now[r] == rows[r]
  }

  ghost predicate SaidIn<C>(m: Model<C>, row: Row<C>, item: Item, start: nat, out: seq<Token>)
    requires Fits(row, item)
  {
    start + Width(item) <= |out| && out[start..start + Width(item)] == Said(m, row.cells[..row.logical], item.Tokens())
  }

  ghost predicate AnsweredAt<C>(m: Model<C>, rows: map<int, Row<C>>, items: seq<Item>, starts: seq<nat>, out: seq<Token>, i: nat)
    requires Ready(rows, items) && i < |items| == |starts|
  {
    SaidIn(m, rows[items[i].row], items[i], starts[i], out)
  }

  /** What the slices of the first n items say is what feeding their tokens alone says. */
  ghost predicate Answers<C>(m: Model<C>, rows: map<int, Row<C>>, items: seq<Item>, starts: seq<nat>, n: nat, out: seq<Token>)
    requires Ready(rows, items) && |starts| == |items| >= n
  {
    forall i | 0 <= i < n :: AnsweredAt(m, rows, items, starts, out, i)
  }

  /** The forward pass over the flat batch. No item sees another item's tokens, and each slice is its own. */
  method Forward<C>(m: Model<C>, rows: map<int, Row<C>>, items: seq<Item>, flat: seq<Entry>, starts: seq<nat>)
    returns (now: map<int, Row<C>>, out: seq<Token>)
    requires Ready(rows, items) && Laid(items, |items|, flat, starts)
    ensures |out| == |flat| && Forwarded(m, rows, items, |items|, now) && Answers(m, rows, items, starts, |items|, out)
  {
    now, out := rows, [];
    for k := 0 to |items|
      invariant |out| == if k < |items| then starts[k] else |flat|
      invariant Forwarded(m, rows, items, k, now) && Answers(m, rows, items, starts, k, out)
    {
      ForwardMore(m, rows, items, k, now);
      StartsRight(items, flat, starts, k);
      var row, said := RunItem(m, now[items[k].row], items[k], flat, starts[k]);
      AnswersMore(m, rows, items, starts, k, out, said);
      now, out := now[items[k].row := row], out + said;
    }
  }

  lemma StartsRight(items: seq<Item>, flat: seq<Entry>, starts: seq<nat>, k: nat)
    requires Laid(items, |items|, flat, starts) && k < |items|
    ensures starts[k] + Width(items[k]) == End(starts, flat, k) && LaidItem(items[k], starts[k], starts[k] + Width(items[k]), flat)
  {
    assert LaidAt(items, starts, flat, k);
  }

  method RunItem<C>(m: Model<C>, row: Row<C>, item: Item, flat: seq<Entry>, start: nat) returns (next: Row<C>, said: seq<Token>)
    requires Fits(row, item) && LaidItem(item, start, start + Width(item), flat)
    ensures next == ForwardRow(m, row, item) && |said| == Width(item)
    ensures said == Said(m, row.cells[..row.logical], item.Tokens())
  {
    var cells;
    cells, said := RunLines(m, row.cells, item, flat[start..start + Width(item)]);
    next := row.(cells := cells);
  }

  lemma ForwardMore<C>(m: Model<C>, rows: map<int, Row<C>>, items: seq<Item>, k: nat, now: map<int, Row<C>>)
    requires Ready(rows, items) && k < |items| && Forwarded(m, rows, items, k, now)
    ensures items[k].row in now && now[items[k].row] == rows[items[k].row] && Fits(now[items[k].row], items[k])
    ensures Forwarded(m, rows, items, k + 1, now[items[k].row := ForwardRow(m, rows[items[k].row], items[k])])
  {
    assert Unnamed(items, k, items[k].row);
    forall r | Unnamed(items, k + 1, r) ensures Unnamed(items, k, r) {}
  }

  lemma AnswersMore<C>(m: Model<C>, rows: map<int, Row<C>>, items: seq<Item>, starts: seq<nat>, k: nat, out: seq<Token>, said: seq<Token>)
    requires Ready(rows, items) && k < |items| == |starts| && starts[k] == |out| && Answers(m, rows, items, starts, k, out)
    requires said == Said(m, rows[items[k].row].cells[..rows[items[k].row].logical], items[k].Tokens())
    ensures Answers(m, rows, items, starts, k + 1, out + said)
  {
    forall i | 0 <= i < k + 1 ensures AnsweredAt(m, rows, items, starts, out + said, i) {
      if i < k {
        assert AnsweredAt(m, rows, items, starts, out, i);
        assert (out + said)[starts[i]..starts[i] + Width(items[i])] == out[starts[i]..starts[i] + Width(items[i])];
      } else {
        assert (out + said)[starts[i]..starts[i] + Width(items[i])] == said;
      }
    }
  }

  datatype Plan = Plan(bankId: int, epoch: int, batch: string, items: seq<Item>)

  /** The active bank of a target worker, as verification sees it. */
  class TargetBank<C> {
    const model: Model<C>
    const size: nat
    const vocab: nat
    const maxDepth: nat
    const maxBatch: nat
    const maxTokens: nat
    var bankId: int
    var epoch: int
    var batch: string
    var rows: map<int, Row<C>>

    constructor (model: Model<C>, size: nat, vocab: nat, maxDepth: nat, maxBatch: nat, maxTokens: nat,
                 bankId: int, epoch: int, batch: string, rows: map<int, Row<C>>)
      ensures this.model == model && this.size == size && this.vocab == vocab && this.maxDepth == maxDepth
      ensures this.maxBatch == maxBatch && this.maxTokens == maxTokens
      ensures this.bankId == bankId && this.epoch == epoch && this.batch == batch && this.rows == rows
    {
      this.model, this.size, this.vocab, this.maxDepth := model, size, vocab, maxDepth;
      this.maxBatch, this.maxTokens := maxBatch, maxTokens;
      this.bankId, this.epoch, this.batch, this.rows := bankId, epoch, batch, rows;
    }

    predicate InVocab(tokens: seq<Token>) {
      forall t | t in tokens :: 0 <= t < vocab
    }

    /** Everything the validation of one item asks. */
    predicate ItemOk(item: Item)
      reads this
    {
      && item.kind in ["linear", "dflash_block"]
      && item.remaining > 0 && item.logical > 0
      && item.row in rows && rows[item.row].logical == item.logical && rows[item.row].version == item.version
      && InVocab(item.Tokens()) && InVocab(item.stops)
      && (maxDepth == 0 || |item.draft| <= maxDepth)
      && item.logical + 1 + |item.draft| <= |rows[item.row].cells|
    }

    ghost predicate Distinct(items: seq<Item>) {
      forall i, j | 0 <= i < j < |items| :: items[i].row != items[j].row && items[i].key != items[j].key
    }

    ghost predicate Acceptable(plan: Plan)
      reads this
    {
      && plan.bankId == bankId && plan.epoch == epoch && plan.batch == batch
      && 0 < |plan.items| <= maxBatch && Distinct(plan.items)
      && (forall i | 0 <= i < |plan.items| :: ItemOk(plan.items[i]))
      && TotalWidth(plan.items, |plan.items|) <= maxTokens
    }

    method CheckDistinct(items: seq<Item>) returns (ok: bool)
      ensures ok == Distinct(items)
    {
      var seenRows: set<int>, seenKeys: set<(string, string)> := {}, {};
      for i := 0 to |items|
        invariant seenRows == set j | 0 <= j < i :: items[j].row
        invariant seenKeys == set j | 0 <= j < i :: items[j].key
        invariant forall j, k | 0 <= j < k < i :: items[j].row != items[k].row && items[j].key != items[k].key
      {
        if items[i].row in seenRows || items[i].key in seenKeys { return false; }
        seenRows, seenKeys := seenRows + {items[i].row}, seenKeys + {items[i].key};
      }
      ok := true;
    }

    method CheckItems(items: seq<Item>) returns (ok: bool)
      ensures ok == forall i | 0 <= i < |items| :: ItemOk(items[i])
    {
      for i := 0 to |items|
        invariant forall j | 0 <= j < i :: ItemOk(items[j])
      {
        if !ItemOk(items[i]) { return false; }
      }
      ok := true;
    }

    method AcceptItem(ghost row: Row<C>, item: Item, start: nat, out: seq<Token>) returns (a: Acceptance)
      requires Fits(row, item) && SaidIn(model, row, item, start, out) && forall t | t in item.stops :: t >= 0
      ensures a == Accept(model, row, item)
    {
      var r := ComputeGreedyAcceptance(item.draft, out[start..start + Width(item)], Some(item.remaining), item.stops);
      a := r.value;
    }

    /** An item is accepted as it would be alone. */
    ghost predicate AcceptedAs(before: map<int, Row<C>>, items: seq<Item>, i: nat, a: Acceptance)
      requires Ready(before, items) && i < |items|
    {
      a == Accept(model, before[items[i].row], items[i])
    }

    /** The acceptance loop over the slices of the flat result. */
    method AcceptAll(before: map<int, Row<C>>, items: seq<Item>, starts: seq<nat>, out: seq<Token>) returns (accepted: seq<Acceptance>)
      requires Ready(before, items) && |starts| == |items| && Answers(model, before, items, starts, |items|, out)
      requires forall i, t | 0 <= i < |items| && t in items[i].stops :: t >= 0
      ensures |accepted| == |items| && forall i | 0 <= i < |items| :: AcceptedAs(before, items, i, accepted[i])
    {
      accepted := [];
      for i := 0 to |items|
        invariant |accepted| == i && forall j | 0 <= j < i :: AcceptedAs(before, items, j, accepted[j])
      {
        var a := AcceptAt(before, items, starts, out, i);
        accepted := accepted + [a];
      }
    }

    method AcceptAt(ghost before: map<int, Row<C>>, items: seq<Item>, starts: seq<nat>, out: seq<Token>, i: nat) returns (a: Acceptance)
      requires Ready(before, items) && |starts| == |items| && Answers(model, before, items, starts, |items|, out) && i < |items|
      requires forall t | t in items[i].stops :: t >= 0
      ensures AcceptedAs(before, items, i, a)
    {
      assert AnsweredAt(model, before, items, starts, out, i);
      a := AcceptItem(before[items[i].row], items[i], starts[i], out);
    }

    /** The rows of the first n items are cropped to what was accepted, the others are still as the forward pass left them. */
    ghost predicate Cropping(forward: map<int, Row<C>>, items: seq<Item>, accepted: seq<Acceptance>, n: nat, now: map<int, Row<C>>)
      requires size > 0 && |accepted| == |items| >= n && forall i | 0 <= i < |items| :: items[i].row in forward
    {
      && now.Keys == forward.Keys
      && (forall i | 0 <= i < |items| ::
            now[items[i].row] == if i < n then CropTo(size, forward[items[i].row], |accepted[i].tokens|) else forward[items[i].row])
      && forall r | r in forward && Unnamed(items, |items|, r) :: now[r] == forward[r]
    }

    /** The crop and the version publication, item by item. */
    method CropAll(items: seq<Item>, accepted: seq<Acceptance>) returns (results: seq<Outcome>)
      requires size > 0 && Distinct(items) && |accepted| == |items| && forall i | 0 <= i < |items| :: items[i].row in rows
      modifies `rows
      ensures Cropping(old(rows), items, accepted, |items|, rows)
      ensures |results| == |items| && forall i | 0 <= i < |items| :: results[i] == Report(items[i], accepted[i], rows[items[i].row])
    {
      results := [];
      for i := 0 to |items|
        invariant Cropping(old(rows), items, accepted, i, rows)
        invariant |results| == i && forall j | 0 <= j < i :: results[j] == Report(items[j], accepted[j], rows[items[j].row])
      {
        var item, tokens := items[i], accepted[i].tokens;
        var row := rows[item.row];
        var logical := row.logical + |tokens|;
        var cropped := row.(logical := logical, blocks := Blocks(logical, size), version := row.version + 1);
        var now := cropped.(version := (cropped.version + 1) % VERSIONS);
        assert now == CropTo(size, row, |tokens|);
        rows := rows[item.row := now];
        results := results + [Outcome(item.key, item.row, tokens, accepted[i].drafts, now.logical, now.version, now.blocks,
                                      |tokens| == item.remaining || (tokens != [] && tokens[|tokens| - 1] in item.stops))];
      }
    }

    /** Every item's row is what verifying that item alone makes of it, and the other rows are as before. */
    ghost predicate Alone(before: map<int, Row<C>>, items: seq<Item>, now: map<int, Row<C>>, results: seq<Outcome>)
      requires size > 0 && Ready(before, items)
    {
      && now.Keys == before.Keys && |results| == |items|
      && (forall i | 0 <= i < |items| ::
            && now[items[i].row] == Verified(model, size, before[items[i].row], items[i])
            && results[i] == Reported(model, size, before[items[i].row], items[i]))
      && forall r | r in before && Unnamed(items, |items|, r) :: now[r] == before[r]
    }

    lemma VerifiedAlone(before: map<int, Row<C>>, items: seq<Item>, forward: map<int, Row<C>>, accepted: seq<Acceptance>,
                        now: map<int, Row<C>>, results: seq<Outcome>)
      requires size > 0 && Ready(before, items) && Forwarded(model, before, items, |items|, forward) && |accepted| == |items|
      requires forall i | 0 <= i < |items| :: accepted[i] == Accept(model, before[items[i].row], items[i])
      requires Cropping(forward, items, accepted, |items|, now)
      requires |results| == |items| && forall i | 0 <= i < |items| :: results[i] == Report(items[i], accepted[i], now[items[i].row])
      ensures Alone(before, items, now, results)
    {
      forall i | 0 <= i < |items|
        ensures now[items[i].row] == Verified(model, size, before[items[i].row], items[i])
        ensures results[i] == Reported(model, size, before[items[i].row], items[i])
      {
        assert forward[items[i].row] == ForwardRow(model, before[items[i].row], items[i]);
        assert now[items[i].row] == CropTo(size, forward[items[i].row], |accepted[i].tokens|);
      }
    }

    /** Every item's report is right about its row. */
    ghost predicate AllRight(before: map<int, Row<C>>, items: seq<Item>, now: map<int, Row<C>>, results: seq<Outcome>)
      requires Ready(before, items)
    {
      && |results| == |items| && (forall i | 0 <= i < |items| :: items[i].row in now)
      && forall i | 0 <= i < |items| ::
           Right(model, size, before[items[i].row], items[i], now[items[i].row], results[i])
    }

    lemma AloneIsRight(before: map<int, Row<C>>, items: seq<Item>, now: map<int, Row<C>>, results: seq<Outcome>)
      requires size > 0 && Ready(before, items) && Alone(before, items, now, results)
      ensures AllRight(before, items, now, results)
    {
      forall i | 0 <= i < |items|
        ensures items[i].row in now && Right(model, size, before[items[i].row], items[i], now[items[i].row], results[i])
      {
        VerifiedRight(model, size, before[items[i].row], items[i]);
      }
    }

    /**
     * verify_compact. It fails, changing nothing, exactly when the plan does not match the bank; otherwise every item's
     * row and report are what verifying that item alone would give, and rows without an item are untouched.
     */
    method VerifyCompact(plan: Plan) returns (r: Result<seq<Outcome>>)
      requires size > 0
      modifies `rows
      ensures r.Ok? <==> old(Acceptable(plan))
      ensures r.Err? ==> rows == old(rows)
      ensures r.Ok? ==> Ready(old(rows), plan.items) && Alone(old(rows), plan.items, rows, r.value)
      ensures r.Ok? ==> AllRight(old(rows), plan.items, rows, r.value)
    {
      if plan.bankId != bankId || plan.epoch != epoch || plan.batch != batch { return Err("stale bank"); }
      var items := plan.items;
      if items == [] || |items| > maxBatch { return Err("compact verify batch capacity exceeded"); }
      var distinct := CheckDistinct(items);
      if !distinct { return Err("compact verify duplicate request/row"); }
      var valid := CheckItems(items);
      if !valid { return Err("compact verify item does not match the bank"); }
      var flat, starts := LayOut(items);
      if |flat| > maxTokens { return Err("compact verify token capacity exceeded"); }
      assert forall i | 0 <= i < |items| :: ItemOk(items[i]);
      assert Ready(rows, items);
      var before := rows;
      var now, out := Forward(model, before, items, flat, starts);
      var accepted := AcceptAll(before, items, starts, out);
      rows := now;
      var results := CropAll(items, accepted);
      VerifiedAlone(before, items, now, accepted, rows, results);
      AloneIsRight(before, items, rows, results);
      r := Ok(results);
    }
  }
}
