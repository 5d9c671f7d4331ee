/** Lengths in cells and in whole blocks. */
module BlockMath {
  function Span(blocks: nat, unit: nat): nat { blocks * unit }

  lemma SpanAdds(a: nat, b: nat, unit: nat)
    ensures Span(a + b, unit) == Span(a, unit) + Span(b, unit)
  {
  }

  lemma SpanGrows(a: nat, b: nat, unit: nat)
    requires a <= b
    ensures Span(a, unit) <= Span(b, unit)
  {
    SpanAdds(a, b - a, unit);
  }

  function Blocks(length: nat, unit: nat): nat
    requires unit > 0
  {
    (length + unit - 1) / unit
  }

  /** The blocks of a length cover it, and one block fewer does not reach its last cell. */
  lemma BlocksCover(length: nat, unit: nat)
    requires unit > 0
    ensures length <= Span(Blocks(length, unit), unit) < length + unit
    ensures length > 0 ==> Blocks(length, unit) > 0 && Span(Blocks(length, unit) - 1, unit) < length
  {
    var q, r := (length + unit - 1) / unit, (length + unit - 1) % unit;
    assert length + unit - 1 == q * unit + r;
    assert q == 0 ==> q * unit == 0;
    if length > 0 {
      assert (q - 1) * unit == q * unit - unit;
    }
  }

  lemma BlocksFit(length: nat, unit: nat, blocks: nat)
    requires unit > 0 && length <= Span(blocks, unit)
    ensures Blocks(length, unit) <= blocks
  {
    BlocksCover(length, unit);
    if Blocks(length, unit) > blocks {
      SpanGrows(blocks + 1, Blocks(length, unit), unit);
      SpanAdds(blocks, 1, unit);
    }
  }

  lemma BlocksMonotone(a: nat, b: nat, unit: nat)
    requires unit > 0 && a <= b
    ensures Blocks(a, unit) <= Blocks(b, unit)
  {
    BlocksCover(b, unit);
    BlocksFit(a, unit, Blocks(b, unit));
  }
}
