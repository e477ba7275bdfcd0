/**
 * A declarative account of product blocks, independent of the scan: which
 * header row owns each row, and what the whole sheet should yield.
 */
module Blocks {
  import opened Wrappers
  import opened Cells
  import opened Sheets
  import opened Tidy
  import opened Rows
  import opened Seqs

  /**
   * Row `k` is read as a position row of the block opened by header row `h`:
   * `h` comes before `k` and no row in between, nor `k` itself, has both a
   * title and a SKU.
   */
  predicate InBlock(t: Sheet, h: nat, k: nat) {
    && h < k < |t.rows|
    && IsHeaderRow(t, h)
    && forall m :: h < m <= k ==> !ClosesBlock(t, m)
  }

  /**
   * The header of the block still open when the scan reaches row `k`,
   * computed looking backwards from `k`.
   */
  function Owner(t: Sheet, k: nat): (o: Option<nat>)
    requires k <= |t.rows|
    ensures o.Some? ==> o.value < k && IsHeaderRow(t, o.value)
  {
    if k == 0 then None
    else if IsHeaderRow(t, k - 1) then Some(k - 1)
    else if ClosesBlock(t, k - 1) then None
    else Owner(t, k - 1)
  }

  /** The block open at row `k` is the last header before `k` with no closing row after it. */
  lemma {:induction false} OwnerIsLastOpenHeader(t: Sheet, k: nat, h: nat)
    requires k <= |t.rows|
    ensures Owner(t, k) == Some(h) <==>
      h < k && IsHeaderRow(t, h) && forall m :: h < m < k ==> !ClosesBlock(t, m)
  {
    if k > 0 && !IsHeaderRow(t, k - 1) && !ClosesBlock(t, k - 1) {
      OwnerIsLastOpenHeader(t, k - 1, h);
      if h < k - 1 && IsHeaderRow(t, h) && forall m :: h < m < k ==> !ClosesBlock(t, m) {
        assert forall m :: h < m < k - 1 ==> !ClosesBlock(t, m);
      }
    } else if k > 0 && h < k - 1 && IsHeaderRow(t, h) {
      assert ClosesBlock(t, k - 1);
    }
  }

  /** What row `k` of the sheet yields. */
  function Contribution(conv: Conversions, t: Sheet, k: nat): seq<TidyRow>
    requires k < |t.rows|
  {
    if ClosesBlock(t, k) then []
    else match Owner(t, k)
      case None => []
      case Some(h) =>
        PositionRowOutput(conv, At(t, h, TitleColumn), At(t, h, SkuColumn), Breakpoints(conv, t, h), t, k)
  }

  /** What each row yields, as a total function of the row index. */
  function RowYield(conv: Conversions, t: Sheet): nat -> seq<TidyRow> {
    (k: nat) => if k < |t.rows| then Contribution(conv, t, k) else []
  }

  /** The rows the sheet yields from row `i` on, in row order. */
  function ExpectedFrom(conv: Conversions, t: Sheet, i: nat): seq<TidyRow> {
    ConcatRange(RowYield(conv, t), i, |t.rows|)
  }

  lemma ExpectedStep(conv: Conversions, t: Sheet, i: nat)
    requires i < |t.rows|
    ensures ExpectedFrom(conv, t, i) == Contribution(conv, t, i) + ExpectedFrom(conv, t, i + 1)
  {
  }

  /** A row that closes no block yields the output of the block open at it, if any. */
  lemma ContributionOfOpenBlock(conv: Conversions, t: Sheet, k: nat)
    requires k < |t.rows| && !ClosesBlock(t, k)
    ensures Owner(t, k).None? ==> Contribution(conv, t, k) == []
    ensures Owner(t, k).Some? ==>
      var h := Owner(t, k).value;
      Contribution(conv, t, k)
      == PositionRowOutput(conv, At(t, h, TitleColumn), At(t, h, SkuColumn), Breakpoints(conv, t, h), t, k)
  {
  }

  predicate HasHeaderFrom(t: Sheet, i: nat) {
    exists h :: i <= h < |t.rows| && IsHeaderRow(t, h)
  }

  /** A row inside a block yields that block's position-row output; any other row yields nothing. */
  lemma ContributionByBlock(conv: Conversions, t: Sheet, k: nat)
    requires k < |t.rows|
    ensures forall h :: InBlock(t, h, k) ==>
      Contribution(conv, t, k)
      == PositionRowOutput(conv, At(t, h, TitleColumn), At(t, h, SkuColumn), Breakpoints(conv, t, h), t, k)
    ensures (forall h :: !InBlock(t, h, k)) ==> Contribution(conv, t, k) == []
  {
    match Owner(t, k)
    case None =>
      forall h | InBlock(t, h, k)
        ensures false
      {
        OwnerIsLastOpenHeader(t, k, h);
      }
    case Some(o) =>
      OwnerIsLastOpenHeader(t, k, o);
      if !ClosesBlock(t, k) {
        assert InBlock(t, o, k);
        forall h | InBlock(t, h, k)
          ensures h == o
        {
          OwnerIsLastOpenHeader(t, k, h);
        }
      }
  }

  /** Rows before the first header row contribute nothing. */
  lemma RowsBeforeFirstHeaderYieldNothing(conv: Conversions, t: Sheet, k: nat)
    requires k < |t.rows|
    requires forall m :: 0 <= m < k ==> !IsHeaderRow(t, m)
    ensures Contribution(conv, t, k) == []
  {
    ContributionByBlock(conv, t, k);
  }

  /**
   * The block opened by header `h` consists exactly of the rows strictly
   * between `h` and the first later row with both title and SKU (or the end
   * of the sheet); that closing row is not part of it.
   */
  lemma BlockExtent(t: Sheet, h: nat, e: nat)
    requires h < e <= |t.rows|
    requires IsHeaderRow(t, h)
    requires forall m :: h < m < e ==> !ClosesBlock(t, m)
    requires e < |t.rows| ==> ClosesBlock(t, e)
    ensures forall k: nat :: InBlock(t, h, k) <==> h < k < e
  {
  }

  /** A row with title and SKU is never read as a position row, whatever its position cell holds. */
  lemma ClosingRowYieldsNothing(conv: Conversions, t: Sheet, k: nat)
    requires k < |t.rows|
    requires ClosesBlock(t, k)
    ensures Contribution(conv, t, k) == []
    ensures forall h :: !InBlock(t, h, k)
  {
  }

  /** Every row a row yields appears in the expected output. */
  lemma ContributionInExpected(conv: Conversions, t: Sheet, i: nat, k: nat, tr: TidyRow)
    requires i <= k < |t.rows|
    requires tr in Contribution(conv, t, k)
    ensures tr in ExpectedFrom(conv, t, i)
  {
    PartInConcatRange(RowYield(conv, t), i, k, |t.rows|, tr);
  }

  /** Every expected output row is yielded by some row. */
  lemma ExpectedFromContribution(conv: Conversions, t: Sheet, i: nat, tr: TidyRow) returns (k: nat)
    requires tr in ExpectedFrom(conv, t, i)
    ensures i <= k < |t.rows| && tr in Contribution(conv, t, k)
  {
    k := ConcatRangeFromPart(RowYield(conv, t), i, |t.rows|, tr);
  }

  /** Without any header row the sheet yields nothing. */
  lemma NoHeaderYieldsNothing(conv: Conversions, t: Sheet, i: nat)
    requires !HasHeaderFrom(t, 0)
    ensures ExpectedFrom(conv, t, i) == []
  {
    forall k | i <= k < |t.rows|
      ensures RowYield(conv, t)(k) == []
    {
      RowsBeforeFirstHeaderYieldNothing(conv, t, k);
    }
    ConcatRangeOfEmptyParts(RowYield(conv, t), i, |t.rows|);
  }

  lemma {:induction false} OwnerAfterDrop(t: Sheet, k: nat)
    requires k <= |t.rows|
    ensures Owner(DropBlankColumns(t), k) == Owner(t, k)
  {
    if k > 0 {
      ClassificationAfterDrop(t, k - 1);
      OwnerAfterDrop(t, k - 1);
    }
  }

  /**
   * While `Quantità` has a non-blank cell, dropping the blank columns does
   * not change what the sheet yields.
   */
  lemma ExpectedAfterDrop(conv: Conversions, t: Sheet, i: nat)
    requires !ColumnIsBlank(t, QuantityColumn)
    ensures ExpectedFrom(conv, DropBlankColumns(t), i) == ExpectedFrom(conv, t, i)
  {
    var d := DropBlankColumns(t);
    forall k | i <= k < |t.rows|
      ensures RowYield(conv, d)(k) == RowYield(conv, t)(k)
    {
      OwnerAfterDrop(t, k);
      ClassificationAfterDrop(t, k);
      match Owner(t, k)
      case None =>
      case Some(h) =>
        DropPreservesCells(t, h, TitleColumn);
        DropPreservesCells(t, h, SkuColumn);
        BreakpointsAfterDrop(conv, t, h);
        PositionRowAfterDrop(conv, At(t, h, TitleColumn), At(t, h, SkuColumn), Breakpoints(conv, t, h), t, k);
    }
    ConcatRangeCongruent(RowYield(conv, d), RowYield(conv, t), i, |t.rows|);
  }
}
