/** Properties of the whole parser, stated on the sheet it is given. */
module Properties {
  import opened Wrappers
  import opened Cells
  import opened Sheets
  import opened Tidy
  import opened Sorting
  import opened Rows
  import opened Blocks
  import opened Parser

  /** Dropping blank columns turns no row into a header row or out of one. */
  lemma DropPreservesHeaders(t: Sheet)
    ensures HasHeaderFrom(DropBlankColumns(t), 0) <==> HasHeaderFrom(t, 0)
  {
    var d := DropBlankColumns(t);
    forall h: nat | h < |t.rows|
      ensures IsHeaderRow(d, h) <==> IsHeaderRow(t, h)
    {
      DropPreservesCells(t, h, TitleColumn);
      DropPreservesCells(t, h, SkuColumn);
      DropPreservesCells(t, h, PositionColumn);
    }
    if HasHeaderFrom(t, 0) {
      var h :| 0 <= h < |t.rows| && IsHeaderRow(t, h);
      assert IsHeaderRow(d, h);
    }
    if HasHeaderFrom(d, 0) {
      var h :| 0 <= h < |d.rows| && IsHeaderRow(d, h);
      assert IsHeaderRow(t, h);
    }
  }

  /**
   * The parse fails exactly when the sheet has a header row and the
   * `Quantità` column is missing or blank in every row.
   */
  lemma ParseFailsIff(conv: Conversions, raw: Sheet)
    ensures ParsePricingMatrix(conv, raw).Failure?
            <==> HasHeaderFrom(raw, 0) && (QuantityColumn !in raw.columns || ColumnIsBlank(raw, QuantityColumn))
  {
    DropPreservesHeaders(raw);
  }

  /** A sheet without header rows parses to an empty table, not an error. */
  lemma NoHeaderParsesEmpty(conv: Conversions, raw: Sheet)
    requires !HasHeaderFrom(raw, 0)
    ensures ParsePricingMatrix(conv, raw) == Success([])
  {
    var t := DropBlankColumns(raw);
    DropPreservesHeaders(raw);
    NoHeaderYieldsNothing(conv, t, 0);
    var r := ParsePricingMatrix(conv, raw);
    assert multiset(r.value) == multiset{};
  }

  /**
   * Every output row comes from a position row `k` of the block opened by
   * header row `h`: it carries that header's title and SKU, the stripped
   * position of row `k`, and one of the header's breakpoints with the
   * rounded price found under it in row `k`.
   */
  lemma OutputRowProvenance(conv: Conversions, raw: Sheet, tr: TidyRow) returns (h: nat, k: nat)
    requires ParsePricingMatrix(conv, raw).Success?
    requires tr in ParsePricingMatrix(conv, raw).value
    ensures InBlock(DropBlankColumns(raw), h, k)
    ensures tr.title == At(DropBlankColumns(raw), h, TitleColumn)
    ensures tr.sku == At(DropBlankColumns(raw), h, SkuColumn)
    ensures !At(DropBlankColumns(raw), k, PositionColumn).Empty?
    ensures tr.position == Trim(Show(conv, At(DropBlankColumns(raw), k, PositionColumn)))
    ensures exists b :: && b in Breakpoints(conv, DropBlankColumns(raw), h)
                        && NumberAt(conv, DropBlankColumns(raw), k, b.column).Some?
                        && tr.quantity == b.quantity
                        && tr.price == Round2(NumberAt(conv, DropBlankColumns(raw), k, b.column).value)
  {
    var t := DropBlankColumns(raw);
    var r := ParsePricingMatrix(conv, raw);
    assert tr in multiset(r.value);
    k := ExpectedFromContribution(conv, t, 0, tr);
    ContributionByBlock(conv, t, k);
    h := Owner(t, k).value;
    OwnerIsLastOpenHeader(t, k, h);
    assert InBlock(t, h, k);
  }

  /**
   * Conversely, every position row of a block and every breakpoint of its
   * header whose price cell is numeric give one output row.
   */
  lemma OutputRowCompleteness(conv: Conversions, raw: Sheet, h: nat, k: nat, b: Breakpoint)
    requires QuantityColumn in DropBlankColumns(raw).columns
    requires InBlock(DropBlankColumns(raw), h, k)
    requires !At(DropBlankColumns(raw), k, PositionColumn).Empty?
    requires b in Breakpoints(conv, DropBlankColumns(raw), h)
    requires NumberAt(conv, DropBlankColumns(raw), k, b.column).Some?
    ensures ParsePricingMatrix(conv, raw).Success?
    ensures
      var t := DropBlankColumns(raw);
      PricedRow(At(t, h, TitleColumn), At(t, h, SkuColumn), Trim(Show(conv, At(t, k, PositionColumn))),
                b, NumberAt(conv, t, k, b.column).value)
      in ParsePricingMatrix(conv, raw).value
  {
    var t := DropBlankColumns(raw);
    var tr := PricedRow(At(t, h, TitleColumn), At(t, h, SkuColumn), Trim(Show(conv, At(t, k, PositionColumn))),
                        b, NumberAt(conv, t, k, b.column).value);
    ContributionByBlock(conv, t, k);
    assert tr in Contribution(conv, t, k);
    ContributionInExpected(conv, t, 0, k, tr);
    var r := ParsePricingMatrix(conv, raw);
    assert tr in multiset(ExpectedFrom(conv, t, 0));
  }

  /** Sorting the parser's result again changes nothing. */
  lemma ResortIsNoOp(conv: Conversions, raw: Sheet)
    requires ParsePricingMatrix(conv, raw).Success?
    ensures SortRows(ParsePricingMatrix(conv, raw).value) == ParsePricingMatrix(conv, raw).value
  {
    SortRowsOfSortedIsIdentity(ParsePricingMatrix(conv, raw).value);
  }

  /**
   * While `Quantità` has a non-blank cell, the parse succeeds and its rows
   * are those the sheet yields as given: the blank-column drop only ever
   * matters through the error it can cause.
   */
  lemma ParseIgnoresBlankColumns(conv: Conversions, raw: Sheet)
    requires !ColumnIsBlank(raw, QuantityColumn)
    ensures ParsePricingMatrix(conv, raw).Success?
    ensures multiset(ParsePricingMatrix(conv, raw).value) == multiset(ExpectedFrom(conv, raw, 0))
  {
    ExpectedAfterDrop(conv, raw, 0);
  }
}
