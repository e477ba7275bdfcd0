/**
 * What the parser reads from a single row: whether it closes a product
 * block or opens one, the quantity breakpoints of a header row, and the
 * output rows a position row yields.
 */
module Rows {
  import opened Wrappers
  import opened Cells
  import opened Seqs
  import opened Sheets
  import opened Tidy

  /** A quantity tier read from a header row, with the column it sits in. */
  datatype Breakpoint = Breakpoint(column: string, quantity: int)

  /** Title and SKU are both filled: the row ends any open block. */
  predicate ClosesBlock(t: Sheet, k: nat)
    requires k < |t.rows|
  {
    !At(t, k, TitleColumn).Empty? && !At(t, k, SkuColumn).Empty?
  }

  /** Title and SKU filled, position blank: the row opens a product block. */
  predicate IsHeaderRow(t: Sheet, k: nat)
    requires k < |t.rows|
    ensures IsHeaderRow(t, k) ==> ClosesBlock(t, k)
  {
    ClosesBlock(t, k) && At(t, k, PositionColumn).Empty?
  }

  /** The numeric value of the cell at row `k`, column `c`, if it has one. */
  function NumberAt(conv: Conversions, t: Sheet, k: nat, c: string): Option<real>
    requires k < |t.rows|
  {
    ToNumber(conv, At(t, k, c))
  }

  /** Index of the first `Quantità` label, or the number of columns when there is none. */
  function QuantityStart(cols: seq<string>): (p: nat)
    ensures p <= |cols|
    ensures forall i :: 0 <= i < p ==> cols[i] != QuantityColumn
    ensures p < |cols| ==> cols[p] == QuantityColumn
  {
    if cols == [] || cols[0] == QuantityColumn then 0 else 1 + QuantityStart(cols[1..])
  }

  /** The candidate breakpoint columns: from the first `Quantità` to the last column. */
  function QuantitySpan(cols: seq<string>): (span: seq<string>)
    ensures |span| <= |cols|
    ensures QuantityColumn !in cols ==> span == []
    ensures QuantityColumn in cols ==>
      && |span| > 0
      && span == cols[|cols| - |span|..]
      && span[0] == QuantityColumn
      && QuantityColumn !in cols[..|cols| - |span|]
  {
    var p := QuantityStart(cols);
    assert p < |cols| ==> QuantityColumn in cols;
    assert QuantityColumn !in cols[..p];
    cols[p..]
  }

  function Columns(bps: seq<Breakpoint>): (cs: seq<string>)
    ensures |cs| == |bps|
    ensures forall i :: 0 <= i < |bps| ==> cs[i] == bps[i].column
  {
    if bps == [] then [] else [bps[0].column] + Columns(bps[1..])
  }

  /**
   * The breakpoints of header row `h` over the columns `span`: one per
   * column whose cell is numeric, with its integer truncation as quantity,
   * in column order; other cells are skipped.
   */
  function CollectBreakpoints(conv: Conversions, t: Sheet, h: nat, span: seq<string>): (bps: seq<Breakpoint>)
    requires h < |t.rows|
    ensures |bps| <= |span|
    ensures IsSubsequence(Columns(bps), span)
    ensures forall b :: b in bps <==>
      && b.column in span
      && NumberAt(conv, t, h, b.column).Some?
      && b.quantity == Trunc(NumberAt(conv, t, h, b.column).value)
  {
    if span == [] then []
    else
      var rest := CollectBreakpoints(conv, t, h, span[1..]);
      assert span == [span[0]] + span[1..];
      match NumberAt(conv, t, h, span[0])
      case Some(x) =>
        var bps := [Breakpoint(span[0], Trunc(x))] + rest;
        assert bps[1..] == rest;
        assert Columns(bps) == [span[0]] + Columns(rest);
        bps
      case None =>
        SubsequenceOfCons(Columns(rest), span[0], span[1..]);
        rest
  }

  /** The breakpoints a header row records. */
  function Breakpoints(conv: Conversions, t: Sheet, h: nat): (bps: seq<Breakpoint>)
    requires h < |t.rows|
    ensures QuantityColumn !in t.columns ==> bps == []
    ensures forall b :: b in bps <==>
      && b.column in QuantitySpan(t.columns)
      && NumberAt(conv, t, h, b.column).Some?
      && b.quantity == Trunc(NumberAt(conv, t, h, b.column).value)
  {
    CollectBreakpoints(conv, t, h, QuantitySpan(t.columns))
  }

  /** The output row for breakpoint `b` when its price cell holds `price`. */
  function PricedRow(title: Cell, sku: Cell, position: string, b: Breakpoint, price: real): (r: TidyRow)
    ensures r.title == title && r.sku == sku && r.position == position && r.quantity == b.quantity
    ensures IsCents(r.price) && -0.5 <= price * 100.0 - r.price * 100.0 <= 0.5
    ensures (price * 100.0 - r.price * 100.0 == 0.5 || r.price * 100.0 - price * 100.0 == 0.5)
            ==> (r.price * 100.0).Floor % 2 == 0
  {
    TidyRow(title, sku, position, b.quantity, Round2(price))
  }

  /** How many of the breakpoints `bps` find a numeric price cell in row `k`. */
  function NumericCount(conv: Conversions, t: Sheet, k: nat, bps: seq<Breakpoint>): (n: nat)
    requires k < |t.rows|
    ensures n <= |bps|
    ensures n == |bps| <==> forall b :: b in bps ==> NumberAt(conv, t, k, b.column).Some?
    ensures n == 0 <==> forall b :: b in bps ==> NumberAt(conv, t, k, b.column).None?
  {
    if bps == [] then 0
    else
      assert bps == [bps[0]] + bps[1..];
      (if NumberAt(conv, t, k, bps[0].column).Some? then 1 else 0) + NumericCount(conv, t, k, bps[1..])
  }

  /**
   * The rows position row `k` yields for the breakpoints `bps`: one per
   * breakpoint whose price cell is numeric; a blank or non-numeric cell
   * skips that breakpoint only.
   */
  function EmitPrices(conv: Conversions, title: Cell, sku: Cell, position: string, bps: seq<Breakpoint>, t: Sheet, k: nat)
    : (out: seq<TidyRow>)
    requires k < |t.rows|
    ensures |out| == NumericCount(conv, t, k, bps)
    ensures forall tr :: tr in out <==>
      exists b :: && b in bps
                  && NumberAt(conv, t, k, b.column).Some?
                  && tr == PricedRow(title, sku, position, b, NumberAt(conv, t, k, b.column).value)
  {
    if bps == [] then []
    else
      var rest := EmitPrices(conv, title, sku, position, bps[1..], t, k);
      assert bps == [bps[0]] + bps[1..];
      match NumberAt(conv, t, k, bps[0].column)
      case Some(p) => [PricedRow(title, sku, position, bps[0], p)] + rest
      case None => rest
  }

  /**
   * What row `k` of the block with the given title, SKU and breakpoints
   * contributes: nothing when its position is blank, otherwise its priced
   * breakpoints under the stripped position label.
   */
  function PositionRowOutput(conv: Conversions, title: Cell, sku: Cell, bps: seq<Breakpoint>, t: Sheet, k: nat)
    : (out: seq<TidyRow>)
    requires k < |t.rows|
    ensures At(t, k, PositionColumn).Empty? ==> out == []
    ensures !At(t, k, PositionColumn).Empty? ==> |out| == NumericCount(conv, t, k, bps)
    ensures forall tr :: tr in out <==>
      && !At(t, k, PositionColumn).Empty?
      && tr.title == title
      && tr.sku == sku
      && tr.position == Trim(Show(conv, At(t, k, PositionColumn)))
      && exists b :: && b in bps
                     && NumberAt(conv, t, k, b.column).Some?
                     && tr.quantity == b.quantity
                     && tr.price == Round2(NumberAt(conv, t, k, b.column).value)
  {
    var pos := At(t, k, PositionColumn);
    if pos.Empty? then []
    else EmitPrices(conv, title, sku, Trim(Show(conv, pos)), bps, t, k)
  }

  /*
   * Dropping blank columns changes no breakpoint and no emitted row: the
   * columns it removes read blank everywhere, and blank cells are skipped.
   */

  /** The span of a non-empty column list, by its first label. */
  lemma QuantitySpanStep(cols: seq<string>)
    requires cols != []
    ensures cols[0] == QuantityColumn ==> QuantitySpan(cols) == cols
    ensures cols[0] != QuantityColumn ==> QuantitySpan(cols) == QuantitySpan(cols[1..])
  {
    if cols[0] != QuantityColumn {
      assert cols[1 + QuantityStart(cols[1..])..] == cols[1..][QuantityStart(cols[1..])..];
    }
  }

  lemma {:induction false} SpanOfKeptColumns(t: Sheet, cols: seq<string>)
    requires !ColumnIsBlank(t, QuantityColumn)
    ensures QuantitySpan(KeepNonBlank(t, cols)) == KeepNonBlank(t, QuantitySpan(cols))
  {
    if cols != [] {
      var kept := KeepNonBlank(t, cols[1..]);
      QuantitySpanStep(cols);
      if cols[0] == QuantityColumn {
        assert KeepNonBlank(t, cols) == [cols[0]] + kept;
        QuantitySpanStep([cols[0]] + kept);
      } else if ColumnIsBlank(t, cols[0]) {
        assert KeepNonBlank(t, cols) == kept;
        SpanOfKeptColumns(t, cols[1..]);
      } else {
        assert KeepNonBlank(t, cols) == [cols[0]] + kept;
        QuantitySpanStep([cols[0]] + kept);
        assert ([cols[0]] + kept)[1..] == kept;
        SpanOfKeptColumns(t, cols[1..]);
      }
    }
  }

  lemma {:induction false} CollectOverKeptColumns(conv: Conversions, t: Sheet, h: nat, span: seq<string>)
    requires h < |t.rows|
    ensures CollectBreakpoints(conv, DropBlankColumns(t), h, KeepNonBlank(t, span))
            == CollectBreakpoints(conv, t, h, span)
  {
    if span != [] {
      CollectOverKeptColumns(conv, t, h, span[1..]);
      DropPreservesCells(t, h, span[0]);
      var kept := KeepNonBlank(t, span[1..]);
      if ColumnIsBlank(t, span[0]) {
        assert At(t, h, span[0]).Empty?;
      } else {
        assert KeepNonBlank(t, span) == [span[0]] + kept;
        assert ([span[0]] + kept)[1..] == kept;
      }
    }
  }

  /** While `Quantità` has a non-blank cell, a header row keeps the same breakpoints after the drop. */
  lemma BreakpointsAfterDrop(conv: Conversions, t: Sheet, h: nat)
    requires h < |t.rows|
    requires !ColumnIsBlank(t, QuantityColumn)
    ensures Breakpoints(conv, DropBlankColumns(t), h) == Breakpoints(conv, t, h)
  {
    SpanOfKeptColumns(t, t.columns);
    CollectOverKeptColumns(conv, t, h, QuantitySpan(t.columns));
  }

  lemma {:induction false} EmitPricesAfterDrop(conv: Conversions, title: Cell, sku: Cell, position: string,
                                              bps: seq<Breakpoint>, t: Sheet, k: nat)
    requires k < |t.rows|
    ensures EmitPrices(conv, title, sku, position, bps, DropBlankColumns(t), k)
            == EmitPrices(conv, title, sku, position, bps, t, k)
  {
    if bps != [] {
      EmitPricesAfterDrop(conv, title, sku, position, bps[1..], t, k);
      DropPreservesCells(t, k, bps[0].column);
    }
  }

  /** A row closes a block, or is a header, exactly when it did before the drop. */
  lemma ClassificationAfterDrop(t: Sheet, k: nat)
    requires k < |t.rows|
    ensures ClosesBlock(DropBlankColumns(t), k) == ClosesBlock(t, k)
    ensures IsHeaderRow(DropBlankColumns(t), k) == IsHeaderRow(t, k)
  {
    DropPreservesCells(t, k, TitleColumn);
    DropPreservesCells(t, k, SkuColumn);
    DropPreservesCells(t, k, PositionColumn);
  }

  /** A position row yields the same tidy rows after the drop. */
  lemma PositionRowAfterDrop(conv: Conversions, title: Cell, sku: Cell, bps: seq<Breakpoint>, t: Sheet, k: nat)
    requires k < |t.rows|
    ensures PositionRowOutput(conv, title, sku, bps, DropBlankColumns(t), k)
            == PositionRowOutput(conv, title, sku, bps, t, k)
  {
    DropPreservesCells(t, k, PositionColumn);
    if !At(t, k, PositionColumn).Empty? {
      EmitPricesAfterDrop(conv, title, sku, Trim(Show(conv, At(t, k, PositionColumn))), bps, t, k);
    }
  }
}
