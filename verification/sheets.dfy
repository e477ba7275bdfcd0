/**
 * The spreadsheet as the parser receives it: an ordered list of column
 * labels and, per row, a mapping from label to cell.
 */
module Sheets {
  import opened Cells
  import opened Seqs

  const TitleColumn: string := "Titolo Prodotto"
  const SkuColumn: string := "SKU"
  const PositionColumn: string := "Posizione Stampa"
  const QuantityColumn: string := "Quantità"

  datatype Sheet = Sheet(columns: seq<string>, rows: seq<map<string, Cell>>)

  /**
   * `row.get(c)` on row `k`: a label that is not a column of the sheet, or
   * that the row's mapping lacks, reads as a blank cell.
   */
  function At(t: Sheet, k: nat, c: string): Cell
    requires k < |t.rows|
  {
    if c in t.columns && c in t.rows[k] then t.rows[k][c] else Empty
  }

  /** `df[c].isna().all()`: every row reads blank at `c`. */
  predicate ColumnIsBlank(t: Sheet, c: string) {
    forall k :: 0 <= k < |t.rows| ==> At(t, k, c).Empty?
  }

  function KeepNonBlank(t: Sheet, cols: seq<string>): (kept: seq<string>)
    ensures IsSubsequence(kept, cols)
    ensures forall c :: c in kept <==> c in cols && !ColumnIsBlank(t, c)
  {
    if cols == [] then []
    else
      var rest := KeepNonBlank(t, cols[1..]);
      assert cols == [cols[0]] + cols[1..];
      if ColumnIsBlank(t, cols[0]) then
        SubsequenceOfCons(rest, cols[0], cols[1..]);
        rest
      else
        assert ([cols[0]] + rest)[1..] == rest;
        [cols[0]] + rest
  }

  /**
   * The first step of the parser: drop every column that is blank in all
   * rows, keeping the others in their original order.
   */
  function DropBlankColumns(t: Sheet): (d: Sheet)
    ensures d.rows == t.rows
    ensures IsSubsequence(d.columns, t.columns)
    ensures forall c :: c in d.columns <==> c in t.columns && !ColumnIsBlank(t, c)
  {
    Sheet(KeepNonBlank(t, t.columns), t.rows)
  }

  /** A list of columns none of which is blank is kept whole. */
  lemma {:induction false} KeepAllNonBlank(t: Sheet, cols: seq<string>)
    requires forall c :: c in cols ==> !ColumnIsBlank(t, c)
    ensures KeepNonBlank(t, cols) == cols
  {
    if cols != [] {
      KeepAllNonBlank(t, cols[1..]);
      assert cols == [cols[0]] + cols[1..];
    }
  }

  /** Dropping blank columns changes no cell the parser can read. */
  lemma DropPreservesCells(t: Sheet, k: nat, c: string)
    requires k < |t.rows|
    ensures At(DropBlankColumns(t), k, c) == At(t, k, c)
  {
    if c in t.columns && ColumnIsBlank(t, c) {
      assert At(t, k, c).Empty?;
    }
  }
}
