/** A worked example: one product block with two breakpoints and one print position. */
module Example {
  import opened Wrappers
  import opened Cells
  import opened Sheets
  import opened Tidy
  import opened Sorting
  import opened Rows
  import opened Parser

  const Unnamed: string := "Unnamed: 4"

  /** Header row (Tee, TEE1, breakpoints 1 and 2) followed by the `Fronte` price row. */
  function TeeSheet(): Sheet {
    Sheet(
      [TitleColumn, SkuColumn, PositionColumn, QuantityColumn, Unnamed],
      [ map[TitleColumn := Text("Tee"), SkuColumn := Text("TEE1"), QuantityColumn := Num(1.0), Unnamed := Num(2.0)],
        map[PositionColumn := Text("Fronte"), QuantityColumn := Num(10.90), Unnamed := Num(15.00)] ])
  }

  function TeeRows(): seq<TidyRow> {
    [ TidyRow(Text("Tee"), Text("TEE1"), "Fronte", 1, 10.90),
      TidyRow(Text("Tee"), Text("TEE1"), "Fronte", 2, 15.00) ]
  }

  lemma TeeHeaderCells()
    ensures At(TeeSheet(), 0, TitleColumn) == Text("Tee")
    ensures At(TeeSheet(), 0, SkuColumn) == Text("TEE1")
    ensures At(TeeSheet(), 0, PositionColumn) == Empty
    ensures At(TeeSheet(), 0, QuantityColumn) == Num(1.0)
    ensures At(TeeSheet(), 0, Unnamed) == Num(2.0)
  {
  }

  lemma TeeFronteCells()
    ensures At(TeeSheet(), 1, TitleColumn) == Empty
    ensures At(TeeSheet(), 1, SkuColumn) == Empty
    ensures At(TeeSheet(), 1, PositionColumn) == Text("Fronte")
    ensures At(TeeSheet(), 1, QuantityColumn) == Num(10.90)
    ensures At(TeeSheet(), 1, Unnamed) == Num(15.00)
  {
  }

  /** No column of the example is blank, so none is dropped. */
  lemma TeeSheetKeepsColumns()
    ensures DropBlankColumns(TeeSheet()) == TeeSheet()
  {
    var t := TeeSheet();
    TeeHeaderCells();
    TeeFronteCells();
    forall c | c in t.columns
      ensures !ColumnIsBlank(t, c)
    {
      assert !At(t, 0, c).Empty? || !At(t, 1, c).Empty?;
    }
    KeepAllNonBlank(t, t.columns);
  }

  lemma TeeSpan()
    ensures QuantitySpan(TeeSheet().columns) == [QuantityColumn, Unnamed]
  {
    var cols := TeeSheet().columns;
    assert QuantitySpan(cols[3..]) == cols[3..];
    assert cols[3..] == [QuantityColumn, Unnamed];
  }

  lemma TeeLastBreakpoint(conv: Conversions)
    ensures CollectBreakpoints(conv, TeeSheet(), 0, [Unnamed]) == [Breakpoint(Unnamed, 2)]
  {
    TeeHeaderCells();
    assert (2.0).Floor == 2;
    assert CollectBreakpoints(conv, TeeSheet(), 0, []) == [];
  }

  /** The header row records quantity 1 under `Quantità` and 2 under the unnamed column. */
  lemma TeeBreakpoints(conv: Conversions)
    ensures Breakpoints(conv, TeeSheet(), 0) == [Breakpoint(QuantityColumn, 1), Breakpoint(Unnamed, 2)]
  {
    var t := TeeSheet();
    var span := [QuantityColumn, Unnamed];
    TeeSpan();
    TeeLastBreakpoint(conv);
    TeeHeaderCells();
    assert NumberAt(conv, t, 0, QuantityColumn) == Some(1.0);
    assert Trunc(1.0) == 1;
    assert span[1..] == [Unnamed];
    assert CollectBreakpoints(conv, t, 0, span)
        == [Breakpoint(QuantityColumn, 1)] + CollectBreakpoints(conv, t, 0, [Unnamed]);
  }

  lemma FronteIsStripped()
    ensures Trim("Fronte") == "Fronte"
  {
    assert !IsSpace('F') && !IsSpace('e');
  }

  lemma TeePricesAreCents()
    ensures Round2(10.90) == 10.90
    ensures Round2(15.00) == 15.00
  {
    assert (1090.0).Floor == 1090;
    assert (1500.0).Floor == 1500;
  }

  lemma TeeFronteLastPrice(conv: Conversions)
    ensures EmitPrices(conv, Text("Tee"), Text("TEE1"), "Fronte", [Breakpoint(Unnamed, 2)], TeeSheet(), 1)
            == TeeRows()[1..]
  {
    TeeFronteCells();
    TeePricesAreCents();
    assert NumberAt(conv, TeeSheet(), 1, Unnamed) == Some(15.00);
  }

  lemma TeeFrontePrices(conv: Conversions)
    ensures EmitPrices(conv, Text("Tee"), Text("TEE1"), "Fronte",
                       [Breakpoint(QuantityColumn, 1), Breakpoint(Unnamed, 2)], TeeSheet(), 1)
            == TeeRows()
  {
    var bps := [Breakpoint(QuantityColumn, 1), Breakpoint(Unnamed, 2)];
    TeeFronteLastPrice(conv);
    TeeFronteCells();
    TeePricesAreCents();
    assert NumberAt(conv, TeeSheet(), 1, QuantityColumn) == Some(10.90);
    assert bps[1..] == [Breakpoint(Unnamed, 2)];
    assert TeeRows() == [TeeRows()[0]] + TeeRows()[1..];
  }

  /** The `Fronte` row prices both breakpoints. */
  lemma TeeFronteRow(conv: Conversions)
    ensures PositionRowOutput(conv, Text("Tee"), Text("TEE1"), Breakpoints(conv, TeeSheet(), 0), TeeSheet(), 1)
            == TeeRows()
  {
    var t := TeeSheet();
    var bps := Breakpoints(conv, t, 0);
    TeeBreakpoints(conv);
    TeeFronteCells();
    FronteIsStripped();
    TeeFrontePrices(conv);
    assert Show(conv, At(t, 1, PositionColumn)) == "Fronte";
    assert PositionRowOutput(conv, Text("Tee"), Text("TEE1"), bps, t, 1)
        == EmitPrices(conv, Text("Tee"), Text("TEE1"), "Fronte", bps, t, 1);
  }

  /** Reading the last row of a sheet inside a block emits just that row's output. */
  lemma ScanReadsLastRow(conv: Conversions, t: Sheet, st: ScanState)
    requires |t.rows| > 0 && st.ReadPositions?
    requires !ClosesBlock(t, |t.rows| - 1)
    ensures Scan(conv, t, |t.rows| - 1, st)
            == Success(PositionRowOutput(conv, st.title, st.sku, st.breakpoints, t, |t.rows| - 1))
  {
    var here := PositionRowOutput(conv, st.title, st.sku, st.breakpoints, t, |t.rows| - 1);
    assert here + [] == here;
  }

  lemma TeeScanReadsFronte(conv: Conversions)
    ensures Scan(conv, TeeSheet(), 1, ReadPositions(Text("Tee"), Text("TEE1"), Breakpoints(conv, TeeSheet(), 0)))
            == Success(TeeRows())
  {
    var t := TeeSheet();
    TeeFronteCells();
    TeeFronteRow(conv);
    ScanReadsLastRow(conv, t, ReadPositions(Text("Tee"), Text("TEE1"), Breakpoints(conv, t, 0)));
  }

  lemma TeeScan(conv: Conversions)
    ensures Scan(conv, TeeSheet(), 0, SeekHeader) == Success(TeeRows())
  {
    var t := TeeSheet();
    TeeHeaderCells();
    assert IsHeaderRow(t, 0) && QuantityColumn in t.columns;
    assert Scan(conv, t, 0, SeekHeader)
        == Scan(conv, t, 1, ReadPositions(Text("Tee"), Text("TEE1"), Breakpoints(conv, t, 0)));
    TeeScanReadsFronte(conv);
  }

  /** The example parses to one row per breakpoint, each with its own price, already in order. */
  lemma TeeSheetParses(conv: Conversions)
    ensures ParsePricingMatrix(conv, TeeSheet()) == Success(TeeRows())
  {
    TeeSheetKeepsColumns();
    TeeScan(conv);
    assert Sorted(TeeRows());
    SortRowsOfSortedIsIdentity(TeeRows());
  }
}
