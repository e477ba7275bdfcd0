/**
 * `parse_pricing_matrix`: drop blank columns, scan the rows with a
 * two-state machine (looking for a header row / reading the position rows
 * of the current block), then sort what was emitted.
 */
module Parser {
  import opened Wrappers
  import opened Cells
  import opened Sheets
  import opened Tidy
  import opened Sorting
  import opened Rows
  import opened Blocks

  /** The one error the parser raises: a header row was found but no `Quantità` column survives. */
  datatype ParseError = MissingQuantityColumn

  /** The scanner's two states; a block carries its header's title, SKU and breakpoints. */
  datatype ScanState =
    | SeekHeader
    | ReadPositions(title: Cell, sku: Cell, breakpoints: seq<Breakpoint>)

  /**
   * The scan from row `i` in state `st`. A row with title and SKU ends the
   * current block and is looked at again while seeking a header; every
   * other step moves to the next row.
   */
  function Scan(conv: Conversions, t: Sheet, i: nat, st: ScanState): (r: Result<seq<TidyRow>, ParseError>)
    requires i <= |t.rows|
    ensures r.Failure? ==> QuantityColumn !in t.columns
    decreases |t.rows| - i, if st.ReadPositions? then 1 else 0
  {
    if i == |t.rows| then Success([])
    else match st
      case SeekHeader =>
        if IsHeaderRow(t, i) then
          if QuantityColumn !in t.columns then Failure(MissingQuantityColumn)
          else
            var block := ReadPositions(At(t, i, TitleColumn), At(t, i, SkuColumn), Breakpoints(conv, t, i));
            Scan(conv, t, i + 1, block)
        else Scan(conv, t, i + 1, SeekHeader)
      case ReadPositions(title, sku, bps) =>
        if ClosesBlock(t, i) then Scan(conv, t, i, SeekHeader)
        else
          var here := PositionRowOutput(conv, title, sku, bps, t, i);
          match Scan(conv, t, i + 1, st)
          case Failure(e) => Failure(e)
          case Success(rest) => Success(here + rest)
  }

  /** The state the scan is in at row `i` agrees with the block structure of the sheet. */
  ghost predicate StateMatches(conv: Conversions, t: Sheet, i: nat, st: ScanState)
    requires i <= |t.rows|
  {
    match st
    case SeekHeader => Owner(t, i).None? || (i < |t.rows| && ClosesBlock(t, i))
    case ReadPositions(title, sku, bps) =>
      && Owner(t, i).Some?
      && title == At(t, Owner(t, i).value, TitleColumn)
      && sku == At(t, Owner(t, i).value, SkuColumn)
      && bps == Breakpoints(conv, t, Owner(t, i).value)
  }

  /** What the scan from row `i` should produce, by the block structure of the sheet. */
  function ReferenceFrom(conv: Conversions, t: Sheet, i: nat): Result<seq<TidyRow>, ParseError> {
    if HasHeaderFrom(t, i) && QuantityColumn !in t.columns then Failure(MissingQuantityColumn)
    else Success(ExpectedFrom(conv, t, i))
  }

  /** Past a row that is not a header, the same header rows lie ahead. */
  lemma HeaderAheadPastRow(t: Sheet, i: nat)
    requires i < |t.rows| && !IsHeaderRow(t, i)
    ensures HasHeaderFrom(t, i) <==> HasHeaderFrom(t, i + 1)
  {
    if HasHeaderFrom(t, i) {
      var h :| i <= h < |t.rows| && IsHeaderRow(t, h);
      assert i + 1 <= h;
    }
  }

  /** A row that is not a header and yields nothing leaves the reference unchanged. */
  lemma ReferenceSkipsRow(conv: Conversions, t: Sheet, i: nat)
    requires i < |t.rows| && !IsHeaderRow(t, i) && Contribution(conv, t, i) == []
    ensures ReferenceFrom(conv, t, i) == ReferenceFrom(conv, t, i + 1)
  {
    ExpectedStep(conv, t, i);
    var rest := ExpectedFrom(conv, t, i + 1);
    assert [] + rest == rest;
    HeaderAheadPastRow(t, i);
  }

  /** A header row, with a `Quantità` column present, yields nothing itself. */
  lemma ReferenceOpensBlock(conv: Conversions, t: Sheet, i: nat)
    requires i < |t.rows| && IsHeaderRow(t, i) && QuantityColumn in t.columns
    ensures ReferenceFrom(conv, t, i) == ReferenceFrom(conv, t, i + 1)
  {
    ExpectedStep(conv, t, i);
    var rest := ExpectedFrom(conv, t, i + 1);
    assert Contribution(conv, t, i) == [];
    assert [] + rest == rest;
  }

  /** A row inside a block adds its own output in front of the rest. */
  lemma ReferenceReadsRow(conv: Conversions, t: Sheet, i: nat)
    requires i < |t.rows| && !ClosesBlock(t, i)
    ensures ReferenceFrom(conv, t, i)
            == match ReferenceFrom(conv, t, i + 1)
               case Failure(e) => Failure(e)
               case Success(rest) => Success(Contribution(conv, t, i) + rest)
  {
    ExpectedStep(conv, t, i);
    HeaderAheadPastRow(t, i);
  }

  /** Seeking at a header row with a `Quantità` column opens the block and moves on. */
  lemma SeekOpensBlock(conv: Conversions, t: Sheet, i: nat)
    requires i < |t.rows| && IsHeaderRow(t, i) && QuantityColumn in t.columns
    requires StateMatches(conv, t, i, SeekHeader)
    ensures var block := ReadPositions(At(t, i, TitleColumn), At(t, i, SkuColumn), Breakpoints(conv, t, i));
      && StateMatches(conv, t, i + 1, block)
      && Scan(conv, t, i, SeekHeader) == Scan(conv, t, i + 1, block)
      && ReferenceFrom(conv, t, i) == ReferenceFrom(conv, t, i + 1)
  {
    ReferenceOpensBlock(conv, t, i);
  }

  /** Seeking past a row that is not a header moves on, still seeking. */
  lemma SeekSkipsRow(conv: Conversions, t: Sheet, i: nat)
    requires i < |t.rows| && !IsHeaderRow(t, i)
    requires StateMatches(conv, t, i, SeekHeader)
    ensures StateMatches(conv, t, i + 1, SeekHeader)
    ensures Scan(conv, t, i, SeekHeader) == Scan(conv, t, i + 1, SeekHeader)
    ensures ReferenceFrom(conv, t, i) == ReferenceFrom(conv, t, i + 1)
  {
    if !ClosesBlock(t, i) {
      ContributionOfOpenBlock(conv, t, i);
    }
    ReferenceSkipsRow(conv, t, i);
  }

  /** Reading a row inside the block emits exactly what that row yields. */
  lemma ReadEmitsRow(conv: Conversions, t: Sheet, i: nat, st: ScanState)
    requires i < |t.rows| && st.ReadPositions? && !ClosesBlock(t, i)
    requires StateMatches(conv, t, i, st)
    requires Scan(conv, t, i + 1, st) == ReferenceFrom(conv, t, i + 1)
    ensures Scan(conv, t, i, st) == ReferenceFrom(conv, t, i)
  {
    ContributionOfOpenBlock(conv, t, i);
    ReferenceReadsRow(conv, t, i);
  }

  /**
   * From any state that agrees with the block structure, the scan fails
   * exactly when a header row lies ahead and there is no `Quantità` column,
   * and otherwise emits exactly what the remaining rows yield.
   */
  lemma {:induction false} ScanMatchesReference(conv: Conversions, t: Sheet, i: nat, st: ScanState)
    requires i <= |t.rows|
    requires StateMatches(conv, t, i, st)
    ensures Scan(conv, t, i, st) == ReferenceFrom(conv, t, i)
    decreases |t.rows| - i, if st.ReadPositions? then 2 else 0
  {
    if i == |t.rows| {
      assert ExpectedFrom(conv, t, i) == [];
    } else if st.ReadPositions? {
      ReadMatchesReference(conv, t, i, st);
    } else if !IsHeaderRow(t, i) {
      SeekSkipsRow(conv, t, i);
      ScanMatchesReference(conv, t, i + 1, SeekHeader);
    } else if QuantityColumn in t.columns {
      SeekOpensBlock(conv, t, i);
      ScanMatchesReference(conv, t, i + 1,
        ReadPositions(At(t, i, TitleColumn), At(t, i, SkuColumn), Breakpoints(conv, t, i)));
    } else {
      assert HasHeaderFrom(t, i);
    }
  }

  /** The reading half of `ScanMatchesReference`. */
  lemma {:induction false} ReadMatchesReference(conv: Conversions, t: Sheet, i: nat, st: ScanState)
    requires i < |t.rows| && st.ReadPositions?
    requires StateMatches(conv, t, i, st)
    ensures Scan(conv, t, i, st) == ReferenceFrom(conv, t, i)
    decreases |t.rows| - i, 1
  {
    if ClosesBlock(t, i) {
      ScanMatchesReference(conv, t, i, SeekHeader);
    } else {
      ScanMatchesReference(conv, t, i + 1, st);
      ReadEmitsRow(conv, t, i, st);
    }
  }

  /**
   * The whole parser. It fails exactly when some row is a header row and
   * no `Quantità` column survives the blank-column drop; otherwise its
   * result is the rows the sheet yields, sorted by (title, SKU, position,
   * quantity).
   */
  function ParsePricingMatrix(conv: Conversions, raw: Sheet): (r: Result<seq<TidyRow>, ParseError>)
    ensures var t := DropBlankColumns(raw);
      r.Failure? <==> HasHeaderFrom(t, 0) && QuantityColumn !in t.columns
    ensures r.Success? ==>
      && Sorted(r.value)
      && multiset(r.value) == multiset(ExpectedFrom(conv, DropBlankColumns(raw), 0))
  {
    var t := DropBlankColumns(raw);
    ScanMatchesReference(conv, t, 0, SeekHeader);
    match Scan(conv, t, 0, SeekHeader)
    case Failure(e) => Failure(e)
    case Success(emitted) => if emitted == [] then Success([]) else Success(SortRows(emitted))
  }
}
