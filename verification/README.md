# Pricing-matrix parser

This project models `parse_pricing_matrix` from `parser.py` in Dafny. The function reads a print shop's
price list exported from Excel. Each product is a block of rows:

- a **header row** has `Titolo Prodotto` and `SKU` filled in and `Posizione Stampa` blank. Its cells
  from the `Quantità` column to the last column hold the quantity breakpoints;
- the rows below it are **position rows**. Each names a print position (`Posizione Stampa`) and gives
  one price under each breakpoint column.

The parser first drops the columns that are blank in every row. It then scans the rows once. On a
header row it records the breakpoints, then reads position rows until a row has both a title and a
SKU. For each position and each breakpoint with a numeric price it emits one tidy row
`(title, SKU, position, quantity, price)`. Finally it sorts the result by
(title, SKU, position, quantity). It raises an error when it reaches a header row and the `Quantità`
column is not in the sheet.

The model follows the code's control flow. It abstracts the number conversions, which "## Left out"
describes:

- `Scan` is a two-state recursive scanner (`SeekHeader` / `ReadPositions`), mirroring the outer and
  inner `while` loops.
- `Blocks` is a declarative reference. It defines which header owns each row and what each row
  yields.
- `Parser.ScanMatchesReference` proves that the scanner computes exactly the reference.
- The top-level properties are stated on the sheet the caller passes in (module `Properties`).

Modules, following the program's structure:

- `Wrappers`: `Option`, `Result`.
- `Cells`: a cell is `Empty | Num(real) | Text(string)`, plus the `float()`/`str()` abstraction,
  `int()` truncation, `round(x, 2)` and `str.strip()`.
- `Sheets`: a sheet with ordered columns, and the blank-column drop.
- `Tidy`: the output row and its sort key.
- `Sorting`: the final sort.
- `Rows`: row classification, breakpoint capture and price emission.
- `Blocks`: the reference semantics.
- `Parser`: the scanner and the entry point.
- `Properties`: whole-parse theorems.
- `Example`: a worked two-row sheet.
- `Seqs`: a subsequence predicate and the concatenation of a range of parts.

Reading a cell goes through `Sheets.At`. A label that is not among the sheet's columns, or is absent
from the row, reads as blank. This is what `row.get(...)` and `r2.get(colname, None)` return after
the drop: `None` for a missing label, NaN for a blank cell.

## Model

| member | source | states |
|---|---|---|
| Cells.Trunc | parser.py:53 | `int(float(val))` truncates toward zero: for non-negative x the result is the greatest integer not above x; for negative x it is the least integer not below x |
| Cells.Round2 | parser.py:81 | `round(prezzo, 2)` gives a whole number of cents within half a cent of the price, and a price exactly halfway between two cents goes to the even one |
| Cells.Trim | parser.py:79 | `str(pos).strip()` yields a contiguous piece of the text whose two ends are not whitespace, with only whitespace removed before and after it |
| Cells.TrimIdempotent | parser.py:79 | stripping a stripped position changes nothing |
| Sheets.At | parser.py:28 | the definition of `row.get(c)`: a label that is not a column of the sheet, or is missing from the row, reads as blank; `Sheets.DropPreservesCells` states its property under the blank-column drop |
| Cells.ToNumber | parser.py:53 | the definition of `float(val)` after `pd.notna(val)`: blank gives no number, a number is itself, text goes through the `float()` parameter; see `Cells.ToNumber` under "## Left out" |
| Cells.Show | parser.py:79 | the definition of `str(pos)` on a non-blank cell: text is itself, a number goes through the `str()` parameter; see `Cells.Show` under "## Left out" |
| Rows.ClosesBlock | parser.py:62 | a row with both a title and a SKU, which ends the block being read |
| Rows.IsHeaderRow | parser.py:28 | a header row has a title and a SKU and a blank position, so every header row also ends the block being read |
| Rows.Breakpoints | parser.py:38-56 | a header row's breakpoints are exactly the columns of the span from `Quantità` whose header cell is numeric, each with that number truncated; there are none without a `Quantità` column |
| Rows.PricedRow | parser.py:76-82 | an emitted row carries the block's title and SKU, the given position and the breakpoint's quantity, and its price is a whole number of cents within half a cent of the cell's value; a halfway price goes to the even cent |
| Parser.Scan | parser.py:24-88 | the two-state scan fails only when `Quantità` is not a column; `Parser.ScanMatchesReference` and `Parser.ReadMatchesReference` state its full behaviour |
| Tidy.KeyLe | parser.py:93 | the sort key order on (title, SKU, position, quantity); `Tidy.KeyLeTotal`, `Tidy.KeyLeTransitive` and `Tidy.KeyLeAntisymmetric` state its properties |
| Tidy.KeyLeAntisymmetric | parser.py:93 | two rows that may each precede the other agree on all four key columns |
| Sheets.KeepNonBlank | parser.py:15 | the kept column labels keep their order, and a label is kept exactly when it is a column with some non-blank cell |
| Sheets.DropBlankColumns | parser.py:14-16 | dropping blank columns keeps every row, keeps the column order, and keeps exactly the columns with a non-blank cell |
| Sheets.DropPreservesCells | parser.py:15-16 | after the drop every row reads the same value under every label as before, since a dropped column read blank everywhere |
| Rows.QuantityStart | parser.py:39-42 | collection starts at the first `Quantità` label: no earlier label is `Quantità`, and the start is the end of the list only when there is none |
| Rows.QuantitySpan | parser.py:38-44 | the breakpoint columns are the suffix of the column list that starts at the first `Quantità`; there are none if `Quantità` is not a column |
| Rows.CollectBreakpoints | parser.py:46-56 | a breakpoint (column, q) is recorded exactly when the column is in the span, its header cell is non-blank and numeric, and q is that number truncated; breakpoints keep column order |
| Rows.EmitPrices | parser.py:69-82 | a tidy row is emitted for a breakpoint exactly when its price cell is non-blank and numeric, carrying the block's title and SKU, the breakpoint's quantity and the price rounded to cents; a bad cell skips only its own breakpoint, and the number of rows emitted is exactly the number of breakpoints whose price cell is numeric |
| Rows.PositionRowOutput | parser.py:66-83 | a row with a blank position yields nothing; otherwise it yields one row per breakpoint whose price cell is numeric (its length is that count), each carrying the stripped text of the position cell |
| Rows.NumericCount | parser.py:69-75 | counts the breakpoints whose price cell is numeric: never more than there are breakpoints, all of them exactly when every price cell is numeric, none exactly when no price cell is |
| Rows.BreakpointsAfterDrop | parser.py:15-16 | while `Quantità` has a non-blank cell, a header row has the same breakpoints before and after the blank-column drop |
| Rows.ClassificationAfterDrop | parser.py:15-16 | the blank-column drop turns no row into a header or block-closing row, nor out of one |
| Rows.PositionRowAfterDrop | parser.py:15-16 | the blank-column drop does not change what a position row yields |
| Blocks.Owner | parser.py:26-28 | the row that owns a row is a header row and comes before it |
| Blocks.OwnerIsLastOpenHeader | parser.py:26-28 | the owner of row k is h exactly when h is a header row before k and no row strictly between them has both a title and a SKU |
| Blocks.ContributionByBlock | parser.py:59-83 | a row yields tidy rows only inside a block: when it has no title/SKU pair and its last open header owns it, it yields that row's position output under the owner's title, SKU and breakpoints |
| Blocks.BlockExtent | parser.py:59-64 | a block runs from the row after its header up to, but not including, the first later row with both a title and a SKU |
| Blocks.ClosingRowYieldsNothing | parser.py:62-64 | a row with both a title and a SKU is never read as a price row, whatever its position cell holds |
| Blocks.RowsBeforeFirstHeaderYieldNothing | parser.py:26-28 | rows before the first header row contribute nothing |
| Blocks.NoHeaderYieldsNothing | parser.py:87-88 | a sheet with no header row at all yields nothing from any row i on |
| Blocks.ContributionInExpected | parser.py:76-82 | every tidy row a row yields is among the rows the sheet yields |
| Blocks.ExpectedFromContribution | parser.py:76-82 | every tidy row the sheet yields comes from one particular row |
| Blocks.OwnerAfterDrop | parser.py:15-16 | the blank-column drop does not change which header owns a row |
| Blocks.ExpectedAfterDrop | parser.py:15-16 | while `Quantità` has a non-blank cell, the blank-column drop does not change what the sheet yields |
| Parser.ScanMatchesReference | parser.py:24-88 | the two-state scan from a state matching row i fails exactly when a header row lies ahead and `Quantità` is not a column; otherwise it returns exactly the rows the reference says rows i onward yield, in row order |
| Parser.ReadMatchesReference | parser.py:59-86 | the scan inside a block matches the reference from any row the block still owns: the reading half of `Parser.ScanMatchesReference` |
| Parser.ParsePricingMatrix | parser.py:4-94 | the parse fails exactly when the sheet, after the blank-column drop, has a header row and no `Quantità` column; on success the result is sorted by (title, SKU, position, quantity) and is a permutation of the rows the sheet yields |
| Sorting.Insert | parser.py:93 | inserting into a sorted sequence keeps it sorted and adds exactly that row |
| Sorting.SortRows | parser.py:92-93 | the sort returns a sorted permutation of its input |
| Sorting.SortRowsOfSortedIsIdentity | parser.py:93 | sorting an already sorted table changes nothing |
| Tidy.KeyLeTotal | parser.py:93 | any two tidy rows are comparable under the sort key |
| Tidy.KeyLeTransitive | parser.py:93 | the sort key order is transitive |
| Properties.DropPreservesHeaders | parser.py:15-16 | the sheet has a header row after the blank-column drop exactly when it had one before |
| Properties.ParseFailsIff | parser.py:15-36 | the parse fails exactly when the sheet has a header row and `Quantità` is missing or blank in every row |
| Properties.NoHeaderParsesEmpty | parser.py:90-94 | a sheet without a header row parses to an empty table, not an error |
| Properties.OutputRowProvenance | parser.py:30-31 | every output row comes from a position row inside the block of some header: it has that header's title and SKU, the stripped position of its row, and the quantity of one of that header's breakpoints, with the rounded price found under that breakpoint |
| Properties.OutputRowCompleteness | parser.py:66-82 | conversely, every position row of a block, paired with each breakpoint of its header whose price cell is numeric, appears in the output |
| Properties.ResortIsNoOp | parser.py:92-93 | re-sorting the parse's result changes nothing |
| Properties.ParseIgnoresBlankColumns | parser.py:14-16 | while `Quantità` has a non-blank cell, the parse succeeds and yields a permutation of what the sheet yields with no column dropped |
| Example.TeeSheetParses | parser.py:26-94 | a header row (Tee, TEE1, breakpoints 1 and 2 under `Quantità` and `Unnamed: 4`) followed by a `Fronte` row priced 10.90 and 15.00 parses to exactly the two rows (Tee, TEE1, Fronte, 1, 10.90) and (Tee, TEE1, Fronte, 2, 15.00) |

## Left out

- `streamlit_app.py` and `shopify_client.py` are not part of this model. They hold the upload UI,
  the Excel reading, the variant-SKU assembly and the HTTP calls to the shop's API. They are all I/O.
- Column-label normalisation, a matrix-to-tidy melter with an allow-list of quantities, a
  `(position, quantity)` price index, a 63-character variant-SKU deriver and the reporting of skipped
  combinations do not appear in `parser.py`. None of them is modelled. The parser matches the exact
  labels `Titolo Prodotto`, `SKU`, `Posizione Stampa` and `Quantità`, with no case or whitespace
  folding, and the model does the same.
- The parser neither requires nor checks that quantities are positive, and it keeps duplicate
  (position, quantity) rows. The model does the same. It adds no positivity condition and no
  last-write-wins rule.
- The parse fails when it reaches a header row and `Quantità` is not a column. A missing `Quantità`
  is not fatal in a sheet without header rows. A `Quantità` column that is blank in every row is
  removed by the drop and then counts as missing. The model follows the code here.
- Cells.ToNumber: `float(...)` on a text cell is the parameter `parseNum: string -> Option<real>`.
  Which strings Python accepts is not modelled. One `parseNum` serves both the quantity path
  `int(float(val))` (parser.py:53) and the price path `float(price_val)` (parser.py:73), but Python
  treats text such as "nan", "inf" or "1e400" differently on the two paths. As a quantity it is
  skipped, because `int()` raises and the exception is caught. As a price it is emitted with a NaN or
  infinite price. An `Option<real>` cannot express both, so no choice of `parseNum` matches Python on
  such a sheet.
- Cells.Show: `str(...)` of a number is the parameter `showNum: real -> string`. How Python prints
  numbers is not modelled. Python prints the int 1 as "1" and the float 1.0 as "1.0", but
  `Num(1.0)` cannot tell an int cell from a float cell, so the model cannot tell them apart either.
- Cells.Round2: rounds an exact real half-to-even. It does not model binary floating-point, so a
  decimal such as 2.675 that Python stores just below the half rounds differently there.
- Cell values are blank, a number or text. NaN, infinities, booleans and dates are not modelled.
  A numeric cell is an exact real.
- Sheets.At: duplicate column labels are not modelled. A row maps each label to at most one cell.
- Tidy.KeyLe: pandas' order on a column holding both numbers and text is not modelled. The model
  puts every number before every text, and orders text by code point as Python does.
- Sorting.SortRows: pandas' order among rows with equal keys is not modelled. The contract states
  sortedness and permutation only.
- Rows.EmitPrices: states membership and the exact number of rows emitted. It does not state how
  often each row repeats when two breakpoints give the same tidy row.
- Rows.PositionRowOutput: the same as `Rows.EmitPrices`. Membership and the total count are
  stated, not the multiplicity of a tidy row that two breakpoints both produce.
- `reset_index` and the DataFrame column layout of the result are not modelled. The result is a
  sequence of tidy rows.
