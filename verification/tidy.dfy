/**
 * The long-format output row and the ordering `sort_values` applies to it:
 * by title, then SKU, then position, then quantity.
 */
module Tidy {
  import opened Cells

  /** One (Titolo Prodotto, SKU, Posizione Stampa, Quantità, Prezzo) row. */
  datatype TidyRow = TidyRow(title: Cell, sku: Cell, position: string, quantity: int, price: real)

  /** Python string comparison: lexicographic by code point. */
  predicate StrLt(a: string, b: string)
    decreases |a|
  {
    if a == [] then b != []
    else if b == [] then false
    else if a[0] != b[0] then a[0] < b[0]
    else StrLt(a[1..], b[1..])
  }

  lemma {:induction false} StrLtIrreflexive(a: string)
    ensures !StrLt(a, a)
    decreases |a|
  {
    if a != [] {
      StrLtIrreflexive(a[1..]);
    }
  }

  lemma {:induction false} StrLtTransitive(a: string, b: string, c: string)
    requires StrLt(a, b) && StrLt(b, c)
    ensures StrLt(a, c)
    decreases |a|
  {
    if a != [] && b != [] && c != [] && a[0] == b[0] == c[0] {
      StrLtTransitive(a[1..], b[1..], c[1..]);
    }
  }

  lemma {:induction false} StrLtTotal(a: string, b: string)
    ensures a == b || StrLt(a, b) || StrLt(b, a)
    decreases |a|
  {
    if a != [] && b != [] && a[0] == b[0] {
      StrLtTotal(a[1..], b[1..]);
      if a[1..] == b[1..] {
        assert a == [a[0]] + a[1..] && b == [b[0]] + b[1..];
      }
    }
  }

  /**
   * Order of title/SKU cells: numbers before text (the order pandas falls
   * back to for a column that mixes them), numbers by value, text as strings.
   */
  function CellRank(c: Cell): int {
    match c
    case Empty => 0
    case Num(_) => 1
    case Text(_) => 2
  }

  predicate CellLt(a: Cell, b: Cell) {
    if CellRank(a) != CellRank(b) then CellRank(a) < CellRank(b)
    else if a.Num? && b.Num? then a.x < b.x
    else if a.Text? && b.Text? then StrLt(a.s, b.s)
    else false
  }

  lemma CellLtTransitive(a: Cell, b: Cell, c: Cell)
    requires CellLt(a, b) && CellLt(b, c)
    ensures CellLt(a, c)
  {
    if a.Text? && b.Text? && c.Text? {
      StrLtTransitive(a.s, b.s, c.s);
    }
  }

  lemma CellLtTotal(a: Cell, b: Cell)
    ensures a == b || CellLt(a, b) || CellLt(b, a)
  {
    if a.Text? && b.Text? {
      StrLtTotal(a.s, b.s);
    }
  }

  /** `a` may precede `b` in the sorted output. */
  predicate KeyLe(a: TidyRow, b: TidyRow) {
    if a.title != b.title then CellLt(a.title, b.title)
    else if a.sku != b.sku then CellLt(a.sku, b.sku)
    else if a.position != b.position then StrLt(a.position, b.position)
    else a.quantity <= b.quantity
  }

  /** Any two rows are comparable. */
  lemma KeyLeTotal(a: TidyRow, b: TidyRow)
    ensures KeyLe(a, b) || KeyLe(b, a)
  {
    CellLtTotal(a.title, b.title);
    CellLtTotal(a.sku, b.sku);
    StrLtTotal(a.position, b.position);
  }

  lemma KeyLeTransitive(a: TidyRow, b: TidyRow, c: TidyRow)
    requires KeyLe(a, b) && KeyLe(b, c)
    ensures KeyLe(a, c)
  {
    if a.title != b.title && b.title != c.title {
      CellLtTransitive(a.title, b.title, c.title);
      if a.title == c.title {
        CellLtTotal(a.title, b.title);
        CellLtAsymmetric(a.title, b.title);
      }
    } else if a.title == b.title == c.title {
      if a.sku != b.sku && b.sku != c.sku {
        CellLtTransitive(a.sku, b.sku, c.sku);
        if a.sku == c.sku {
          CellLtAsymmetric(a.sku, b.sku);
        }
      } else if a.sku == b.sku == c.sku {
        if a.position != b.position && b.position != c.position {
          StrLtTransitive(a.position, b.position, c.position);
          if a.position == c.position {
            StrLtAsymmetric(a.position, b.position);
          }
        }
      }
    }
  }

  lemma {:induction false} StrLtAsymmetric(a: string, b: string)
    ensures !(StrLt(a, b) && StrLt(b, a))
  {
    if StrLt(a, b) && StrLt(b, a) {
      StrLtTransitive(a, b, a);
      StrLtIrreflexive(a);
    }
  }

  lemma CellLtAsymmetric(a: Cell, b: Cell)
    ensures !(CellLt(a, b) && CellLt(b, a))
  {
    if a.Text? && b.Text? {
      StrLtAsymmetric(a.s, b.s);
    }
  }

  /** Rows each of which may precede the other agree on all four key columns. */
  lemma KeyLeAntisymmetric(a: TidyRow, b: TidyRow)
    requires KeyLe(a, b) && KeyLe(b, a)
    ensures a.title == b.title && a.sku == b.sku && a.position == b.position && a.quantity == b.quantity
  {
    CellLtAsymmetric(a.title, b.title);
    CellLtAsymmetric(a.sku, b.sku);
    StrLtAsymmetric(a.position, b.position);
  }
}
