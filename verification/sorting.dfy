/** `sort_values(["Titolo Prodotto", "SKU", "Posizione Stampa", "Quantità"])`. */
module Sorting {
  import opened Tidy

  predicate Sorted(xs: seq<TidyRow>) {
    forall i, j :: 0 <= i < j < |xs| ==> KeyLe(xs[i], xs[j])
  }

  function Insert(x: TidyRow, ys: seq<TidyRow>): (r: seq<TidyRow>)
    requires Sorted(ys)
    ensures Sorted(r)
    ensures multiset(r) == multiset(ys) + multiset{x}
  {
    if ys == [] then [x]
    else if KeyLe(x, ys[0]) then
      assert forall j :: 0 < j < |ys| ==> KeyLe(ys[0], ys[j]);
      assert forall j :: 0 <= j < |ys| ==> KeyLe(x, ys[j]) by {
        forall j | 0 <= j < |ys|
          ensures KeyLe(x, ys[j])
        {
          if j > 0 { KeyLeTransitive(x, ys[0], ys[j]); }
        }
      }
      assert ys == [ys[0]] + ys[1..];
      [x] + ys
    else
      KeyLeTotal(x, ys[0]);
      var rest := Insert(x, ys[1..]);
      assert ys == [ys[0]] + ys[1..];
      assert forall e :: e in rest ==> KeyLe(ys[0], e) by {
        forall e | e in rest
          ensures KeyLe(ys[0], e)
        {
          assert e in multiset(rest);
          assert e == x || e in multiset(ys[1..]);
        }
      }
      [ys[0]] + rest
  }

  function SortRows(xs: seq<TidyRow>): (r: seq<TidyRow>)
    ensures Sorted(r)
    ensures multiset(r) == multiset(xs)
  {
    if xs == [] then []
    else
      assert xs == [xs[0]] + xs[1..];
      Insert(xs[0], SortRows(xs[1..]))
  }

  /** Re-sorting an already sorted table changes nothing. */
  lemma {:induction false} SortRowsOfSortedIsIdentity(xs: seq<TidyRow>)
    requires Sorted(xs)
    ensures SortRows(xs) == xs
  {
    if xs != [] {
      assert Sorted(xs[1..]);
      SortRowsOfSortedIsIdentity(xs[1..]);
      assert xs == [xs[0]] + xs[1..];
    }
  }
}
