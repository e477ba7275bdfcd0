/** Generic facts about sequences. */
module Seqs {

  /**
   * True iff `xs` can be obtained from `ys` by deleting elements (order
   * kept), checked by matching each element of `xs` to its earliest
   * occurrence in what remains of `ys`.
   */
  predicate IsSubsequence<T(==)>(xs: seq<T>, ys: seq<T>)
    decreases |ys|
  {
    if xs == [] then true
    else if ys == [] then false
    else if xs[0] == ys[0] then IsSubsequence(xs[1..], ys[1..])
    else IsSubsequence(xs, ys[1..])
  }

  /** A subsequence stays one when an element is put in front of the larger sequence. */
  lemma {:induction false} SubsequenceOfCons<T>(xs: seq<T>, y: T, ys: seq<T>)
    requires IsSubsequence(xs, ys)
    ensures IsSubsequence(xs, [y] + ys)
    decreases |ys|, 1
  {
    assert ([y] + ys)[1..] == ys;
    if xs != [] && xs[0] == y {
      SubsequenceDropFirst(xs, ys);
    }
  }

  /** Dropping the first element of a subsequence leaves a subsequence. */
  lemma {:induction false} SubsequenceDropFirst<T>(xs: seq<T>, ys: seq<T>)
    requires xs != [] && IsSubsequence(xs, ys)
    ensures IsSubsequence(xs[1..], ys)
    decreases |ys|, 0
  {
    assert ys == [ys[0]] + ys[1..];
    if xs[0] == ys[0] {
      SubsequenceOfCons(xs[1..], ys[0], ys[1..]);
    } else {
      SubsequenceDropFirst(xs, ys[1..]);
      SubsequenceOfCons(xs[1..], ys[0], ys[1..]);
    }
  }

  /** The concatenation f(i) + f(i + 1) + ... + f(n - 1). */
  function ConcatRange<T>(f: nat -> seq<T>, i: nat, n: nat): seq<T>
    decreases n - i
  {
    if i >= n then [] else f(i) + ConcatRange(f, i + 1, n)
  }

  /** Everything in a part is in the concatenation. */
  lemma {:induction false} PartInConcatRange<T>(f: nat -> seq<T>, i: nat, k: nat, n: nat, x: T)
    requires i <= k < n
    requires x in f(k)
    ensures x in ConcatRange(f, i, n)
    decreases k - i
  {
    if i < k {
      PartInConcatRange(f, i + 1, k, n, x);
    }
  }

  /** Everything in the concatenation comes from some part. */
  lemma {:induction false} ConcatRangeFromPart<T>(f: nat -> seq<T>, i: nat, n: nat, x: T) returns (k: nat)
    requires x in ConcatRange(f, i, n)
    ensures i <= k < n && x in f(k)
    decreases n - i
  {
    if x in f(i) {
      k := i;
    } else {
      k := ConcatRangeFromPart(f, i + 1, n, x);
    }
  }

  /** Empty parts concatenate to nothing. */
  lemma {:induction false} ConcatRangeOfEmptyParts<T>(f: nat -> seq<T>, i: nat, n: nat)
    requires forall k :: i <= k < n ==> f(k) == []
    ensures ConcatRange(f, i, n) == []
    decreases n - i
  {
    if i < n {
      ConcatRangeOfEmptyParts(f, i + 1, n);
    }
  }

  /** Concatenations of parts that agree are equal. */
  lemma {:induction false} ConcatRangeCongruent<T>(f: nat -> seq<T>, g: nat -> seq<T>, i: nat, n: nat)
    requires forall k :: i <= k < n ==> f(k) == g(k)
    ensures ConcatRange(f, i, n) == ConcatRange(g, i, n)
    decreases n - i
  {
    if i < n {
      ConcatRangeCongruent(f, g, i + 1, n);
    }
  }
}
