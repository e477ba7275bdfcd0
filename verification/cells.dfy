/**
 * Spreadsheet cells and the scalar conversions the parser applies to them:
 * `int(float(v))` for quantities, `round(float(v), 2)` for prices and
 * `str(v).strip()` for print positions.
 */
module Cells {
  import opened Wrappers

  /** A cell as pandas hands it over: blank (NaN/None), a number, or text. */
  datatype Cell = Empty | Num(x: real) | Text(s: string)

  /**
   * The two conversions whose exact behaviour belongs to Python and is not
   * modelled: `float(s)` on a text cell (None when it raises) and `str(x)`
   * on a numeric cell.
   */
  datatype Conversions = Conversions(parseNum: string -> Option<real>, showNum: real -> string)

  /** `float(v)` on a cell that passed `pd.notna`; None when `float` raises. */
  function ToNumber(conv: Conversions, c: Cell): Option<real>
  {
    match c
    case Empty => None
    case Num(x) => Some(x)
    case Text(s) => conv.parseNum(s)
  }

  /** `int(x)` on a float: truncation toward zero. */
  function Trunc(x: real): (q: int)
    ensures 0.0 <= x ==> q as real <= x < q as real + 1.0
    ensures x < 0.0 ==> q as real - 1.0 < x <= q as real
  {
    if x >= 0.0 then x.Floor else -((-x).Floor)
  }

  /** `r` is a whole number of hundredths. */
  predicate IsCents(r: real) {
    (r * 100.0).Floor as real == r * 100.0
  }

  /**
   * `round(x, 2)`: the nearest multiple of 0.01, ties going to the even
   * number of hundredths.
   */
  function Round2(x: real): (r: real)
    ensures IsCents(r)
    ensures -0.5 <= x * 100.0 - r * 100.0 <= 0.5
    ensures (x * 100.0 - r * 100.0 == 0.5 || r * 100.0 - x * 100.0 == 0.5) ==> (r * 100.0).Floor % 2 == 0
  {
    var scaled := x * 100.0;
    var f := scaled.Floor;
    var frac := scaled - f as real;
    var cents := if frac < 0.5 then f else if frac > 0.5 then f + 1 else if f % 2 == 0 then f else f + 1;
    cents as real / 100.0
  }

  /** The characters Python's `str.isspace` accepts, which `str.strip()` removes. */
  predicate IsSpace(c: char) {
    var n := c as int;
    || 9 <= n <= 13
    || 28 <= n <= 32
    || n == 0x85
    || n == 0xA0
    || n == 0x1680
    || 0x2000 <= n <= 0x200A
    || n == 0x2028
    || n == 0x2029
    || n == 0x202F
    || n == 0x205F
    || n == 0x3000
  }

  predicate AllSpace(s: string) {
    forall i :: 0 <= i < |s| ==> IsSpace(s[i])
  }

  /** Where `s.lstrip()` starts: the length of the leading whitespace of `s` from index `a` on. */
  function StripStart(s: string, a: nat): (b: nat)
    requires a <= |s|
    ensures a <= b <= |s|
    ensures forall i :: a <= i < b ==> IsSpace(s[i])
    ensures b == |s| || !IsSpace(s[b])
    decreases |s| - a
  {
    if a < |s| && IsSpace(s[a]) then StripStart(s, a + 1) else a
  }

  /** Where `s.rstrip()` ends, searching backwards from `e` but not past `a`. */
  function StripEnd(s: string, a: nat, e: nat): (b: nat)
    requires a <= e <= |s|
    ensures a <= b <= e
    ensures forall i :: b <= i < e ==> IsSpace(s[i])
    ensures b == a || !IsSpace(s[b - 1])
    decreases e
  {
    if a < e && IsSpace(s[e - 1]) then StripEnd(s, a, e - 1) else e
  }

  /**
   * `s.strip()`: the slice of `s` between a whitespace prefix and a
   * whitespace suffix that neither starts nor ends with whitespace.
   */
  function Trim(s: string): (r: string)
    ensures r == [] || (!IsSpace(r[0]) && !IsSpace(r[|r| - 1]))
    ensures exists a :: 0 <= a && a + |r| <= |s| && r == s[a..a + |r|] && AllSpace(s[..a]) && AllSpace(s[a + |r|..])
  {
    var a := StripStart(s, 0);
    var b := StripEnd(s, a, |s|);
    assert AllSpace(s[..a]);
    assert AllSpace(s[b..]);
    s[a..b]
  }

  /** Stripping twice is stripping once. */
  lemma TrimIdempotent(s: string)
    ensures Trim(Trim(s)) == Trim(s)
  {
    var r := Trim(s);
    assert StripStart(r, 0) == 0;
    assert StripEnd(r, 0, |r|) == |r|;
    assert r[0..|r|] == r;
  }

  /** `str(v)` of a non-blank cell. */
  function Show(conv: Conversions, c: Cell): string
    requires !c.Empty?
  {
    match c
    case Num(x) => conv.showNum(x)
    case Text(s) => s
  }
}
