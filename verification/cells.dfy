/** Spreadsheet cells as the loader sees them after the sheet has been read
    into a data frame: a missing value (NaN), a text value, an integer from an
    integer-typed column, or a whole number from a float-typed column (an
    integer column that also has blank cells is read as floats). The loader
    only ever looks at a cell through three views: `pd.isna`, `str` and `int`. */
module Cells {
  import opened Wrappers
  import opened Text

  datatype Cell = Blank | Str(text: string) | Int(n: int) | WholeFloat(whole: FloatWhole)

  /** The whole numbers `str` writes in positional notation: from 1e16 on,
      Python writes a float with an exponent ("1e+16"). */
  type FloatWhole = n: int | -10_000_000_000_000_000 < n < 10_000_000_000_000_000

  type Row = seq<Cell>

  /** `pd.isna(v)` */
  predicate IsNa(c: Cell) {
    c.Blank?
  }

  /** `str(v)`: a missing value renders as "nan", a float keeps its ".0". */
  function Render(c: Cell): (r: string)
    ensures c.Blank? ==> r == "nan"
    ensures c.Str? ==> r == c.text
    ensures c.Int? ==> r == IntToString(c.n) && ParseInt(r) == Some(c.n)
    ensures c.WholeFloat? ==> r == IntToString(c.whole) + ".0"
    ensures c.WholeFloat? ==> |r| > 2 && r[|r| - 2..] == ".0" && ParseInt(r[..|r| - 2]) == Some(c.whole)
  {
    match c
    case Blank => "nan"
    case Str(s) => s
    case Int(n) => ParseIntOfIntToString(n); IntToString(n)
    case WholeFloat(n) =>
      var d := IntToString(n);
      ParseIntOfIntToString(n);
      assert (d + ".0")[..|d|] == d;
      d + ".0"
  }

  /** `int(v)`: numbers convert exactly, text goes through Python's integer
      parser, and `int(nan)` raises (`None`). */
  function ToInt(c: Cell): (r: Option<int>)
    ensures c.Blank? ==> r.None?
    ensures c.Int? ==> r == Some(c.n)
    ensures c.WholeFloat? ==> r == Some(c.whole)
    ensures c.Int? ==> r == ParseInt(Render(c))
    ensures c.Str? ==> r == ParseInt(c.text)
  {
    match c
    case Blank => None
    case Str(s) => ParseInt(s)
    case Int(n) => Some(n)
    case WholeFloat(n) => Some(n)
  }
}
