/**
 * Worksheet cell values as the report code sees them through openpyxl:
 * a string, a Python int, a Python float, or None for an empty cell.
 */
module Cells {
  import opened Text

  datatype Cell = Str(s: string) | IntV(i: int) | Num(r: real) | Blank

  /** The marker the report writes wherever a value is unavailable. */
  const NA: string := "N/A"

  /** `isinstance(value, (int, float))`. */
  predicate IsNumber(c: Cell) {
    c.IntV? || c.Num?
  }

  function NumberOf(c: Cell): real
    requires IsNumber(c)
  {
    if c.IntV? then c.i as real else c.r
  }

  /** `value > 0` for a numeric cell value. */
  predicate IsPositive(c: Cell) {
    IsNumber(c) && NumberOf(c) > 0.0
  }

  /**
   * Column `c` (0-based) of a row. openpyxl answers a read past the last
   * written cell with an empty cell, so rows behave as if padded with None.
   */
  function CellAt(row: seq<Cell>, c: nat): Cell {
    if c < |row| then row[c] else Blank
  }

  /** A row padded with empty cells to at least `width` cells, as `iter_rows(values_only=True)` yields it. */
  function Pad(row: seq<Cell>, width: nat): (r: seq<Cell>)
    ensures |r| == if |row| < width then width else |row|
    ensures forall c: nat :: CellAt(r, c) == CellAt(row, c)
  {
    if |row| < width then row + seq(width - |row|, _ => Blank) else row
  }

  /**
   * Python's `str(value)`. How Python prints a float is not modelled: it is
   * the parameter `floatRepr`.
   */
  function PyStr(c: Cell, floatRepr: real -> string): string {
    match c
    case Str(s) => s
    case IntV(i) => IntToDecimal(i)
    case Num(r) => floatRepr(r)
    case Blank => "None"
  }

  /** `len(str(value))` for a non-empty cell and 0 for an empty one, the quantity column sizing maximises. */
  function TextLength(c: Cell, floatRepr: real -> string): nat {
    if c.Blank? then 0 else |PyStr(c, floatRepr)|
  }
}
