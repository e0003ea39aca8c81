/**
 * Worksheet cells as the spreadsheet reader hands them to the extractors:
 * a number (with the text Python's str() gives for it), a string, or an
 * empty cell (None). A sheet is a sequence of rows of cells.
 */
module Cells {

  datatype Cell = Num(value: real, text: string) | Str(s: string) | Empty

  type Row = seq<Cell>

  /** Python truthiness of a cell value: a non-zero number or a non-empty string. */
  predicate Truthy(c: Cell) {
    match c
    case Num(x, _) => x != 0.0
    case Str(s) => s != ""
    case Empty => false
  }

  /** row[j]; a rectangular sheet pads short rows with empty cells. */
  function At(row: Row, j: int): Cell {
    if 0 <= j < |row| then row[j] else Empty
  }

  /** str(c). */
  function CellText(c: Cell): string {
    match c
    case Num(_, t) => t
    case Str(s) => s
    case Empty => "None"
  }

  /** `c in values` for a list of integers: only a number equal to one of them matches. */
  predicate OneOf(c: Cell, values: seq<int>) {
    c.Num? && exists v :: v in values && c.value == v as real
  }

  /** The listed integer that a matching cell equals (its int()). */
  function Whole(c: Cell, values: seq<int>): (v: int)
    requires OneOf(c, values)
    ensures v in values && c.value == v as real
  {
    WholeFloor(c.value, values);
    c.value.Floor
  }

  lemma WholeFloor(x: real, values: seq<int>)
    requires exists v :: v in values && x == v as real
    ensures x.Floor in values && x == x.Floor as real
  {
    var v :| v in values && x == v as real;
    assert x.Floor == v;
  }

  /** `isinstance(c, (int, float)) and 0 < c <= 1`: a usable residual rate. */
  predicate IsRate(c: Cell) {
    c.Num? && 0.0 < c.value <= 1.0
  }

  /** The cell at sheet row r and column c, both counted from 1 (ws.cell(r, c).value). */
  function CellAt(grid: seq<Row>, r: int, c: int): Cell {
    if 1 <= r <= |grid| then At(grid[r - 1], c - 1) else Empty
  }

  /** Columns c0 .. c1 of sheet row r, counted from 1, as iter_rows() yields them for that window. */
  function Region(grid: seq<Row>, r: int, c0: int, c1: int): (cells: Row)
    ensures |cells| == if c1 >= c0 then c1 - c0 + 1 else 0
    ensures forall k :: 0 <= k < |cells| ==> cells[k] == CellAt(grid, r, c0 + k)
  {
    seq(if c1 >= c0 then c1 - c0 + 1 else 0, k => CellAt(grid, r, c0 + k))
  }
}
