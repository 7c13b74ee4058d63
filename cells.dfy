/** Spreadsheet cell values as the spreadsheet reader hands them over
    (`sheet_to_json` with `header: 1`): each sheet is a name and a grid of rows,
    each row an array whose entries may be missing. */
module Cells {
  /** The text `String(n)` gives for a JavaScript number; never empty. */
  type NumberText = s: string | |s| > 0 witness "0"

  datatype Cell =
    | Absent                 // a hole in the row array, or an index past its end (`undefined`)
    | Null
    | Str(s: string)
    | Num(shown: NumberText) // a number, kept as the text `String()` gives for it
    | Bool(b: bool)

  type Row = seq<Cell>

  datatype Sheet = Sheet(name: string, data: seq<Row>)

  /** JavaScript truthiness: undefined, null, '', false, 0, -0 and NaN are falsy.
      `String()` maps exactly the numbers 0, -0 and NaN to "0" or "NaN". */
  predicate Falsy(c: Cell)
  {
    match c
    case Absent => true
    case Null => true
    case Str(s) => s == ""
    case Num(shown) => shown == "0" || shown == "NaN"
    case Bool(b) => !b
  }

  /** `String(c)`. */
  function Stringify(c: Cell): string
  {
    match c
    case Absent => "undefined"
    case Null => "null"
    case Str(s) => s
    case Num(shown) => shown
    case Bool(b) => if b then "true" else "false"
  }

  /** The table converter's `String(c || '')`: every falsy value becomes the
      empty string, and only falsy values do. */
  function CellText(c: Cell): (r: string)
    ensures r == "" <==> Falsy(c)
    ensures !Falsy(c) ==> r == Stringify(c)
  {
    if Falsy(c) then "" else Stringify(c)
  }

  /** How `Array.prototype.join` and `c ?? ''` render a cell: only undefined and
      null become the empty string; 0 and false keep their text. */
  function JoinText(c: Cell): (r: string)
    ensures r == "" <==> (c.Absent? || c.Null? || c == Str(""))
    ensures !(c.Absent? || c.Null?) ==> r == Stringify(c)
  {
    if c.Absent? || c.Null? then "" else Stringify(c)
  }

  /** The two renderings differ exactly on the falsy values that still have text. */
  lemma RenderingsDiffer(c: Cell)
    ensures CellText(c) != JoinText(c) <==> (c == Bool(false) || (c.Num? && Falsy(c)))
  {
  }

  /** `row[col]`, which is `undefined` past the end of the row. */
  function CellAt(row: Row, col: nat): (c: Cell)
    ensures col >= |row| ==> c == Absent
    ensures col < |row| ==> c == row[col]
  {
    if col < |row| then row[col] else Absent
  }
}
