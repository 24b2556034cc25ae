/** Rows, what they cost in memory, and what either reader hands back. */
module Rows {
  import opened Basics

  /** A cell: a text, or nothing. */
  type Cell = Option<Text>

  /** Most fields a CSV record, and most keys a JSON document, may carry. */
  const MAX_FIELDS: nat := 4096

  /** The size of an empty cell, 64 bits wide. */
  const CELL_OVERHEAD: nat := 16

  /** The size of an empty row, 64 bits wide. */
  const ROW_OVERHEAD: nat := 32

  datatype Fault =
    | FieldTooLong
    | TooManyFields
    | NotUtf8
    | TextAfterQuote
    | NeverClosed
    | Width(found: nat, expected: nat)

  datatype TableError =
    | Malformed(line: nat, fault: Fault)
    | OverResidentCeiling(ceiling: nat)
    | NotAnObject(element: nat)
    | NotAnArray
    | TooManyKeys
    | NamesRequired
    | NoNames
    | Empty
    | UnknownColumn
    | NoKeyColumn

  /** Names found in the file, or stated. */
  datatype Schema = Auto | Named(names: seq<Text>)

  /** What either reader makes of a file, with its saturated charge. */
  datatype Parsed = Parsed(columns: seq<Text>, rows: seq<seq<Cell>>, held: nat)

  /** An empty text is no cell value at all. */
  function CellOfText(text: Text): Cell {
    if text == [] then None else Some(text)
  }

  function CellsOfTexts(fields: seq<Text>): seq<Cell> {
    seq(|fields|, i requires 0 <= i < |fields| => CellOfText(fields[i]))
  }

  function CellCost(cell: Cell): nat {
    (if cell.Some? then |cell.value| else 0) + CELL_OVERHEAD
  }

  function CellsCost(row: seq<Cell>): nat {
    if row == [] then 0 else CellsCost(row[..|row| - 1]) + CellCost(row[|row| - 1])
  }

  /** The charge of one row. */
  function Footprint(row: seq<Cell>): nat {
    CellsCost(row) + ROW_OVERHEAD
  }

  function RowsCost(rows: seq<seq<Cell>>): nat {
    if rows == [] then 0 else RowsCost(rows[..|rows| - 1]) + Footprint(rows[|rows| - 1])
  }

  /** The cells of some rows, and the bytes of their texts. */
  function CellCount(rows: seq<seq<Cell>>): nat {
    if rows == [] then 0 else CellCount(rows[..|rows| - 1]) + |rows[|rows| - 1]|
  }

  function TextBytes(row: seq<Cell>): nat {
    if row == [] then 0
    else TextBytes(row[..|row| - 1]) + if row[|row| - 1].Some? then |row[|row| - 1].value| else 0
  }

  function AllTextBytes(rows: seq<seq<Cell>>): nat {
    if rows == [] then 0 else AllTextBytes(rows[..|rows| - 1]) + TextBytes(rows[|rows| - 1])
  }

  lemma {:induction false} RowCostIs(row: seq<Cell>)
    ensures CellsCost(row) == TextBytes(row) + 16 * |row|
  {
    if row != [] {
      RowCostIs(row[..|row| - 1]);
    }
  }

  /** Rows are charged every byte of their texts, 16 bytes a cell, absent ones too, and 32 bytes a row. */
  lemma {:induction false} RowsCostIs(rows: seq<seq<Cell>>)
    ensures RowsCost(rows) == AllTextBytes(rows) + 16 * CellCount(rows) + 32 * |rows|
  {
    if rows != [] {
      RowsCostIs(rows[..|rows| - 1]);
      RowCostIs(rows[|rows| - 1]);
    }
  }

  lemma RowsCostSnoc(rows: seq<seq<Cell>>, row: seq<Cell>)
    ensures RowsCost(rows + [row]) == RowsCost(rows) + Footprint(row)
  {
    assert (rows + [row])[..|rows|] == rows;
  }
}
