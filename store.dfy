/**
 * The spreadsheet that holds the accounts, as the handlers use it: read every
 * row, append a row at the end, overwrite one cell addressed by 1-based row
 * and column numbers.
 */
module Store {
  import opened Accounts

  class Sheet {
    /** Every row of the worksheet, the header first. */
    var rows: seq<Row>

    constructor (initial: seq<Row>)
      ensures rows == initial
    {
      rows := initial;
    }

    /** `get_all_values()`: a snapshot of the table; reading changes nothing,
        so two reads with no write between them give the same rows. */
    method GetAllValues() returns (snapshot: seq<Row>)
      ensures snapshot == rows
    {
      snapshot := rows;
    }

    /** `append_row(r)`: `r` becomes the last row, every earlier row is kept. */
    method AppendRow(r: Row)
      modifies this
      ensures rows == old(rows) + [r]
    {
      rows := rows + [r];
    }

    /** `update_cell(row, col, v)`: only that cell changes. */
    method UpdateCell(row: nat, col: nat, v: string)
      requires 1 <= row <= |rows| && 1 <= col <= 6
      modifies this
      ensures rows == SetCell(old(rows), row, col, v)
    {
      rows := rows[row - 1 := rows[row - 1].WithCell(col, v)];
    }
  }
}
