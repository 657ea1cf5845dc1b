/**
 * The account table as values: the rows of the spreadsheet, the lookups the
 * handlers perform over its data rows, the single-cell write, the two
 * invariants the workflows keep, and what each kind of write does to them.
 *
 * Rows are numbered from 1 in the spreadsheet and from 0 in a `seq<Row>`;
 * row 0 of the sequence is the header and is never matched by a lookup.
 */
module Accounts {
  import opened Wrappers

  /** Spreadsheet column numbers (1-based), in the order of a row. */
  const NameColumn: nat := 1
  const PinHashColumn: nat := 2
  const ScreenshotColumn: nat := 3
  const ProgressColumn: nat := 4
  const ResetCodeColumn: nat := 5
  const ResetCodeHashColumn: nat := 6

  /** The progress written into a new account. */
  const InitialProgress: string := "0"

  /** One spreadsheet row: a trainer's account, or the header. */
  datatype Row = Row(
    name: string,
    pinHash: string,
    screenshotUrl: string,
    progress: string,
    resetCode: string,
    resetCodeHash: string)
  {
    /** The cell in column `col`. */
    function Cell(col: nat): string
      requires 1 <= col <= 6
    {
      if col == NameColumn then name
      else if col == PinHashColumn then pinHash
      else if col == ScreenshotColumn then screenshotUrl
      else if col == ProgressColumn then progress
      else if col == ResetCodeColumn then resetCode
      else resetCodeHash
    }

    /** The row with column `col` overwritten by `v` and every other column kept. */
    function WithCell(col: nat, v: string): (r: Row)
      requires 1 <= col <= 6
      ensures r.Cell(col) == v
      ensures forall c :: 1 <= c <= 6 && c != col ==> r.Cell(c) == Cell(c)
    {
      if col == NameColumn then this.(name := v)
      else if col == PinHashColumn then this.(pinHash := v)
      else if col == ScreenshotColumn then this.(screenshotUrl := v)
      else if col == ProgressColumn then this.(progress := v)
      else if col == ResetCodeColumn then this.(resetCode := v)
      else this.(resetCodeHash := v)
    }
  }

  /** The row `confirm` appends for a new trainer. */
  function NewAccount(hash: string -> string, name: string, pin: string,
                      resetCode: string, screenshotUrl: string): Row
  {
    Row(name, hash(pin), screenshotUrl, InitialProgress, resetCode, hash(resetCode))
  }

  /** What a handler looks for in the data rows. */
  datatype Key =
    | ByName(name: string)                          // registration, account management
    | ByPin(name: string, pinHash: string)          // login
    | ByResetCode(name: string, resetCodeHash: string)  // PIN reset

  predicate Matches(row: Row, key: Key) {
    match key
    case ByName(n) => row.name == n
    case ByPin(n, h) => row.name == n && row.pinHash == h
    case ByResetCode(n, h) => row.name == n && row.resetCodeHash == h
  }

  /** The first data row at position `from` or later that matches `key`. */
  function FindFrom(rows: seq<Row>, key: Key, from: nat): (r: Option<nat>)
    requires 1 <= from <= |rows|
    ensures r.Some? ==>
              && from <= r.value < |rows|
              && Matches(rows[r.value], key)
              && forall j :: from <= j < r.value ==> !Matches(rows[j], key)
    ensures r.None? ==> forall j :: from <= j < |rows| ==> !Matches(rows[j], key)
    decreases |rows| - from
  {
    if from == |rows| then None
    else if Matches(rows[from], key) then Some(from)
    else FindFrom(rows, key, from + 1)
  }

  /** `rows[1:]`: every row after the header, in order; an empty table
      has none. */
  function DataRows(rows: seq<Row>): (data: seq<Row>)
    ensures |data| == if |rows| == 0 then 0 else |rows| - 1
    ensures forall j :: 0 <= j < |data| ==> data[j] == rows[j + 1]
  {
    if |rows| == 0 then [] else rows[1..]
  }

  /** The position of the first data row matching `key`; the header is
      never matched, and an empty table has no data rows. */
  function Find(rows: seq<Row>, key: Key): (r: Option<nat>)
    ensures r.Some? ==>
              && 1 <= r.value < |rows|
              && Matches(rows[r.value], key)
              && forall j :: 1 <= j < r.value ==> !Matches(rows[j], key)
    ensures r.None? ==> forall j :: 1 <= j < |rows| ==> !Matches(rows[j], key)
  {
    if |rows| == 0 then None else FindFrom(rows, key, 1)
  }

  /** The scan each handler runs over `rows[1:]`: the data rows in order,
      stopping at the first that matches. */
  method Scan(rows: seq<Row>, key: Key) returns (found: Option<nat>)
    ensures found == Find(rows, key)
  {
    var data := DataRows(rows);
    for j := 0 to |data|
      invariant forall t :: 1 <= t <= j ==> !Matches(rows[t], key)
    {
      if Matches(data[j], key) {
        return Some(j + 1);
      }
    }
    return None;
  }

  /** The table after writing `v` into column `col` of spreadsheet row `row`
      (1-based): that one cell changes and nothing else. */
  function SetCell(rows: seq<Row>, row: nat, col: nat, v: string): (r: seq<Row>)
    requires 1 <= row <= |rows| && 1 <= col <= 6
    ensures |r| == |rows|
    ensures r[row - 1].Cell(col) == v
    ensures r[row - 1] == rows[row - 1].WithCell(col, v)
    ensures forall j :: 0 <= j < |rows| && j != row - 1 ==> r[j] == rows[j]
  {
    rows[row - 1 := rows[row - 1].WithCell(col, v)]
  }

  /** No two data rows carry the same trainer name. */
  ghost predicate UniqueNames(rows: seq<Row>) {
    forall i, j :: 1 <= i < j < |rows| ==> rows[i].name != rows[j].name
  }

  /** Every data row stores the digest of its own reset code. */
  ghost predicate ResetHashesMatch(rows: seq<Row>, hash: string -> string) {
    forall i :: 1 <= i < |rows| ==> rows[i].resetCodeHash == hash(rows[i].resetCode)
  }

  /** The two invariants of the account table. */
  ghost predicate Consistent(rows: seq<Row>, hash: string -> string) {
    UniqueNames(rows) && ResetHashesMatch(rows, hash)
  }

  /** Appending an account whose name no data row has, and which stores the
      digest of its reset code, keeps the table consistent. */
  lemma RegistrationKeepsConsistency(rows: seq<Row>, hash: string -> string, r: Row)
    requires Find(rows, ByName(r.name)).None?
    requires r.resetCodeHash == hash(r.resetCode)
    ensures Consistent(rows, hash) ==> Consistent(rows + [r], hash)
  {
    var rows' := rows + [r];
    if !Consistent(rows, hash) {
      return;
    }
    forall i, j | 1 <= i < j < |rows'|
      ensures rows'[i].name != rows'[j].name
    {
      if j == |rows| {
        assert !Matches(rows[i], ByName(r.name));
      }
    }
  }

  /** Overwriting the PIN digest of a data row keeps the table consistent. */
  lemma PinWriteKeepsConsistency(rows: seq<Row>, hash: string -> string, k: nat, pinHash: string)
    requires 1 <= k < |rows|
    ensures Consistent(rows, hash) ==> Consistent(SetCell(rows, k + 1, PinHashColumn, pinHash), hash)
  {
    var rows' := SetCell(rows, k + 1, PinHashColumn, pinHash);
    assert rows'[k].name == rows[k].name by {
      assert rows'[k].Cell(NameColumn) == rows[k].Cell(NameColumn);
    }
    assert rows'[k].resetCode == rows[k].resetCode by {
      assert rows'[k].Cell(ResetCodeColumn) == rows[k].Cell(ResetCodeColumn);
    }
    assert rows'[k].resetCodeHash == rows[k].resetCodeHash by {
      assert rows'[k].Cell(ResetCodeHashColumn) == rows[k].Cell(ResetCodeHashColumn);
    }
  }

  /** The table after writing a new memorable phrase `m` into column 5 of a
      data row, and then its digest into column 6. */
  function MemorableWrite(rows: seq<Row>, hash: string -> string, k: nat, m: string): seq<Row>
    requires 1 <= k < |rows|
  {
    SetCell(SetCell(rows, k + 1, ResetCodeColumn, m), k + 1, ResetCodeHashColumn, hash(m))
  }

  /** Writing a new memorable phrase together with its digest changes only
      those two cells of that row and keeps the table consistent. */
  lemma MemorableWriteKeepsConsistency(rows: seq<Row>, hash: string -> string, k: nat, m: string)
    requires 1 <= k < |rows|
    ensures var rows' := MemorableWrite(rows, hash, k, m);
      && |rows'| == |rows|
      && rows'[k] == rows[k].(resetCode := m, resetCodeHash := hash(m))
      && (forall j :: 0 <= j < |rows| && j != k ==> rows'[j] == rows[j])
      && (Consistent(rows, hash) ==> Consistent(rows', hash))
  {
    var mid := SetCell(rows, k + 1, ResetCodeColumn, m);
    var rows' := SetCell(mid, k + 1, ResetCodeHashColumn, hash(m));
    assert rows'[k].resetCode == m by {
      assert rows'[k].Cell(ResetCodeColumn) == mid[k].Cell(ResetCodeColumn);
    }
    assert rows'[k].resetCodeHash == hash(m) by {
      assert rows'[k].Cell(ResetCodeHashColumn) == hash(m);
    }
    assert rows'[k].name == rows[k].name by {
      assert rows'[k].Cell(NameColumn) == mid[k].Cell(NameColumn);
    }
    assert rows'[k].pinHash == rows[k].pinHash by {
      assert rows'[k].Cell(PinHashColumn) == mid[k].Cell(PinHashColumn);
    }
    assert rows'[k].screenshotUrl == rows[k].screenshotUrl by {
      assert rows'[k].Cell(ScreenshotColumn) == mid[k].Cell(ScreenshotColumn);
    }
    assert rows'[k].progress == rows[k].progress by {
      assert rows'[k].Cell(ProgressColumn) == mid[k].Cell(ProgressColumn);
    }
  }

  /** With unique names, looking a data row's name up finds that very row. */
  lemma UniqueNameLocates(rows: seq<Row>, k: nat)
    requires UniqueNames(rows)
    requires 1 <= k < |rows|
    ensures Find(rows, ByName(rows[k].name)) == Some(k)
  {
  }

  /** Once a trainer is appended to a table that has its header, a second
      registration under the same name finds the first and is refused. */
  lemma RegisteredNameIsTaken(rows: seq<Row>, r: Row)
    requires |rows| >= 1
    ensures Find(rows + [r], ByName(r.name)).Some?
  {
    assert Matches((rows + [r])[|rows|], ByName(r.name));
  }

  /** A newly appended trainer can log in with the PIN they registered. */
  lemma RegisteredCanLogIn(rows: seq<Row>, r: Row)
    requires |rows| >= 1
    requires Find(rows, ByName(r.name)).None?
    ensures Find(rows + [r], ByPin(r.name, r.pinHash)) == Some(|rows|)
  {
    var rows' := rows + [r];
    assert Matches(rows'[|rows|], ByPin(r.name, r.pinHash));
    forall j | 1 <= j < |rows|
      ensures !Matches(rows'[j], ByPin(r.name, r.pinHash))
    {
      assert !Matches(rows[j], ByName(r.name));
    }
  }

  /** After a row's PIN digest is overwritten, logging in under that row's
      name with the new digest succeeds. */
  lemma PinWriteEnablesLogin(rows: seq<Row>, k: nat, pinHash: string)
    requires 1 <= k < |rows|
    ensures Find(SetCell(rows, k + 1, PinHashColumn, pinHash), ByPin(rows[k].name, pinHash)).Some?
  {
    var rows' := SetCell(rows, k + 1, PinHashColumn, pinHash);
    assert rows'[k].name == rows[k].name by {
      assert rows'[k].Cell(NameColumn) == rows[k].Cell(NameColumn);
    }
    assert Matches(rows'[k], ByPin(rows[k].name, pinHash));
  }

  /** After a new memorable phrase is written, a PIN reset under that row's
      name with the new phrase is accepted. */
  lemma MemorableWriteEnablesReset(rows: seq<Row>, hash: string -> string, k: nat, m: string)
    requires 1 <= k < |rows|
    ensures Find(MemorableWrite(rows, hash, k, m), ByResetCode(rows[k].name, hash(m))).Some?
  {
    var mid := SetCell(rows, k + 1, ResetCodeColumn, m);
    var rows' := MemorableWrite(rows, hash, k, m);
    assert rows'[k].name == rows[k].name by {
      assert rows'[k].Cell(NameColumn) == mid[k].Cell(NameColumn);
    }
    assert rows'[k].resetCodeHash == hash(m) by {
      assert rows'[k].Cell(ResetCodeHashColumn) == hash(m);
    }
    assert Matches(rows'[k], ByResetCode(rows[k].name, hash(m)));
  }
}
