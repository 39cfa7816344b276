/** The worksheet the Excel export writes and the import reads, reduced to what
    the service uses of it: a sheet name and a grid of cells addressed by
    (row, column), both counted from 1. A cell holds text or a number; a cell
    that was never written is blank and is simply absent from the grid. */
module Sheets {
  import opened Wrappers
  import opened Domain
  import Text

  datatype Cell = Str(s: string) | Num(n: int)

  type Cells = map<(int, int), Cell>

  datatype Sheet = Sheet(name: string, cells: Cells)

  function At(cells: Cells, r: int, c: int): Option<Cell> {
    if (r, c) in cells then Some(cells[(r, c)]) else None
  }

  /** `Cell(r, c).GetString()`: the text of a text cell, the decimal form of a
      number, "" for a blank cell. */
  function GetString(cells: Cells, r: int, c: int): (s: string)
    ensures s != "" ==> (r, c) in cells
    ensures At(cells, r, c).None? ==> s == ""
    ensures At(cells, r, c).Some? && At(cells, r, c).value.Str? ==> s == At(cells, r, c).value.s
  {
    match At(cells, r, c)
    case None => ""
    case Some(Str(s)) => s
    case Some(Num(n)) => Text.IntToString(n)
  }

  /** A 32-bit number read as text parses back to the number. */
  lemma GetStringNumber(cells: Cells, r: int, c: int)
    requires At(cells, r, c).Some? && At(cells, r, c).value.Num? && Text.IsInt32(At(cells, r, c).value.n)
    ensures Text.ParseInt32(GetString(cells, r, c)) == Some(At(cells, r, c).value.n)
  {
    Text.ParseIntToString(At(cells, r, c).value.n);
  }

  /** `Cell(r, c).TryGetValue(out int v)`: a number that fits in 32 bits, or a
      text that reads as one. */
  function TryGetInt(cells: Cells, r: int, c: int): (v: Option<Int32>)
    ensures At(cells, r, c).Some? && At(cells, r, c).value.Num? && Text.IsInt32(At(cells, r, c).value.n)
      ==> v == Some(At(cells, r, c).value.n)
    ensures At(cells, r, c).None? ==> v.None?
  {
    match At(cells, r, c)
    case None => None
    case Some(Str(s)) => Text.ParseInt32(s)
    case Some(Num(n)) => if Text.IsInt32(n) then Some(n) else None
  }

  /** A character Excel refuses in a worksheet name. */
  predicate ForbiddenInSheetName(c: char) {
    c == ':' || c == '\\' || c == '/' || c == '?' || c == '*' || c == '[' || c == ']'
  }

  /** A name `Worksheets.Add` accepts: not empty, and none of the characters
      Excel refuses. */
  predicate ValidSheetName(name: string) {
    name != [] && forall i :: 0 <= i < |name| ==> !ForbiddenInSheetName(name[i])
  }

  /** The message of the `ArgumentException` `Worksheets.Add` raises for a
      name it refuses. */
  const InvalidSheetNameMessage: string := "Worksheet names cannot be empty or contain any of : \\ / ? * [ ]"

  /** The name given to `Worksheets.Add`: the name cut to Excel's
      31-character limit. It is accepted exactly when the name is not empty
      and its first 31 characters avoid the refused ones. */
  function SheetName(name: string): (r: string)
    ensures |r| == if |name| > 31 then 31 else |name|
    ensures r == name[..|r|]
    ensures ValidSheetName(r) <==>
      name != [] && forall i :: 0 <= i < |name| && i < 31 ==> !ForbiddenInSheetName(name[i])
  {
    if |name| > 31 then name[..31] else name
  }

  // Writing.

  /** Writes `vals` into row `r` from column `c` rightwards, one cell after
      the other. */
  function Written(m: Cells, r: int, c: int, vals: seq<Cell>): Cells {
    if vals == [] then m
    else Written(m, r, c, vals[..|vals| - 1])[(r, c + |vals| - 1) := vals[|vals| - 1]]
  }

  lemma WrittenSnoc(m: Cells, r: int, c: int, vals: seq<Cell>, v: Cell)
    ensures Written(m, r, c, vals + [v]) == Written(m, r, c, vals)[(r, c + |vals|) := v]
  {
    assert (vals + [v])[..|vals|] == vals;
  }

  /** Writing `a` then `b` after it is writing `a + b`. */
  lemma {:induction false} WrittenAppend(m: Cells, r: int, c: int, a: seq<Cell>, b: seq<Cell>)
    ensures Written(m, r, c, a + b) == Written(Written(m, r, c, a), r, c + |a|, b)
    decreases |b|
  {
    if b != [] {
      var init := b[..|b| - 1];
      WrittenAppend(m, r, c, a, init);
      assert (a + b)[..|a + b| - 1] == a + init;
    } else {
      assert a + b == a;
    }
  }

  /** After the writes, a cell of the row holds the value written there and
      every other cell what it held before. */
  lemma {:induction false} AtWritten(m: Cells, r: int, c: int, vals: seq<Cell>, r': int, c': int)
    ensures At(Written(m, r, c, vals), r', c')
         == if r' == r && c <= c' < c + |vals| then Some(vals[c' - c]) else At(m, r', c')
  {
    if vals != [] {
      AtWritten(m, r, c, vals[..|vals| - 1], r', c');
    }
  }

  /** Writes the rows of `rows` from row `top` downwards, each from column 1. */
  function Rows(m: Cells, top: int, rows: seq<seq<Cell>>): Cells {
    if rows == [] then m
    else Written(Rows(m, top, rows[..|rows| - 1]), top + |rows| - 1, 1, rows[|rows| - 1])
  }

  lemma RowsSnoc(m: Cells, top: int, rows: seq<seq<Cell>>, row: seq<Cell>)
    ensures Rows(m, top, rows + [row]) == Written(Rows(m, top, rows), top + |rows|, 1, row)
  {
    assert (rows + [row])[..|rows|] == rows;
  }

  lemma {:induction false} AtRows(m: Cells, top: int, rows: seq<seq<Cell>>, r': int, c': int)
    ensures At(Rows(m, top, rows), r', c')
         == if top <= r' < top + |rows| && 1 <= c' <= |rows[r' - top]| then Some(rows[r' - top][c' - 1])
            else At(m, r', c')
  {
    if rows != [] {
      var init := rows[..|rows| - 1];
      AtRows(m, top, init, r', c');
      AtWritten(Rows(m, top, init), top + |rows| - 1, 1, rows[|rows| - 1], r', c');
      if top <= r' < top + |init| {
        assert rows[r' - top] == init[r' - top];
      }
    }
  }

  function Strs(names: seq<string>): (r: seq<Cell>)
    ensures |r| == |names| && forall i :: 0 <= i < |names| ==> r[i] == Str(names[i])
  {
    if names == [] then [] else Strs(names[..|names| - 1]) + [Str(names[|names| - 1])]
  }

  // Reading.

  /** The written cells of row `r` from column `c` on. */
  function RowAhead(cells: Cells, r: int, c: int): set<(int, int)> {
    set k | k in cells.Keys && k.0 == r && k.1 >= c
  }

  /** The written cells of column `c` from row `r` down. */
  function ColumnAhead(cells: Cells, c: int, r: int): set<(int, int)> {
    set k | k in cells.Keys && k.1 == c && k.0 >= r
  }

  lemma RowAheadShrinks(cells: Cells, r: int, c: int)
    requires (r, c) in cells
    ensures |RowAhead(cells, r, c + 1)| < |RowAhead(cells, r, c)|
  {
    assert RowAhead(cells, r, c) == RowAhead(cells, r, c + 1) + {(r, c)};
  }

  lemma ColumnAheadShrinks(cells: Cells, c: int, r: int)
    requires (r, c) in cells
    ensures |ColumnAhead(cells, c, r + 1)| < |ColumnAhead(cells, c, r)|
  {
    assert ColumnAhead(cells, c, r) == ColumnAhead(cells, c, r + 1) + {(r, c)};
  }

  /** The texts of row `r` from column `c` up to the first empty cell. */
  function ReadRow(cells: Cells, r: int, c: int): (vals: seq<string>)
    ensures forall i :: 0 <= i < |vals| ==> vals[i] == GetString(cells, r, c + i) && vals[i] != ""
    decreases |RowAhead(cells, r, c)|
  {
    var v := GetString(cells, r, c);
    if v == "" then []
    else
      RowAheadShrinks(cells, r, c);
      [v] + ReadRow(cells, r, c + 1)
  }

  /** One step of reading a row: an empty cell ends it, a non-empty one is
      followed by the rest of the row. */
  lemma ReadRowStep(cells: Cells, r: int, c: int)
    ensures GetString(cells, r, c) == "" ==> ReadRow(cells, r, c) == []
    ensures GetString(cells, r, c) != "" ==>
      && |RowAhead(cells, r, c + 1)| < |RowAhead(cells, r, c)|
      && ReadRow(cells, r, c) == [GetString(cells, r, c)] + ReadRow(cells, r, c + 1)
  {
    if GetString(cells, r, c) != "" {
      RowAheadShrinks(cells, r, c);
    }
  }

  /** Reading stops exactly at the first empty cell: a row of non-empty texts
      followed by an empty cell reads back as those texts. */
  lemma {:induction false} ReadRowOf(cells: Cells, r: int, c: int, vals: seq<string>)
    requires forall i :: 0 <= i < |vals| ==> GetString(cells, r, c + i) == vals[i] && vals[i] != ""
    requires GetString(cells, r, c + |vals|) == ""
    ensures ReadRow(cells, r, c) == vals
    decreases |vals|
  {
    if vals != [] {
      assert GetString(cells, r, c) == vals[0];
      ReadRowOf(cells, r, c + 1, vals[1..]);
    }
  }

  /** The texts of column `c` from row `r` down to the first empty cell. */
  function ReadColumn(cells: Cells, c: int, r: int): (vals: seq<string>)
    ensures forall i :: 0 <= i < |vals| ==> vals[i] == GetString(cells, r + i, c) && vals[i] != ""
    decreases |ColumnAhead(cells, c, r)|
  {
    var v := GetString(cells, r, c);
    if v == "" then []
    else
      ColumnAheadShrinks(cells, c, r);
      [v] + ReadColumn(cells, c, r + 1)
  }

  /** Reading down stops exactly at the first empty cell. */
  lemma {:induction false} ReadColumnOf(cells: Cells, c: int, r: int, vals: seq<string>)
    requires forall i :: 0 <= i < |vals| ==> GetString(cells, r + i, c) == vals[i] && vals[i] != ""
    requires GetString(cells, r + |vals|, c) == ""
    ensures ReadColumn(cells, c, r) == vals
    decreases |vals|
  {
    if vals != [] {
      assert GetString(cells, r, c) == vals[0];
      ReadColumnOf(cells, c, r + 1, vals[1..]);
    }
  }

  // The import template.

  /** The workbook `GetImportTemplateAsync` produces: the version and a
      placeholder name in row 1, the date of `today` in row 2, the header
      row 4 with two categories, and one sample team with zero points. */
  function Template(version: string, today: string): Sheet {
    Sheet("Import", map[
      (1, 1) := Str(version), (1, 2) := Str("Quiz Name"),
      (2, 1) := Str("Date"), (2, 2) := Str(today),
      (4, 1) := Str("Team"), (4, 2) := Str("Category1"), (4, 3) := Str("Category2"),
      (5, 1) := Str("Team A"), (5, 2) := Num(0), (5, 3) := Num(0)])
  }
}
