/** What the emitted tables satisfy, for every document: disjoint cells inside the grid, each at the first
    free column, within the limits; and no warning exactly when every visible table was emitted. */
module HtmlGrid {
  import opened Outcomes
  import opened HtmlTables

  // --- Places in the grid --------------------------------------------------------------------------------

  /** The rectangle of a cell. */
  datatype Place = Place(row: nat, column: nat, rowSpan: nat, columnSpan: nat)

  predicate Covers(a: Place, r: nat, c: nat)
  {
    a.row <= r < a.row + a.rowSpan && a.column <= c < a.column + a.columnSpan
  }

  ghost predicate Covered(ps: seq<Place>, r: nat, c: nat)
  {
    exists k | 0 <= k < |ps| :: Covers(ps[k], r, c)
  }

  predicate InGrid(a: Place)
  {
    && 1 <= a.row && 1 <= a.rowSpan && a.row + a.rowSpan <= MaxRows + 1
    && 1 <= a.column && 1 <= a.columnSpan && a.column + a.columnSpan <= MaxColumns + 1
  }

  /** Where the search for a free column starts: after the previous cell of the row, or at the first column. */
  function Cursor(ps: seq<Place>, row: nat): nat
  {
    if ps != [] && ps[|ps| - 1].row == row then ps[|ps| - 1].column + ps[|ps| - 1].columnSpan else 1
  }

  /** A cell follows `ps`: its column is the first free one from the cursor on, and its rectangle is free. */
  ghost predicate Follows(ps: seq<Place>, a: Place)
  {
    && InGrid(a) && Cursor(ps, a.row) <= a.column
    && (forall c: nat | Cursor(ps, a.row) <= c < a.column :: Covered(ps, a.row, c))
    && (forall r: nat, c: nat | Covers(a, r, c) :: !Covered(ps, r, c))
  }

  ghost predicate WellPlaced(ps: seq<Place>)
  {
    ps == [] || (WellPlaced(ps[..|ps| - 1]) && Follows(ps[..|ps| - 1], ps[|ps| - 1]))
  }

  /** Cells of a table never overlap. */
  lemma {:induction false} PlacesAreDisjoint(ps: seq<Place>, i: nat, j: nat, r: nat, c: nat)
    requires WellPlaced(ps) && i < j < |ps|
    ensures !(Covers(ps[i], r, c) && Covers(ps[j], r, c))
  {
    var init := ps[..|ps| - 1];
    if j < |ps| - 1 {
      PlacesAreDisjoint(init, i, j, r, c);
    } else if Covers(ps[j], r, c) {
      assert !Covered(init, r, c);
      assert init[i] == ps[i];
    }
  }

  function PlaceOf(row: nat, cell: Cell): Place
  {
    Place(row, cell.column, cell.rowSpan, cell.columnSpan)
  }

  function InRow(row: Row): seq<Place>
  {
    seq(|row.cells|, i requires 0 <= i < |row.cells| => PlaceOf(row.rowIndex, row.cells[i]))
  }

  /** The places of the cells of some rows, in reading order. */
  function Places(rows: seq<Row>): seq<Place>
  {
    if rows == [] then [] else Places(rows[..|rows| - 1]) + InRow(rows[|rows| - 1])
  }

  function InOpenRow(row: Option<Row>, cell: Option<Cell>): seq<Place>
  {
    match row
    case None => []
    case Some(row) => InRow(row) + (if cell.Some? then [PlaceOf(row.rowIndex, cell.value)] else [])
  }

  /** The places of the cells of the table being read. */
  function Current(table: Table, row: Option<Row>, cell: Option<Cell>): seq<Place>
  {
    Places(table.rows) + InOpenRow(row, cell)
  }

  /** From row `n` down, the column map says exactly which places are covered. */
  ghost predicate Matches(occupied: map<nat, nat>, ps: seq<Place>, n: nat)
  {
    forall r: nat, c: nat | r >= n :: Covered(ps, r, c) <==> Last(occupied, c) >= r
  }

  lemma CoveredAppend(ps: seq<Place>, a: Place, r: nat, c: nat)
    ensures Covered(ps + [a], r, c) <==> Covered(ps, r, c) || Covers(a, r, c)
  {
    if Covered(ps, r, c) {
      var k :| 0 <= k < |ps| && Covers(ps[k], r, c);
      assert (ps + [a])[k] == ps[k];
    }
    assert (ps + [a])[|ps|] == a;
  }

  /** The column map finds the free place the definition asks for, and stays exact. */
  lemma PlaceNext(occupied: map<nat, nat>, ps: seq<Place>, a: Place)
    requires WellPlaced(ps) && Matches(occupied, ps, a.row) && InGrid(a)
    requires a.column == FirstFree(occupied, Cursor(ps, a.row), a.row)
    requires AllFree(occupied, a.column, a.column + a.columnSpan, a.row)
    ensures WellPlaced(ps + [a])
    ensures Matches(Occupy(occupied, a.column, a.column + a.columnSpan, a.row + a.rowSpan - 1), ps + [a], a.row)
    ensures Cursor(ps + [a], a.row) == a.column + a.columnSpan
  {
    hide Covered, Occupy, FirstFree;
    var end, last := a.column + a.columnSpan, a.row + a.rowSpan - 1;
    assert (ps + [a])[..|ps|] == ps;
    forall r: nat, c: nat | Covers(a, r, c) ensures !Covered(ps, r, c) {
      assert Last(occupied, c) < a.row;
    }
    var after := Occupy(occupied, a.column, end, last);
    forall r: nat, c: nat | r >= a.row ensures Covered(ps + [a], r, c) <==> Last(after, c) >= r {
      CoveredAppend(ps, a, r, c);
    }
  }

  // --- The invariant -----------------------------------------------------------------------------------------

  ghost predicate Numbered(rows: seq<Row>)
  {
    |rows| <= MaxRows && forall i | 0 <= i < |rows| :: rows[i].rowIndex == i + 1
  }

  ghost predicate ShortRow(row: Row)
  {
    forall j | 0 <= j < |row.cells| :: |row.cells[j].text| <= MaxCellText
  }

  ghost predicate ShortTexts(rows: seq<Row>)
  {
    forall i | 0 <= i < |rows| :: ShortRow(rows[i])
  }

  /** An emitted table. */
  ghost predicate TableOk(t: Table)
  {
    && 1 <= t.tableIndex <= MaxTables && (t.tableId.Some? ==> |t.tableId.value| <= MaxTableId)
    && Numbered(t.rows) && WellPlaced(Places(t.rows)) && ShortTexts(t.rows) && |t.caption| <= MaxCaption
  }

  /** The places of the table being read, and what is known of them. */
  ghost predicate GridOk(table: Table, row: Option<Row>, cell: Option<Cell>, occupied: map<nat, nat>, column: nat)
  {
    var ps, n := Current(table, row, cell), |table.rows| + 1;
    && Numbered(table.rows) && WellPlaced(ps) && Matches(occupied, ps, n)
    && (row.Some? ==> row.value.rowIndex == n && n <= MaxRows && column == Cursor(ps, n))
    && (row.None? && ps != [] ==> ps[|ps| - 1].row < n)
  }

  ghost predicate TextsOk(table: Table, row: Option<Row>, cell: Option<Cell>)
  {
    && ShortTexts(table.rows) && (row.Some? ==> ShortRow(row.value))
    && (cell.Some? ==> |cell.value.text| <= MaxCellText) && |table.caption| <= MaxCaption
  }

  predicate Live(p: Parser)
  {
    p.depth == 1 && !p.invalid && p.table.Some?
  }

  ghost predicate Sound(p: Parser)
  {
    && Open(p) && (p.depth >= 2 ==> p.invalid)
    && (forall i | 0 <= i < |p.tables| :: TableOk(p.tables[i]))
    && (Live(p) ==> var t := p.table.value;
          GridOk(t, p.row, p.cell, p.occupied, p.column) && TextsOk(t, p.row, p.cell)
          && 1 <= t.tableIndex <= MaxTables && (t.tableId.Some? ==> |t.tableId.value| <= MaxTableId))
  }

  // --- Each handler keeps it -----------------------------------------------------------------------------------

  lemma OpenRowKeepsGrid(p: Parser)
    requires Sound(p) && Live(p)
    ensures Sound(OpenRow(p, p.table.value))
  {
    var t, q := p.table.value, OpenRow(p, p.table.value);
    if Live(q) {
      assert Current(t, q.row, q.cell) == Current(t, p.row, p.cell);
    }
    hide WellPlaced, Matches, Places, TableOk;
  }

  lemma OpenCellGrid(t: Table, row: Row, occupied: map<nat, nat>, cursor: nat, cell: Cell)
    requires GridOk(t, Some(row), None, occupied, cursor) && InGrid(PlaceOf(row.rowIndex, cell))
    requires cell.column == FirstFree(occupied, cursor, row.rowIndex)
    requires AllFree(occupied, cell.column, cell.column + cell.columnSpan, row.rowIndex)
    ensures GridOk(t, Some(row), Some(cell),
                   Occupy(occupied, cell.column, cell.column + cell.columnSpan, row.rowIndex + cell.rowSpan - 1),
                   cell.column + cell.columnSpan)
  {
    hide WellPlaced, Matches, Places, InRow, FirstFree, Occupy, AllFree;
    var ps, place := Current(t, Some(row), None), PlaceOf(row.rowIndex, cell);
    assert Current(t, Some(row), Some(cell)) == ps + [place];
    PlaceNext(occupied, ps, place);
  }

  lemma OpenCellKeepsGrid(p: Parser, tag: string, a: Attributes)
    requires Sound(p) && Live(p)
    ensures Sound(OpenCell(p, tag, a))
  {
    hide GridOk, TableOk, FirstFree, Occupy, AllFree, ShortTexts;
    var q := OpenCell(p, tag, a);
    if Live(q) {
      assert p.row.value.rowIndex > 0;
      FirstFreeIsPositive(p.table.value, p.row, p.occupied, p.column);
      OpenCellGrid(p.table.value, p.row.value, p.occupied, p.column, q.cell.value);
    }
  }

  lemma FirstFreeIsPositive(t: Table, row: Option<Row>, occupied: map<nat, nat>, column: nat)
    requires GridOk(t, row, None, occupied, column) && row.Some?
    ensures column > 0
  {
    hide Matches, Places, InRow, Numbered;
    var ps := Current(t, row, None);
    if ps != [] { assert Follows(ps[..|ps| - 1], ps[|ps| - 1]); }
  }

  lemma InRowAppend(row: Row, cell: Cell)
    ensures InRow(row.(cells := row.cells + [cell])) == InRow(row) + [PlaceOf(row.rowIndex, cell)]
  {
  }

  lemma CloseCellGrid(t: Table, row: Row, cell: Cell, text: string, occupied: map<nat, nat>, column: nat)
    requires GridOk(t, Some(row), Some(cell), occupied, column)
    ensures GridOk(t, Some(row.(cells := row.cells + [cell.(text := text)])), None, occupied, column)
  {
    hide WellPlaced, Matches, Places, InRow;
    InRowAppend(row, cell.(text := text));
    assert Current(t, Some(row.(cells := row.cells + [cell.(text := text)])), None) == Current(t, Some(row), Some(cell));
  }

  lemma CloseCellTexts(t: Table, row: Row, cell: Cell, text: string)
    requires TextsOk(t, Some(row), Some(cell)) && |text| <= |cell.text|
    ensures TextsOk(t, Some(row.(cells := row.cells + [cell.(text := text)])), None)
  {
  }

  lemma CloseCellKeepsGrid(space: char -> bool, p: Parser)
    requires Sound(p) && Live(p) && p.cell.Some?
    ensures Sound(CloseCell(space, p))
  {
    hide GridOk, TextsOk, TableOk, Squeeze;
    var text := Squeeze(space, p.cell.value.text);
    SqueezeIsShorter(space, p.cell.value.text);
    CloseCellGrid(p.table.value, p.row.value, p.cell.value, text, p.occupied, p.column);
    CloseCellTexts(p.table.value, p.row.value, p.cell.value, text);
  }

  lemma CloseRowGrid(t: Table, row: Row, occupied: map<nat, nat>, column: nat)
    requires GridOk(t, Some(row), None, occupied, column)
    ensures GridOk(t.(rows := t.rows + [row]), None, None, occupied, column)
  {
    hide WellPlaced, Covered, InRow;
    var u := t.(rows := t.rows + [row]);
    assert u.rows[..|t.rows|] == t.rows;
    assert Current(u, None, None) == Current(t, Some(row), None);
    hide Places, Matches;
    LastRowBound(t, row);
    MatchesBelow(occupied, Current(t, Some(row), None), |t.rows| + 1);
  }

  lemma MatchesBelow(occupied: map<nat, nat>, ps: seq<Place>, n: nat)
    requires Matches(occupied, ps, n)
    ensures Matches(occupied, ps, n + 1)
  {
  }

  lemma CloseRowKeepsGrid(p: Parser)
    requires Sound(p) && Live(p)
    ensures Sound(CloseRow(p, p.table.value))
  {
    hide GridOk, TableOk;
    if p.row.Some? && p.cell.None? {
      CloseRowGrid(p.table.value, p.row.value, p.occupied, p.column);
      CloseRowTexts(p.table.value, p.row.value);
    }
    hide TextsOk;
  }

  lemma CloseRowTexts(t: Table, row: Row)
    requires TextsOk(t, Some(row), None)
    ensures TextsOk(t.(rows := t.rows + [row]), None, None)
  {
  }

  lemma LastRowBound(t: Table, row: Row)
    requires Numbered(t.rows) && row.rowIndex == |t.rows| + 1
    ensures var ps := Places(t.rows) + InRow(row); ps != [] ==> ps[|ps| - 1].row <= row.rowIndex
  {
    RowsBound(t.rows);
    var ps := Places(t.rows) + InRow(row);
    if ps != [] && row.cells == [] {
      assert ps == Places(t.rows);
    }
  }

  lemma {:induction false} RowsBound(rows: seq<Row>)
    requires Numbered(rows)
    ensures Places(rows) != [] ==> Places(rows)[|Places(rows)| - 1].row <= |rows|
  {
    if rows != [] {
      var init, last := rows[..|rows| - 1], rows[|rows| - 1];
      RowsBound(init);
      if last.cells == [] { assert Places(rows) == Places(init); }
    }
  }

  lemma SamePlaces(t: Table, u: Table, row: Option<Row>, cell: Option<Cell>, same: Option<Cell>, occupied: map<nat, nat>, column: nat)
    requires GridOk(t, row, cell, occupied, column) && u.rows == t.rows
    requires cell == same || (cell.Some? && same.Some? && same.value == cell.value.(text := same.value.text))
    ensures GridOk(u, row, same, occupied, column)
  {
    hide WellPlaced, Matches, Places, InRow, Numbered;
    assert Current(u, row, same) == Current(t, row, cell);
  }

  lemma AddDataKeepsGrid(p: Parser, text: string)
    requires Sound(p)
    ensures Sound(AddData(p, text))
  {
    hide GridOk, TableOk, Numbered, ShortTexts;
    var q := AddData(p, text);
    if Live(p) && Live(q) {
      SamePlaces(p.table.value, q.table.value, p.row, p.cell, q.cell, p.occupied, p.column);
    }
  }

  lemma NewTableKeepsGrid(p: Parser, a: Attributes)
    requires Sound(p) && p.depth == 0
    ensures Sound(NewTable(p, a))
  {
    hide TableOk;
    assert Current(NewTable(p, a).table.value, None, None) == [];
  }

  lemma CloseTableKeepsGrid(space: char -> bool, p: Parser)
    requires Sound(p) && p.depth > 0
    ensures Sound(CloseTable(space, p))
  {
    hide GridOk, TextsOk, TableOk, Squeeze;
    if Live(p) && p.row.None? && p.cell.None? {
      EmittedOk(space, p.table.value, p.occupied, p.column);
    }
  }

  lemma EmittedOk(space: char -> bool, t: Table, occupied: map<nat, nat>, column: nat)
    requires GridOk(t, None, None, occupied, column) && TextsOk(t, None, None)
    requires 1 <= t.tableIndex <= MaxTables && (t.tableId.Some? ==> |t.tableId.value| <= MaxTableId)
    ensures TableOk(t.(caption := Squeeze(space, t.caption)))
  {
    SqueezeIsShorter(space, t.caption);
    assert Current(t, None, None) == Places(t.rows);
  }

  lemma NextKeepsSound(space: char -> bool, p: Parser, token: Token)
    requires Sound(p)
    ensures Sound(Next(space, p, token))
  {
    hide TableOk, GridOk, TextsOk, OpenCell, NewTable, OpenRow, CloseTable, CloseCell, CloseRow, AddData;
    match token {
      case Data(text) => AddDataKeepsGrid(p, text);
      case Start(tag, a) =>
        if Hides(tag) || p.hidden != [] {
        } else if tag == "table" {
          if p.depth == 0 { NewTableKeepsGrid(p, a); }
        } else if Live(p) {
          if tag == "tr" { OpenRowKeepsGrid(p); }
          else if IsCell(tag) { OpenCellKeepsGrid(p, tag, a); }
          else if tag == "br" { AddDataKeepsGrid(p, "\n"); }
        }
      case End(tag) =>
        if p.hidden != [] {
        } else if tag == "table" {
          if p.depth > 0 { CloseTableKeepsGrid(space, p); }
        } else if Live(p) {
          if IsCell(tag) && p.cell.Some? { CloseCellKeepsGrid(space, p); }
          else if tag == "tr" { CloseRowKeepsGrid(p); }
        }
    }
  }

  lemma {:induction false} FedIsSound(space: char -> bool, tokens: seq<Token>)
    ensures Sound(Fed(space, tokens))
  {
    hide Sound, Next;
    if tokens != [] {
      FedIsSound(space, tokens[..|tokens| - 1]);
      NextKeepsSound(space, Fed(space, tokens[..|tokens| - 1]), tokens[|tokens| - 1]);
    } else {
      InitialIsSound();
    }
  }

  lemma InitialIsSound()
    ensures Sound(Initial)
  {
  }

  /** Every emitted table is well placed and within its own limits, whatever the document. */
  lemma EmittedTablesAreSound(space: char -> bool, tokens: seq<Token>, i: nat)
    requires i < |Fed(space, tokens).tables|
    ensures TableOk(Fed(space, tokens).tables[i])
  {
    FedIsSound(space, tokens);
  }

  // --- Totals over the document -----------------------------------------------------------------------------------

  function TextOfRow(cells: seq<Cell>): nat
  {
    if cells == [] then 0 else TextOfRow(cells[..|cells| - 1]) + |cells[|cells| - 1].text|
  }

  function TextOfRows(rows: seq<Row>): nat
  {
    if rows == [] then 0 else TextOfRows(rows[..|rows| - 1]) + TextOfRow(rows[|rows| - 1].cells)
  }

  function TextOf(t: Table): nat
  {
    |t.caption| + TextOfRows(t.rows)
  }

  /** The characters of all captions and cells. */
  function TextOfTables(ts: seq<Table>): nat
  {
    if ts == [] then 0 else TextOfTables(ts[..|ts| - 1]) + TextOf(ts[|ts| - 1])
  }

  /** The number of cells. */
  function CellsOfTables(ts: seq<Table>): nat
  {
    if ts == [] then 0 else CellsOfTables(ts[..|ts| - 1]) + |Places(ts[|ts| - 1].rows)|
  }

  function TextBeingRead(t: Table, row: Option<Row>, cell: Option<Cell>): nat
  {
    TextOf(t) + (if row.Some? then TextOfRow(row.value.cells) else 0) + (if cell.Some? then |cell.value.text| else 0)
  }

  function CellsHeld(p: Parser): nat
  {
    CellsOfTables(p.tables) + (if Live(p) then |Current(p.table.value, p.row, p.cell)| else 0)
  }

  function TextHeld(p: Parser): nat
  {
    TextOfTables(p.tables) + (if Live(p) then TextBeingRead(p.table.value, p.row, p.cell) else 0)
  }

  /** What is held is counted, and within the limits. */
  ghost predicate Bounded(p: Parser)
  {
    && Open(p) && (p.depth >= 2 ==> p.invalid)
    && CellsHeld(p) <= p.totalCells && CellsHeld(p) <= MaxCells
    && TextHeld(p) <= p.totalText && TextHeld(p) <= MaxText
  }

  lemma TextOfRowAppend(cells: seq<Cell>, cell: Cell)
    ensures TextOfRow(cells + [cell]) == TextOfRow(cells) + |cell.text|
  {
    assert (cells + [cell])[..|cells|] == cells;
  }

  lemma RowsAppend(rows: seq<Row>, row: Row)
    ensures TextOfRows(rows + [row]) == TextOfRows(rows) + TextOfRow(row.cells)
    ensures Places(rows + [row]) == Places(rows) + InRow(row)
  {
    assert (rows + [row])[..|rows|] == rows;
  }

  lemma TablesAppend(ts: seq<Table>, t: Table)
    ensures TextOfTables(ts + [t]) == TextOfTables(ts) + TextOf(t)
    ensures CellsOfTables(ts + [t]) == CellsOfTables(ts) + |Places(t.rows)|
  {
    assert (ts + [t])[..|ts|] == ts;
  }

  lemma OpenRowKeepsBounds(p: Parser)
    requires Bounded(p) && Live(p)
    ensures Bounded(OpenRow(p, p.table.value))
  {
    hide Places, TextOfTables, CellsOfTables, TextOf;
  }

  lemma OpenCellKeepsBounds(p: Parser, tag: string, a: Attributes)
    requires Bounded(p) && Live(p)
    ensures Bounded(OpenCell(p, tag, a))
  {
    hide Places, TextOfTables, CellsOfTables, TextOf, FirstFree, Occupy, AllFree, TextOfRow, InRow;
  }

  lemma CloseCellKeepsBounds(space: char -> bool, p: Parser)
    requires Bounded(p) && Live(p) && p.cell.Some?
    ensures Bounded(CloseCell(space, p))
  {
    hide Places, TextOfTables, CellsOfTables, TextOf, TextOfRow, Squeeze, InRow;
    var cell := p.cell.value.(text := Squeeze(space, p.cell.value.text));
    SqueezeIsShorter(space, p.cell.value.text);
    TextOfRowAppend(p.row.value.cells, cell);
    InRowAppend(p.row.value, cell);
  }

  lemma CloseRowKeepsBounds(p: Parser)
    requires Bounded(p) && Live(p)
    ensures Bounded(CloseRow(p, p.table.value))
  {
    hide Places, TextOfTables, CellsOfTables, TextOfRow, TextOfRows, InRow;
    if p.row.Some? { RowsAppend(p.table.value.rows, p.row.value); }
  }

  lemma AddDataKeepsBounds(p: Parser, text: string)
    requires Bounded(p)
    ensures Bounded(AddData(p, text))
  {
    hide Places, TextOfTables, CellsOfTables, TextOfRow, TextOfRows, InRow;
  }

  lemma NewTableKeepsBounds(p: Parser, a: Attributes)
    requires Bounded(p) && p.depth == 0
    ensures Bounded(NewTable(p, a))
  {
    hide TextOfTables, CellsOfTables;
  }

  lemma CloseTableKeepsBounds(space: char -> bool, p: Parser)
    requires Bounded(p) && p.depth > 0
    ensures Bounded(CloseTable(space, p))
  {
    hide Places, TextOfTables, CellsOfTables, TextOfRow, TextOfRows, InRow, Squeeze;
    if p.table.Some? {
      var t := p.table.value.(caption := Squeeze(space, p.table.value.caption));
      SqueezeIsShorter(space, p.table.value.caption);
      TablesAppend(p.tables, t);
    }
  }

  lemma NextKeepsBounds(space: char -> bool, p: Parser, token: Token)
    requires Bounded(p)
    ensures Bounded(Next(space, p, token))
  {
    hide OpenCell, NewTable, OpenRow, CloseTable, CloseCell, CloseRow, AddData;
    hide Current, TextOfTables, CellsOfTables, TextBeingRead;
    match token {
      case Data(text) => AddDataKeepsBounds(p, text);
      case Start(tag, a) =>
        if Hides(tag) || p.hidden != [] {
        } else if tag == "table" {
          if p.depth == 0 { NewTableKeepsBounds(p, a); }
        } else if Live(p) {
          if tag == "tr" { OpenRowKeepsBounds(p); }
          else if IsCell(tag) { OpenCellKeepsBounds(p, tag, a); }
          else if tag == "br" { AddDataKeepsBounds(p, "\n"); }
        }
      case End(tag) =>
        if p.hidden != [] {
        } else if tag == "table" {
          if p.depth > 0 { CloseTableKeepsBounds(space, p); }
        } else if Live(p) {
          if IsCell(tag) && p.cell.Some? { CloseCellKeepsBounds(space, p); }
          else if tag == "tr" { CloseRowKeepsBounds(p); }
        }
    }
  }

  /** All emitted tables together keep to the limits of the document, whatever it holds. */
  lemma {:induction false} FedIsBounded(space: char -> bool, tokens: seq<Token>)
    ensures Bounded(Fed(space, tokens))
    ensures CellsOfTables(Fed(space, tokens).tables) <= MaxCells
    ensures TextOfTables(Fed(space, tokens).tables) <= MaxText
  {
    hide Next;
    if tokens != [] {
      FedIsBounded(space, tokens[..|tokens| - 1]);
      NextKeepsBounds(space, Fed(space, tokens[..|tokens| - 1]), tokens[|tokens| - 1]);
    }
  }

  // --- Which tables are emitted -----------------------------------------------------------------------------------

  /** The visible top-level tables a document opens, counted without looking inside them: `open` is the
      nesting depth and `hidden` the open elements whose content is not shown. */
  datatype Scan = Scan(count: nat, open: nat, hidden: seq<string>)

  function ScanNext(s: Scan, token: Token): Scan
  {
    match token
    case Data(_) => s
    case Start(tag, _) =>
      if Hides(tag) then s.(hidden := s.hidden + [tag])
      else if s.hidden != [] || tag != "table" then s
      else s.(open := s.open + 1, count := if s.open == 0 then s.count + 1 else s.count)
    case End(tag) =>
      if s.hidden != [] then
        if tag == s.hidden[|s.hidden| - 1] then s.(hidden := s.hidden[..|s.hidden| - 1]) else s
      else if tag == "table" && s.open > 0 then s.(open := s.open - 1)
      else s
  }

  function Scanned(tokens: seq<Token>): Scan
  {
    if tokens == [] then Scan(0, 0, []) else ScanNext(Scanned(tokens[..|tokens| - 1]), tokens[|tokens| - 1])
  }

  /** How the tables seen so far stand to those emitted. */
  ghost predicate Accounted(p: Parser, s: Scan)
  {
    && Open(p) && p.depth == s.open && p.hidden == s.hidden && p.index == s.count
    && (p.table.Some? ==> p.table.value.tableIndex == p.index)
    && var open := if p.depth > 0 then 1 else 0;
       |p.tables| + open <= p.index && (p.unresolved <==> |p.tables| + open < p.index)
       && (forall i | 0 <= i < |p.tables| :: i + 1 <= p.tables[i].tableIndex <= p.index - open)
       && (forall i, j | 0 <= i < j < |p.tables| :: p.tables[i].tableIndex < p.tables[j].tableIndex)
       && (!p.unresolved ==> forall i | 0 <= i < |p.tables| :: p.tables[i].tableIndex == i + 1)
  }

  /** Everything but opening and closing tables leaves the account as it is. */
  ghost predicate SameAccount(p: Parser, q: Parser)
  {
    && q.tables == p.tables && q.unresolved == p.unresolved && q.depth == p.depth && q.hidden == p.hidden
    && q.index == p.index && (q.table.Some? <==> p.table.Some?)
    && (p.table.Some? ==> q.table.value.tableIndex == p.table.value.tableIndex)
  }

  lemma OpenCellSame(p: Parser, tag: string, a: Attributes)
    requires Open(p)
    ensures SameAccount(p, OpenCell(p, tag, a)) && Open(OpenCell(p, tag, a))
  {
    hide FirstFree, Occupy, AllFree, SpanOf;
  }

  lemma AddDataSame(p: Parser, text: string)
    requires Open(p)
    ensures SameAccount(p, AddData(p, text)) && Open(AddData(p, text))
  {
  }

  lemma InsideTable(space: char -> bool, p: Parser, token: Token)
    requires Open(p) && p.hidden == []
    requires token.Start? ==> token.tag != "table" && !Hides(token.tag)
    requires token.End? ==> token.tag != "table"
    ensures SameAccount(p, Next(space, p, token)) && Open(Next(space, p, token))
  {
    hide OpenCell, AddData, Squeeze;
    match token {
      case Start(tag, a) =>
        OpenCellSame(p, tag, a);
        AddDataSame(p, "\n");
      case Data(text) => AddDataSame(p, text);
      case End(tag) =>
    }
  }

  lemma OpenTableAccounts(p: Parser, s: Scan, a: Attributes)
    requires Accounted(p, s) && p.hidden == []
    ensures Accounted(OpenTable(p, a), ScanNext(s, Start("table", a)))
  {
  }

  lemma CloseTableAccounts(space: char -> bool, p: Parser, s: Scan)
    requires Accounted(p, s) && p.hidden == [] && p.depth > 0
    ensures Accounted(CloseTable(space, p), ScanNext(s, End("table")))
  {
    hide Squeeze;
  }

  lemma NextAccounts(space: char -> bool, p: Parser, s: Scan, token: Token)
    requires Accounted(p, s)
    ensures Accounted(Next(space, p, token), ScanNext(s, token))
  {
    hide OpenTable, OpenRow, OpenCell, CloseTable, CloseCell, CloseRow;
    if p.hidden != [] || (token.Start? && Hides(token.tag)) {
    } else if token.Start? && token.tag == "table" {
      OpenTableAccounts(p, s, token.attributes);
    } else if token.End? && token.tag == "table" {
      if p.depth > 0 { CloseTableAccounts(space, p, s); }
    } else {
      InsideTable(space, p, token);
    }
  }

  lemma {:induction false} FedIsAccounted(space: char -> bool, tokens: seq<Token>)
    ensures Accounted(Fed(space, tokens), Scanned(tokens))
  {
    hide Next, ScanNext;
    if tokens != [] {
      FedIsAccounted(space, tokens[..|tokens| - 1]);
      NextAccounts(space, Fed(space, tokens[..|tokens| - 1]), Scanned(tokens[..|tokens| - 1]), tokens[|tokens| - 1]);
    }
  }

  /** There is no warning exactly when every visible top-level table was emitted; tables keep document
      order, and without a warning they are numbered one after the other. */
  lemma NoWarningIffAllEmitted(space: char -> bool, tokens: seq<Token>)
    ensures var p := Finished(Fed(space, tokens));
      (p.unresolved <==> |p.tables| < Scanned(tokens).count) && |p.tables| <= Scanned(tokens).count
      && (forall i, j | 0 <= i < j < |p.tables| :: p.tables[i].tableIndex < p.tables[j].tableIndex)
      && (!p.unresolved ==> forall i | 0 <= i < |p.tables| :: p.tables[i].tableIndex == i + 1)
  {
    FedIsAccounted(space, tokens);
  }
}
