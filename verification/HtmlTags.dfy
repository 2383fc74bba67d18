/** What each tag and each piece of text does to the table being read, told tag by tag and limit by limit. */
module HtmlTags {
  import opened Outcomes
  import opened HtmlTables
  import opened HtmlGrid

  /** The parser is inside exactly one table that is still good and nothing hides what it reads. */
  ghost predicate Reading(p: Parser)
  {
    p.depth == 1 && p.hidden == [] && !p.invalid && p.table.Some?
  }

  // --- Tags --------------------------------------------------------------------------------------------------

  /** Scripts, styles and templates hide everything until they end. */
  lemma HidingTags(space: char -> bool, p: Parser, tag: string, a: Attributes)
    ensures tag in ["script", "style", "template"] ==> OpenTag(p, tag, a) == p.(hidden := p.hidden + [tag])
    ensures p.hidden != [] && tag !in ["script", "style", "template"] ==> OpenTag(p, tag, a) == p
    ensures p.hidden != [] ==>
      CloseTag(space, p, tag) == p.(hidden := if tag == p.hidden[|p.hidden| - 1] then p.hidden[..|p.hidden| - 1] else p.hidden)
  {
  }

  /** A table opens a new grid, or spoils the one it is nested in. */
  lemma TableTags(p: Parser, a: Attributes)
    requires p.hidden == []
    ensures p.depth > 0 ==> OpenTag(p, "table", a) == p.(depth := p.depth + 1, invalid := true)
    ensures p.depth == 0 ==>
      var q := OpenTag(p, "table", a);
      && q == p.(depth := 1, index := p.index + 1, row := None, cell := None, occupied := map[], section := "unknown",
                 invalid := q.invalid, table := q.table)
      && (q.invalid <==> p.index >= 128 || (a.id.Some? && |a.id.value| > 512))
      && q.table == Some(Table(tableIndex := p.index + 1, caption := "", rows := [],
                               tableId := if a.id.Some? && |a.id.value| > 512 then None else a.id))
  {
  }

  /** The tags that matter inside a table, opening and closing; a row opens only after the one before has
      closed, and only ten thousand of them; every other tag does nothing. */
  lemma InnerTags(space: char -> bool, p: Parser, tag: string, a: Attributes)
    requires Reading(p)
    ensures tag in ["thead", "tbody", "tfoot"] ==>
      OpenTag(p, tag, a) == p.(section := tag) && CloseTag(space, p, tag) == p.(section := "unknown")
    ensures tag == "caption" ==> OpenTag(p, tag, a) == p.(caption := true) && CloseTag(space, p, tag) == p.(caption := false)
    ensures tag == "tr" ==>
      OpenTag(p, tag, a) == if p.row.Some? || |p.table.value.rows| >= 10000 then p.(invalid := true)
                            else p.(column := 1, row := Some(Row(rowIndex := |p.table.value.rows| + 1, section := p.section, cells := [])))
    ensures tag == "tr" ==>
      CloseTag(space, p, tag) == if p.row.None? || p.cell.Some? then p.(invalid := true)
                                 else p.(row := None, table := Some(p.table.value.(rows := p.table.value.rows + [p.row.value])))
    ensures tag in ["td", "th"] && p.cell.Some? && p.row.Some? ==>
      CloseTag(space, p, tag) == p.(cell := None, row := Some(p.row.value.(
        cells := p.row.value.cells + [p.cell.value.(text := Squeeze(space, p.cell.value.text))])))
    ensures tag in ["td", "th"] && p.cell.None? ==> CloseTag(space, p, tag) == p
    ensures tag !in ["script", "style", "template", "table", "thead", "tbody", "tfoot", "caption", "tr", "td", "th"] ==>
      CloseTag(space, p, tag) == p && (tag != "br" ==> OpenTag(p, tag, a) == p)
    ensures tag == "br" ==> OpenTag(p, tag, a) == if p.cell.Some? then AddData(p, "\n") else p
  {
    hide Squeeze, AddData;
  }

  /** Outside a good table only tables and what hides matter. */
  lemma OuterTags(space: char -> bool, p: Parser, tag: string, a: Attributes)
    requires p.hidden == [] && (p.depth != 1 || p.invalid) && tag !in ["script", "style", "template", "table"]
    ensures OpenTag(p, tag, a) == p && CloseTag(space, p, tag) == p
  {
  }

  /** The end of the outer table emits it if it is good and nothing in it is left open, and is a warning
      otherwise; the end of an inner one only leaves it. */
  lemma TableEnds(space: char -> bool, p: Parser)
    requires p.hidden == [] && p.depth > 0
    ensures p.depth > 1 ==> CloseTag(space, p, "table") == p.(depth := p.depth - 1)
    ensures p.depth == 1 ==>
      var q := CloseTag(space, p, "table");
      var good := !p.invalid && p.row.None? && p.cell.None? && p.table.Some?;
      && q == p.(depth := 0, table := None, row := None, cell := None, caption := false, tables := q.tables, unresolved := q.unresolved)
      && (good ==> q.unresolved == p.unresolved
                   && q.tables == p.tables + [p.table.value.(caption := Squeeze(space, p.table.value.caption))])
      && (!good ==> q.unresolved && q.tables == p.tables)
  {
    hide Squeeze;
  }

  // --- Cells --------------------------------------------------------------------------------------------------

  /** A span attribute gives a span: one if it is absent, an integer between one and the limit. */
  ghost predicate Spans(span: Span, limit: nat, n: nat)
  {
    match span
    case Absent => n == 1
    case Unreadable => false
    case Value(v) => n == v && 1 <= v && v < limit + 1
  }

  /** A row still has a column free, when every cell placed above it has ended. */
  ghost predicate IsFree(p: Parser, column: nat, row: nat)
  {
    column !in p.occupied || p.occupied[column] < row
  }

  /** The first column free from the cursor on. */
  ghost predicate IsFirstFree(p: Parser, row: nat, column: nat)
  {
    p.column <= column && IsFree(p, column, row) && forall c | p.column <= c < column :: !IsFree(p, c, row)
  }

  /** The place a cell is given: from the first free column, all its columns free, inside 256 columns and
      10000 rows, and among the first 20000 cells of the document. */
  ghost predicate Fits(p: Parser, rowSpan: nat, columnSpan: nat, column: nat)
    requires p.row.Some?
  {
    var row := p.row.value.rowIndex;
    && IsFirstFree(p, row, column) && (forall c | column <= c && c < column + columnSpan :: IsFree(p, c, row))
    && column + columnSpan - 1 <= 256 && row + rowSpan - 1 <= 10000 && p.totalCells < 20000
  }

  /** A cell opens exactly if a row and no cell is open, its spans are legal and it fits; otherwise it spoils the
      table. It is a header exactly under its own tag, and it takes its columns down to its last row. */
  lemma CellTags(p: Parser, tag: string, a: Attributes, rowSpan: nat, columnSpan: nat, column: nat)
    requires Reading(p) && p.row.Some? && p.row.value.rowIndex > 0 && p.cell.None? && tag in ["td", "th"]
    requires Spans(a.rowSpan, 10000, rowSpan) && Spans(a.columnSpan, 256, columnSpan) && IsFirstFree(p, p.row.value.rowIndex, column)
    ensures var q := OpenTag(p, tag, a);
      if Fits(p, rowSpan, columnSpan, column) then
        && q == p.(cell := q.cell, column := column + columnSpan, totalCells := p.totalCells + 1, occupied := q.occupied)
        && q.cell == Some(Cell(column := column, rowSpan := rowSpan, columnSpan := columnSpan, header := tag == "th", text := ""))
        && forall c: nat :: Last(q.occupied, c) == if column <= c < column + columnSpan then p.row.value.rowIndex + rowSpan - 1
                                                   else Last(p.occupied, c)
      else q.invalid && q.cell.None? && q.row == p.row && q.table == p.table
  {
    SpanIs(a.rowSpan, 10000, rowSpan);
    SpanIs(a.columnSpan, 256, columnSpan);
    var row := p.row.value.rowIndex;
    FirstFreeIs(p, row, column);
    FreeIff(p, row, column, column + columnSpan);
    hide SpanOf, IsFirstFree, AllFree;
  }

  lemma SpanIs(span: Span, limit: nat, n: nat)
    requires limit > 0
    ensures SpanOf(span, limit) == Some(n) <==> Spans(span, limit, n)
  {
  }

  lemma FirstFreeIs(p: Parser, row: nat, column: nat)
    requires row > 0 && IsFirstFree(p, row, column)
    ensures FirstFree(p.occupied, p.column, row) == column
  {
    var free := FirstFree(p.occupied, p.column, row);
    forall c: nat | p.column <= c < free ensures !IsFree(p, c, row) { assert Last(p.occupied, c) >= row; }
    assert IsFree(p, free, row);
  }

  lemma FreeIff(p: Parser, row: nat, column: nat, end: nat)
    requires row > 0
    ensures AllFree(p.occupied, column, end, row) <==> forall c | column <= c && c < end :: IsFree(p, c, row)
  {
    assert forall c: nat :: IsFree(p, c, row) <==> Last(p.occupied, c) < row;
  }

  /** A cell without a row, inside another cell or with an illegal span spoils the table. */
  lemma WrongCells(p: Parser, tag: string, a: Attributes)
    requires Reading(p) && tag in ["td", "th"]
    requires p.row.None? || p.cell.Some? || (forall n :: !Spans(a.rowSpan, 10000, n)) || (forall n :: !Spans(a.columnSpan, 256, n))
    ensures OpenTag(p, tag, a) == p.(invalid := true)
  {
    if SpanOf(a.rowSpan, MaxRows).Some? { SpanIs(a.rowSpan, 10000, SpanOf(a.rowSpan, MaxRows).value); }
    if SpanOf(a.columnSpan, MaxColumns).Some? { SpanIs(a.columnSpan, 256, SpanOf(a.columnSpan, MaxColumns).value); }
    hide SpanOf, Spans, PlaceCell;
  }

  // --- Text ---------------------------------------------------------------------------------------------------

  /** Text counts only inside a cell or a caption; it goes to the cell if one is open, and too much of it, in
      the document, the cell or the caption, spoils the table. */
  lemma TextGoes(p: Parser, text: string)
    ensures !Reading(p) || (p.cell.None? && !p.caption) ==> AddData(p, text) == p
    ensures Reading(p) && (p.cell.Some? || p.caption) ==>
      var q := AddData(p, text);
      && q.totalText == p.totalText + |text|
      && (q.totalText > 1000000 ==> q == p.(totalText := q.totalText, invalid := true))
      && (q.totalText <= 1000000 && p.cell.Some? ==>
            q == p.(totalText := q.totalText, cell := Some(p.cell.value.(text := p.cell.value.text + text)),
                    invalid := |p.cell.value.text| + |text| > 16000))
      && (q.totalText <= 1000000 && p.cell.None? ==>
            q == p.(totalText := q.totalText, table := Some(p.table.value.(caption := p.table.value.caption + text)),
                    invalid := |p.table.value.caption| + |text| > 4096))
  {
  }

  // --- What is emitted -------------------------------------------------------------------------------------------

  /** Every emitted table is among the first 128, has an id of at most 512 characters and a caption of at most 4096, and
      its rows are numbered from one; every cell has at most 16000 characters, lies inside 10000 rows and 256
      columns, and overlaps no other. */
  lemma EmittedTablesFit(space: char -> bool, tokens: seq<Token>, i: nat, j: nat, k: nat)
    requires i < |Fed(space, tokens).tables|
    requires j < |Fed(space, tokens).tables[i].rows| && k < |Fed(space, tokens).tables[i].rows[j].cells|
    ensures var t := Fed(space, tokens).tables[i];
      var row, cell := t.rows[j], t.rows[j].cells[k];
      && 1 <= t.tableIndex <= 128 && (t.tableId.Some? ==> |t.tableId.value| <= 512) && |t.caption| <= 4096
      && row.rowIndex == j + 1 && |cell.text| <= 16000
      && cell.rowSpan >= 1 && cell.columnSpan >= 1 && cell.column >= 1
      && row.rowIndex + cell.rowSpan - 1 <= 10000 && cell.column + cell.columnSpan - 1 <= 256
  {
    EmittedTablesAreSound(space, tokens, i);
    hide Fed;
    var t := Fed(space, tokens).tables[i];
    var at := PlaceAt(t.rows, j, k);
    PlacedInGrid(Places(t.rows), at);
  }

  lemma {:induction false} PlaceAt(rows: seq<Row>, j: nat, k: nat) returns (at: nat)
    requires j < |rows| && k < |rows[j].cells|
    ensures at < |Places(rows)|
    ensures Places(rows)[at] == Place(rows[j].rowIndex, rows[j].cells[k].column, rows[j].cells[k].rowSpan, rows[j].cells[k].columnSpan)
  {
    if j == |rows| - 1 {
      at := |Places(rows[..|rows| - 1])| + k;
    } else {
      at := PlaceAt(rows[..|rows| - 1], j, k);
    }
  }

  lemma {:induction false} PlacedInGrid(ps: seq<Place>, at: nat)
    requires WellPlaced(ps) && at < |ps|
    ensures InGrid(ps[at])
  {
    if at < |ps| - 1 { PlacedInGrid(ps[..|ps| - 1], at); }
  }
}
