/** Table cells of an HTML document with their place in the grid: the parser's state, what each tag and
    each piece of text does to it, and the class that does so in place. */
module HtmlTables {
  import opened Outcomes

  datatype Cell = Cell(column: nat, rowSpan: nat, columnSpan: nat, header: bool, text: string)

  datatype Row = Row(rowIndex: nat, section: string, cells: seq<Cell>)

  datatype Table = Table(tableIndex: nat, tableId: Option<string>, caption: string, rows: seq<Row>)

  /** A span attribute: absent, not readable as an integer, or an integer. */
  datatype Span = Absent | Unreadable | Value(n: int)

  datatype Attributes = Attributes(id: Option<string>, rowSpan: Span, columnSpan: Span)

  /** What the tokenizer reports. */
  datatype Token = Start(tag: string, attributes: Attributes) | End(tag: string) | Data(text: string)

  const MaxTables := 128
  const MaxRows := 10000
  const MaxColumns := 256
  const MaxCells := 20000
  const MaxText := 1000000
  const MaxCellText := 16000
  const MaxCaption := 4096
  const MaxTableId := 512

  datatype Parser = Parser(tables: seq<Table>, unresolved: bool, depth: nat, hidden: seq<string>, index: nat,
                           totalCells: nat, totalText: nat, table: Option<Table>, row: Option<Row>, cell: Option<Cell>,
                           section: string, caption: bool, occupied: map<nat, nat>, column: nat, invalid: bool)

  const Initial := Parser([], false, 0, [], 0, 0, 0, None, None, None, "unknown", false, map[], 1, false)

  // --- Text ---------------------------------------------------------------------------------------------

  /** The words of a text, joined by single spaces; which characters are white space is a parameter. */
  function Squeeze(space: char -> bool, s: string): string
  {
    if s == "" then ""
    else
      var init, c := Squeeze(space, s[..|s| - 1]), s[|s| - 1];
      if space(c) then init
      else if init != "" && space(s[|s| - 2]) then init + " " + [c]
      else init + [c]
  }

  lemma {:induction false} SqueezeIsShorter(space: char -> bool, s: string)
    ensures |Squeeze(space, s)| <= |s|
    ensures s != "" && space(s[|s| - 1]) ==> |Squeeze(space, s)| < |s|
  {
    if s != "" { SqueezeIsShorter(space, s[..|s| - 1]); }
  }

  /** Words with gaps around them. */
  ghost function Assemble(words: seq<string>, gaps: seq<string>): string
    requires |gaps| == |words| + 1
  {
    if words == [] then gaps[0]
    else Assemble(words[..|words| - 1], gaps[..|gaps| - 1]) + words[|words| - 1] + gaps[|gaps| - 1]
  }

  ghost function Join(words: seq<string>): string
  {
    if words == [] then "" else if |words| == 1 then words[0] else Join(words[..|words| - 1]) + " " + words[|words| - 1]
  }

  /** The words of a text: without white space, not empty, and apart by white space only. */
  ghost predicate IsSplit(space: char -> bool, s: string, words: seq<string>, gaps: seq<string>)
  {
    && |gaps| == |words| + 1 && s == Assemble(words, gaps)
    && (forall i | 0 <= i < |words| :: words[i] != "" && NoSpace(space, words[i]))
    && (forall i | 0 <= i < |gaps| :: AllSpace(space, gaps[i]))
    && (forall i | 0 < i < |words| :: gaps[i] != "")
  }

  ghost predicate NoSpace(space: char -> bool, s: string)
  {
    forall i | 0 <= i < |s| :: !space(s[i])
  }

  ghost predicate AllSpace(space: char -> bool, s: string)
  {
    forall i | 0 <= i < |s| :: space(s[i])
  }

  lemma SpaceAfter(space: char -> bool, s: string, words: seq<string>, gaps: seq<string>)
    requires IsSplit(space, s, words, gaps) && s != ""
    ensures space(s[|s| - 1]) <==> gaps[|words|] != ""
  {
    if words != [] {
      var last, gap := words[|words| - 1], gaps[|words|];
      var before := Assemble(words[..|words| - 1], gaps[..|gaps| - 1]);
      assert s == before + last + gap;
      if gap == "" { assert s[|s| - 1] == last[|last| - 1]; } else { assert s[|s| - 1] == gap[|gap| - 1]; }
    }
  }

  /** Squeezing a text joins its words by single spaces. */
  lemma {:induction false} SqueezeJoinsWords(space: char -> bool, s: string) returns (words: seq<string>, gaps: seq<string>)
    ensures IsSplit(space, s, words, gaps) && Squeeze(space, s) == Join(words)
    ensures words == [] <==> Squeeze(space, s) == ""
  {
    if s == "" {
      words, gaps := [], [""];
    } else {
      var init, c := s[..|s| - 1], s[|s| - 1];
      assert s == init + [c];
      words, gaps := SqueezeJoinsWords(space, init);
      if init != "" { SpaceAfter(space, init, words, gaps); }
      if space(c) {
        gaps := SplitSpace(space, init, words, gaps, c);
      } else if words == [] || gaps[|words|] != "" {
        words, gaps := SplitWord(space, init, words, gaps, c);
      } else {
        words := SplitLetter(space, init, words, gaps, c);
      }
    }
  }

  lemma SplitSpace(space: char -> bool, init: string, words: seq<string>, gaps: seq<string>, c: char) returns (more: seq<string>)
    requires IsSplit(space, init, words, gaps) && space(c)
    ensures IsSplit(space, init + [c], words, more)
  {
    more := gaps[..|words|] + [gaps[|words|] + [c]];
    if words != [] {
      assert more[..|more| - 1] == gaps[..|gaps| - 1];
    }
  }

  lemma SplitWord(space: char -> bool, init: string, words: seq<string>, gaps: seq<string>, c: char)
    returns (more: seq<string>, after: seq<string>)
    requires IsSplit(space, init, words, gaps) && !space(c) && (words == [] || gaps[|words|] != "")
    ensures IsSplit(space, init + [c], more, after) && more == words + [[c]]
    ensures Join(more) == if words == [] then [c] else Join(words) + " " + [c]
  {
    more, after := words + [[c]], gaps + [""];
    assert more[..|more| - 1] == words && after[..|after| - 1] == gaps;
    assert Assemble(more, after) == Assemble(words, gaps) + [c] + "";
  }

  lemma SplitLetter(space: char -> bool, init: string, words: seq<string>, gaps: seq<string>, c: char) returns (more: seq<string>)
    requires IsSplit(space, init, words, gaps) && !space(c) && words != [] && gaps[|words|] == ""
    ensures IsSplit(space, init + [c], more, gaps) && more != [] && Join(more) == Join(words) + [c]
  {
    var n := |words| - 1;
    more := words[..n] + [words[n] + [c]];
    assert more[..|more| - 1] == words[..n];
    var before := Assemble(words[..n], gaps[..|gaps| - 1]);
    assert Assemble(more, gaps) == before + (words[n] + [c]) + "";
    assert init == before + words[n] + "";
    if n > 0 { assert Join(more) == Join(words[..n]) + " " + (words[n] + [c]); }
  }

  // --- The grid -----------------------------------------------------------------------------------------

  function Last(occupied: map<nat, nat>, column: nat): nat
  {
    if column in occupied then occupied[column] else 0
  }

  ghost function From(occupied: map<nat, nat>, column: nat): set<nat>
  {
    set c | c in occupied && c >= column
  }

  lemma FromShrinks(occupied: map<nat, nat>, column: nat)
    requires column in occupied
    ensures |From(occupied, column + 1)| < |From(occupied, column)|
  {
    assert From(occupied, column) == From(occupied, column + 1) + {column};
  }

  /** The first column at or after `column` that row `row` has free. */
  function FirstFree(occupied: map<nat, nat>, column: nat, row: nat): (free: nat)
    requires row > 0
    ensures free >= column && Last(occupied, free) < row
    ensures forall c | column <= c < free :: Last(occupied, c) >= row
    decreases |From(occupied, column)|
  {
    if Last(occupied, column) >= row then
      FromShrinks(occupied, column);
      FirstFree(occupied, column + 1, row)
    else column
  }

  predicate AllFree(occupied: map<nat, nat>, column: nat, end: nat, row: nat)
  {
    forall c | column <= c < end :: Last(occupied, c) < row
  }

  /** The columns from `column` up to `end` are taken down to row `last`. */
  function Occupy(occupied: map<nat, nat>, column: nat, end: nat, last: nat): (after: map<nat, nat>)
    ensures forall c: nat :: Last(after, c) == if column <= c < end then last else Last(occupied, c)
    decreases end - column
  {
    if column >= end then occupied else Occupy(occupied[column := last], column + 1, end, last)
  }

  function SpanOf(span: Span, limit: nat): Option<nat>
  {
    match span
    case Absent => Some(1)
    case Unreadable => None
    case Value(n) => if 1 <= n <= limit then Some(n) else None
  }

  // --- Tags and text ---------------------------------------------------------------------------------------

  predicate Hides(tag: string)
  {
    tag == "script" || tag == "style" || tag == "template"
  }

  predicate IsSection(tag: string)
  {
    tag == "thead" || tag == "tbody" || tag == "tfoot"
  }

  predicate IsCell(tag: string)
  {
    tag == "td" || tag == "th"
  }

  function OpenTable(p: Parser, a: Attributes): Parser
  {
    if p.depth > 0 then p.(depth := p.depth + 1, invalid := true) else NewTable(p, a)
  }

  function NewTable(p: Parser, a: Attributes): Parser
  {
    var index := p.index + 1;
    var tooLong := a.id.Some? && |a.id.value| > MaxTableId;
    p.(depth := 1, index := index, invalid := index > MaxTables || tooLong,
       table := Some(Table(index, if tooLong then None else a.id, "", [])),
       row := None, cell := None, occupied := map[], section := "unknown")
  }

  function OpenRow(p: Parser, table: Table): Parser
  {
    if p.row.Some? || |table.rows| + 1 > MaxRows then p.(invalid := true)
    else p.(row := Some(Row(|table.rows| + 1, p.section, [])), column := 1)
  }

  function OpenCell(p: Parser, tag: string, a: Attributes): Parser
  {
    var rowSpan, columnSpan := SpanOf(a.rowSpan, MaxRows), SpanOf(a.columnSpan, MaxColumns);
    if p.row.None? || p.cell.Some? || rowSpan.None? || columnSpan.None? || p.row.value.rowIndex == 0 then p.(invalid := true)
    else PlaceCell(p, p.row.value.rowIndex, rowSpan.value, columnSpan.value, tag == "th")
  }

  /** The cell goes to the first free column from the cursor on, if it fits there. */
  function PlaceCell(p: Parser, row: nat, rowSpan: nat, columnSpan: nat, header: bool): Parser
    requires row > 0 && rowSpan > 0
  {
    var column := FirstFree(p.occupied, p.column, row);
    var end := column + columnSpan;
    if end > MaxColumns + 1 || row + rowSpan > MaxRows + 1 || !AllFree(p.occupied, column, end, row) then
      p.(column := column, invalid := true)
    else if p.totalCells + 1 > MaxCells then
      p.(column := column, totalCells := p.totalCells + 1, invalid := true)
    else
      p.(totalCells := p.totalCells + 1, column := end, cell := Some(Cell(column, rowSpan, columnSpan, header, "")),
         occupied := Occupy(p.occupied, column, end, row + rowSpan - 1))
  }

  function AddData(p: Parser, text: string): Parser
  {
    if p.depth != 1 || p.hidden != [] || p.invalid || p.table.None? then p
    else
      var counted := p.cell.Some? || p.caption;
      var total := if counted then p.totalText + |text| else p.totalText;
      if counted && total > MaxText then p.(totalText := total, invalid := true)
      else if p.cell.Some? then
        var cell := p.cell.value.(text := p.cell.value.text + text);
        p.(totalText := total, cell := Some(cell), invalid := |cell.text| > MaxCellText)
      else if p.caption then
        var table := p.table.value.(caption := p.table.value.caption + text);
        p.(totalText := total, table := Some(table), invalid := |table.caption| > MaxCaption)
      else p
  }

  function OpenTag(p: Parser, tag: string, a: Attributes): Parser
  {
    var q := if Hides(tag) then p.(hidden := p.hidden + [tag]) else p;
    if q.hidden != [] then q
    else if tag == "table" then OpenTable(q, a)
    else if q.depth != 1 || q.invalid || q.table.None? then q
    else if tag == "caption" then q.(caption := true)
    else if IsSection(tag) then q.(section := tag)
    else if tag == "tr" then OpenRow(q, q.table.value)
    else if IsCell(tag) then OpenCell(q, tag, a)
    else if tag == "br" && q.cell.Some? then AddData(q, "\n")
    else q
  }

  function CloseTable(space: char -> bool, p: Parser): Parser
    requires p.depth > 0
  {
    if p.depth > 1 then p.(depth := p.depth - 1)
    else
      var q := if p.invalid || p.row.Some? || p.cell.Some? || p.table.None? then p.(unresolved := true)
               else p.(tables := p.tables + [p.table.value.(caption := Squeeze(space, p.table.value.caption))]);
      q.(depth := 0, table := None, row := None, cell := None, caption := false)
  }

  function CloseCell(space: char -> bool, p: Parser): Parser
    requires p.cell.Some?
  {
    if p.row.None? then p
    else
      var cell := p.cell.value.(text := Squeeze(space, p.cell.value.text));
      p.(row := Some(p.row.value.(cells := p.row.value.cells + [cell])), cell := None)
  }

  function CloseRow(p: Parser, table: Table): Parser
  {
    if p.row.None? || p.cell.Some? then p.(invalid := true)
    else p.(table := Some(table.(rows := table.rows + [p.row.value])), row := None)
  }

  function CloseTag(space: char -> bool, p: Parser, tag: string): Parser
  {
    if p.hidden != [] then
      if tag == p.hidden[|p.hidden| - 1] then p.(hidden := p.hidden[..|p.hidden| - 1]) else p
    else if tag == "table" && p.depth > 0 then CloseTable(space, p)
    else if p.depth != 1 || p.invalid || p.table.None? then p
    else if IsCell(tag) && p.cell.Some? then CloseCell(space, p)
    else if tag == "tr" then CloseRow(p, p.table.value)
    else if tag == "caption" then p.(caption := false)
    else if IsSection(tag) then p.(section := "unknown")
    else p
  }

  function Next(space: char -> bool, p: Parser, token: Token): Parser
  {
    match token
    case Start(tag, a) => OpenTag(p, tag, a)
    case End(tag) => CloseTag(space, p, tag)
    case Data(text) => AddData(p, text)
  }

  /** The state after a whole document, before the end of input. */
  function Fed(space: char -> bool, tokens: seq<Token>): Parser
  {
    if tokens == [] then Initial else Next(space, Fed(space, tokens[..|tokens| - 1]), tokens[|tokens| - 1])
  }

  /** At the end of input an open table leaves the structure unresolved. */
  function Finished(p: Parser): Parser
  {
    if p.depth > 0 then p.(unresolved := true) else p
  }

  // --- In place -----------------------------------------------------------------------------------------------

  class HtmlTables {
    const space: char -> bool
    var tables: seq<Table>
    var unresolved: bool
    var depth: nat
    var hidden: seq<string>
    var index: nat
    var totalCells: nat
    var totalText: nat
    var table: Option<Table>
    var row: Option<Row>
    var cell: Option<Cell>
    var section: string
    var caption: bool
    var occupied: map<nat, nat>
    var column: nat
    var invalid: bool

    function State(): Parser
      reads this
    {
      Parser(tables, unresolved, depth, hidden, index, totalCells, totalText, table, row, cell, section, caption,
             occupied, column, invalid)
    }

    /** A table is open exactly while the depth is positive; cells belong to rows, and rows count from one. */
    ghost predicate Valid()
      reads this
    {
      Open(State())
    }

    constructor (space: char -> bool)
      ensures Valid() && State() == Initial && this.space == space
    {
      this.space := space;
      tables, unresolved, depth, hidden, index, totalCells, totalText := [], false, 0, [], 0, 0, 0;
      table, row, cell, section, caption, occupied, column, invalid := None, None, None, "unknown", false, map[], 1, false;
    }

    method HandleStartTag(tag: string, attributes: Attributes)
      requires Valid()
      modifies this
      ensures Valid() && State() == OpenTag(old(State()), tag, attributes)
    {
      hide OpenTable, OpenRow, OpenCell, AddData;
      if Hides(tag) { hidden := hidden + [tag]; }
      if hidden != [] { return; }
      if tag == "table" {
        StartTable(attributes);
        return;
      }
      if depth != 1 || invalid { return; }
      if tag == "caption" {
        caption := true;
      } else if IsSection(tag) {
        section := tag;
      } else if tag == "tr" {
        StartRow();
      } else if IsCell(tag) {
        StartCell(tag, attributes);
      } else if tag == "br" && cell.Some? {
        HandleData("\n");
      }
    }

    method StartTable(attributes: Attributes)
      requires Valid()
      modifies this
      ensures Valid() && State() == OpenTable(old(State()), attributes)
    {
      hide NewTable;
      if depth > 0 {
        depth := depth + 1;
        invalid := true;
      } else {
        BeginTable(attributes);
      }
    }

    method BeginTable(attributes: Attributes)
      requires Valid() && depth == 0
      modifies this
      ensures Valid() && State() == NewTable(old(State()), attributes)
    {
      NewCurrent(attributes);
      row, cell, occupied, section := None, None, map[], "unknown";
    }

    method NewCurrent(attributes: Attributes)
      requires depth == 0
      modifies this`depth, this`index, this`invalid, this`table
      ensures depth == 1 && index == old(index) + 1 && table == NewTable(old(State()), attributes).table
      ensures invalid == NewTable(old(State()), attributes).invalid
    {
      depth, index := 1, index + 1;
      invalid := index > MaxTables;
      var tableId := attributes.id;
      if tableId.Some? && |tableId.value| > MaxTableId {
        invalid := true;
        tableId := None;
      }
      table := Some(Table(index, tableId, "", []));
    }

    method StartRow()
      requires Valid() && table.Some?
      modifies this
      ensures Valid() && State() == OpenRow(old(State()), old(table).value)
    {
      if row.Some? {
        invalid := true;
        return;
      }
      var number := |table.value.rows| + 1;
      if number > MaxRows {
        invalid := true;
        return;
      }
      row := Some(Row(number, section, []));
      column := 1;
    }

    /** Move the cursor to the first free column. */
    method Advance(number: nat)
      requires number > 0
      modifies this`column
      ensures column == FirstFree(occupied, old(column), number)
    {
      while Last(occupied, column) >= number
        invariant FirstFree(occupied, column, number) == FirstFree(occupied, old(column), number)
        decreases |From(occupied, column)|
      {
        FromShrinks(occupied, column);
        column := column + 1;
      }
    }

    /** Take the columns from the cursor up to `end` down to row `last`. */
    method Take(end: nat, last: nat)
      requires column <= end
      modifies this`occupied
      ensures occupied == Occupy(old(occupied), column, end, last)
    {
      for c := column to end
        invariant Occupy(occupied, c, end, last) == Occupy(old(occupied), column, end, last)
      {
        occupied := occupied[c := last];
      }
    }

    /** Place a cell at the first free column, if it fits. */
    method StartCell(tag: string, attributes: Attributes)
      requires Valid() && depth == 1 && !invalid
      modifies this
      ensures Valid() && State() == OpenCell(old(State()), tag, attributes)
    {
      hide PlaceCell;
      if row.None? || cell.Some? {
        invalid := true;
        return;
      }
      var rowSpan, columnSpan := SpanOf(attributes.rowSpan, MaxRows), SpanOf(attributes.columnSpan, MaxColumns);
      if rowSpan.None? || columnSpan.None? {
        invalid := true;
        return;
      }
      Put(row.value.rowIndex, rowSpan.value, columnSpan.value, tag == "th");
    }

    method Put(number: nat, rowSpan: nat, columnSpan: nat, header: bool)
      requires Valid() && row.Some? && number > 0 && rowSpan > 0
      modifies this`invalid, this`column, this`totalCells, this`cell, this`occupied
      ensures Valid() && State() == PlaceCell(old(State()), number, rowSpan, columnSpan, header)
    {
      Advance(number);
      var end := column + columnSpan;
      if end > MaxColumns + 1 || number + rowSpan > MaxRows + 1 || !AllFree(occupied, column, end, number) {
        invalid := true;
        return;
      }
      totalCells := totalCells + 1;
      if totalCells > MaxCells {
        invalid := true;
      } else {
        Fill(Cell(column, rowSpan, columnSpan, header, ""), end, number + rowSpan - 1);
      }
    }

    method Fill(placed: Cell, end: nat, last: nat)
      requires column <= end
      modifies this`cell, this`column, this`occupied
      ensures cell == Some(placed) && column == end && occupied == Occupy(old(occupied), old(column), end, last)
    {
      cell := Some(placed);
      Take(end, last);
      column := end;
    }

    method HandleEndTag(tag: string)
      requires Valid()
      modifies this
      ensures Valid() && State() == CloseTag(space, old(State()), tag)
    {
      hide CloseTable;
      if hidden != [] {
        if tag == hidden[|hidden| - 1] { hidden := hidden[..|hidden| - 1]; }
        return;
      }
      if tag == "table" && depth > 0 {
        EndTable();
        return;
      }
      if depth != 1 || invalid { return; }
      if IsCell(tag) && cell.Some? {
        cell := Some(cell.value.(text := Squeeze(space, cell.value.text)));
        row := Some(row.value.(cells := row.value.cells + [cell.value]));
        cell := None;
      } else if tag == "tr" {
        if row.None? || cell.Some? {
          invalid := true;
        } else {
          table := Some(table.value.(rows := table.value.rows + [row.value]));
          row := None;
        }
      } else if tag == "caption" {
        caption := false;
      } else if IsSection(tag) {
        section := "unknown";
      }
    }

    method EndTable()
      requires Valid() && depth > 0
      modifies this
      ensures Valid() && State() == CloseTable(space, old(State()))
    {
      if depth == 1 {
        EmitTable();
        DropTable();
      }
      depth := depth - 1;
    }

    method DropTable()
      modifies this`table, this`row, this`cell, this`caption
      ensures table.None? && row.None? && cell.None? && !caption
    {
      table, row, cell, caption := None, None, None, false;
    }

    /** Keep the table if nothing in it is wrong or unfinished. */
    method EmitTable()
      requires table.Some?
      modifies this`tables, this`unresolved
      ensures unresolved == (old(unresolved) || invalid || row.Some? || cell.Some?)
      ensures tables == if invalid || row.Some? || cell.Some? then old(tables)
                        else old(tables) + [table.value.(caption := Squeeze(space, table.value.caption))]
    {
      if invalid || row.Some? || cell.Some? {
        unresolved := true;
      } else {
        tables := tables + [table.value.(caption := Squeeze(space, table.value.caption))];
      }
    }

    method HandleData(data: string)
      requires Valid()
      modifies this
      ensures Valid() && State() == AddData(old(State()), data)
    {
      if depth != 1 || hidden != [] || invalid { return; }
      if cell.Some? || caption {
        totalText := totalText + |data|;
        if totalText > MaxText {
          invalid := true;
          return;
        }
      }
      if cell.Some? {
        cell := Some(cell.value.(text := cell.value.text + data));
        if |cell.value.text| > MaxCellText { invalid := true; }
      } else if caption {
        table := Some(table.value.(caption := table.value.caption + data));
        if |table.value.caption| > MaxCaption { invalid := true; }
      }
    }

    method Close()
      requires Valid()
      modifies this
      ensures State() == Finished(old(State()))
    {
      if depth > 0 { unresolved := true; }
    }
  }

  ghost predicate Open(p: Parser)
  {
    && (p.depth > 0 <==> p.table.Some?)
    && (p.depth == 0 ==> p.row.None?)
    && (p.cell.Some? ==> p.row.Some?)
    && (p.row.Some? ==> p.row.value.rowIndex > 0)
  }

  /** A row of the output: a table row with the table it belongs to. */
  datatype TableRow = TableRow(tableIndex: nat, tableId: Option<string>, caption: string, row: Row)

  function RowsOf(tables: seq<Table>): seq<TableRow>
  {
    if tables == [] then []
    else
      var t := tables[|tables| - 1];
      RowsOf(tables[..|tables| - 1]) + seq(|t.rows|, i requires 0 <= i < |t.rows| => TableRow(t.tableIndex, t.tableId, t.caption, t.rows[i]))
  }

  method Flatten(tables: seq<Table>) returns (rows: seq<TableRow>)
    ensures rows == RowsOf(tables)
  {
    rows := [];
    for i := 0 to |tables|
      invariant rows == RowsOf(tables[..i])
    {
      var t := tables[i];
      assert tables[..i + 1][..i] == tables[..i];
      var before := rows;
      for j := 0 to |t.rows|
        invariant rows == before + seq(j, k requires 0 <= k < j => TableRow(t.tableIndex, t.tableId, t.caption, t.rows[k]))
      {
        rows := rows + [TableRow(t.tableIndex, t.tableId, t.caption, t.rows[j])];
      }
    }
    assert tables[..|tables|] == tables;
  }

  /** Every row of every emitted table, in order, and whether the structure was unresolved. */
  method HtmlTableRows(space: char -> bool, tokens: seq<Token>) returns (rows: seq<TableRow>, warning: bool)
    ensures rows == RowsOf(Fed(space, tokens).tables)
    ensures warning == Finished(Fed(space, tokens)).unresolved
  {
    hide OpenTag, CloseTag, AddData, Open, RowsOf;
    var parser := new HtmlTables(space);
    for i := 0 to |tokens|
      invariant parser.Valid() && fresh(parser) && parser.space == space
      invariant parser.State() == Fed(space, tokens[..i])
    {
      assert tokens[..i + 1][..i] == tokens[..i];
      match tokens[i] {
        case Start(tag, a) => parser.HandleStartTag(tag, a);
        case End(tag) => parser.HandleEndTag(tag);
        case Data(text) => parser.HandleData(text);
      }
    }
    assert tokens[..|tokens|] == tokens;
    parser.Close();
    rows := Flatten(parser.tables);
    warning := parser.unresolved;
  }
}
