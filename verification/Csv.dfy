/** The playground's CSV import and export. The parser is a character loop with four
    variables; the printer quotes a field only when it holds a quote, a comma or an LF. */
module Csv {
  import opened Texts

  datatype Case = Case(stdin: string, expected: string)

  // ---------------------------------------------------------------- parser

  /** The loop variables of the parser. */
  datatype Scan = Scan(rows: seq<seq<string>>, row: seq<string>, field: string, inQuote: bool) {
    function Keep(c: char): Scan { this.(field := field + [c]) }
    function PushField(): Scan { this.(row := row + [field], field := "") }
    function FlushRow(): Scan { this.(rows := if row != [] then rows + [row] else rows, row := []) }

    /** One character that is not the first of a doubled quote. */
    function Next(c: char): Scan {
      if inQuote then (if c == '"' then this.(inQuote := false) else Keep(c))
      else if c == '"' then this.(inQuote := true)
      else if c == ',' then PushField()
      else if c == '\r' then this
      else if c == '\n' then PushField().FlushRow()
      else Keep(c)
    }
  }

  const START := Scan([], [], "", false)

  predicate DoubledQuote(src: string, st: Scan) {
    st.inQuote && |src| > 1 && src[0] == '"' && src[1] == '"'
  }

  /** What scanning `src` does to the loop variables. */
  function Feed(src: string, st: Scan): Scan {
    if src == "" then st
    else if DoubledQuote(src, st) then Feed(src[2..], st.Keep('"'))
    else Feed(src[1..], st.Next(src[0]))
  }

  /** The rows once the text has ended: a row still open is one, too. */
  function Flushed(st: Scan): seq<seq<string>> {
    (if st.field != "" || st.row != [] then st.PushField().FlushRow() else st).rows
  }

  function Rows(src: string): seq<seq<string>> { Flushed(Feed(src, START)) }

  predicate SameLetter(c: char, lower: char)
    requires 'a' <= lower <= 'z'
  {
    c == lower || c == ((lower as int - 32) as char)
  }

  /** `/^stdin$/i` */
  predicate IsHeaderCell(s: string) {
    |s| == 5 && SameLetter(s[0], 's') && SameLetter(s[1], 't') && SameLetter(s[2], 'd') &&
    SameLetter(s[3], 'i') && SameLetter(s[4], 'n')
  }

  predicate HasHeader(rows: seq<seq<string>>) {
    rows != [] && rows[0] != [] && IsHeaderCell(rows[0][0])
  }

  function RowCase(row: seq<string>): Case {
    Case(if |row| > 0 then row[0] else "", if |row| > 1 then row[1] else "")
  }

  /** Rows to cases: rows whose two cells are both empty vanish. */
  function Cases(rows: seq<seq<string>>): seq<Case> { FlatMap(RowCases, rows) }

  function RowCases(row: seq<string>): seq<Case> {
    if RowCase(row) == Case("", "") then [] else [RowCase(row)]
  }

  function Parsed(src: string): seq<Case> {
    var rows := Rows(src);
    Cases(if HasHeader(rows) then rows[1..] else rows)
  }

  lemma FeedAt(src: string, i: nat, st: Scan)
    requires i < |src|
    ensures DoubledQuote(src[i..], st) ==> i + 2 <= |src| && Feed(src[i..], st) == Feed(src[i + 2..], st.Keep('"'))
    ensures !DoubledQuote(src[i..], st) ==> Feed(src[i..], st) == Feed(src[i + 1..], st.Next(src[i]))
  {
    assert src[i..][1..] == src[i + 1..];
    if i + 2 <= |src| {
      assert src[i..][2..] == src[i + 2..];
    }
  }

  /** The import: a character loop, then a loop over the rows. Whatever table the text is a
      rendering of, the result is that table's test cases. */
  method ParseCSV(src: string) returns (out: seq<Case>)
    ensures out == Parsed(src)
    ensures forall records :: LegalTable(records) && Rendering(records) == src ==>
              exists at :: TakenFrom(records, 0, out, at)
  {
    var rows := ScanRows(src);
    out := CollectCases(rows);
    forall records | LegalTable(records) && Rendering(records) == src
      ensures exists at :: TakenFrom(records, 0, out, at)
    {
      var at := ImportOfRendering(records);
    }
  }

  method ScanRows(src: string) returns (rows: seq<seq<string>>)
    ensures rows == Rows(src)
  {
    var i, row, field, inQuote := 0, [], "", false;
    rows := [];
    assert src[0..] == src;
    while i < |src|
      invariant 0 <= i <= |src|
      invariant Feed(src[i..], Scan(rows, row, field, inQuote)) == Feed(src, START)
    {
      var c := src[i];
      FeedAt(src, i, Scan(rows, row, field, inQuote));
      if inQuote {
        if c == '"' && i + 1 < |src| && src[i + 1] == '"' {
          field := field + ['"'];
          i := i + 2;
          continue;
        }
        if c == '"' {
          inQuote := false;
        } else {
          field := field + [c];
        }
      } else if c == '"' {
        inQuote := true;
      } else if c == ',' {
        row, field := row + [field], "";
      } else if c == '\r' {
      } else if c == '\n' {
        rows, row, field := rows + [row + [field]], [], "";
      } else {
        field := field + [c];
      }
      i := i + 1;
    }
    if field != "" || row != [] {
      rows := rows + [row + [field]];
    }
  }

  method CollectCases(rows: seq<seq<string>>) returns (out: seq<Case>)
    ensures out == Cases(if HasHeader(rows) then rows[1..] else rows)
  {
    out := [];
    var start := if HasHeader(rows) then 1 else 0;
    var r := start;
    assert rows[start..r] == [] && Cases([]) == [];
    while r < |rows|
      invariant start <= r <= |rows|
      invariant out == Cases(rows[start..r])
    {
      FlatMapSnoc(RowCases, rows[start..r], rows[r]);
      assert rows[start..r] + [rows[r]] == rows[start..r + 1];
      if RowCase(rows[r]) != Case("", "") {
        out := out + [RowCase(rows[r])];
      }
      r := r + 1;
    }
    assert rows[start..] == rows[start..|rows|];
  }

  // ---------------------------------------------------------------- printer

  predicate NeedsQuotes(s: string) {
    '"' in s || ',' in s || '\n' in s
  }

  function DoubleQuotes(s: string): string {
    if s == "" then "" else (if s[0] == '"' then "\"\"" else [s[0]]) + DoubleQuotes(s[1..])
  }

  function Esc(s: string): string {
    if NeedsQuotes(s) then "\"" + DoubleQuotes(s) + "\"" else s
  }

  function Line(t: Case): string {
    Esc(t.stdin) + "," + Esc(t.expected)
  }

  function Lines(ts: seq<Case>): seq<string> {
    if ts == [] then [] else [Line(ts[0])] + Lines(ts[1..])
  }

  function ExportCSV(ts: seq<Case>): string {
    JoinLF(["stdin,expected"] + Lines(ts)) + "\n"
  }

  // --------------------------------------------------------- any rendering

  function NoCR(s: string): string {
    if s == "" then "" else (if s[0] == '\r' then "" else [s[0]]) + NoCR(s[1..])
  }

  /** A stretch of a cell as somebody may have written it: in quotes, or plain where nothing in
      it needs them. CRs outside quotes do not count. */
  datatype Piece = Piece(text: string, quoted: bool) {
    predicate Legal() { quoted || ('"' !in text && ',' !in text && '\n' !in text) }
    function Written(): string { if quoted then "\"" + DoubleQuotes(text) + "\"" else text }
    function Read(): string { if quoted then text else NoCR(text) }
  }

  /** A cell: usually one piece, but quotes may open and close anywhere in it. */
  type Cell = seq<Piece>

  /** A closing quote and an opening one side by side would be read as a quote character. */
  predicate LegalCell(cell: Cell) {
    && (forall k :: 0 <= k < |cell| ==> cell[k].Legal())
    && (forall k, l :: 0 <= k && l == k + 1 < |cell| && cell[k].quoted ==> !cell[l].quoted && cell[l].text != "")
  }

  function WrittenCell(cell: Cell): string {
    if cell == [] then "" else cell[0].Written() + WrittenCell(cell[1..])
  }

  function CellText(cell: Cell): string { if cell == [] then "" else cell[0].Read() + CellText(cell[1..]) }

  datatype Ending = Lf | CrLf | EndOfText {
    function Written(): string {
      match this
      case Lf => "\n"
      case CrLf => "\r\n"
      case EndOfText => ""
    }
  }

  /** One line of a table: any number of cells, and how the line ends. */
  datatype Record = Record(cells: seq<Cell>, ending: Ending)

  /** Every cell is legal, and only the last line may go without a terminator. */
  predicate LegalTable(records: seq<Record>) {
    && (forall k :: 0 <= k < |records| - 1 ==> records[k].ending != EndOfText)
    && (forall k :: 0 <= k < |records| ==> LegalCells(records[k].cells))
  }

  predicate LegalCells(cells: seq<Cell>) { forall k :: 0 <= k < |cells| ==> LegalCell(cells[k]) }

  function WrittenCells(cells: seq<Cell>): string {
    if cells == [] then "" else if |cells| == 1 then WrittenCell(cells[0])
    else WrittenCell(cells[0]) + "," + WrittenCells(cells[1..])
  }

  function Rendering(records: seq<Record>): string {
    if records == [] then ""
    else WrittenCells(records[0].cells) + records[0].ending.Written() + Rendering(records[1..])
  }

  /** A cell of the table, empty where the line is too short for it. */
  function CellAt(records: seq<Record>, i: nat, j: nat): string
    requires i < |records|
  {
    if j < |records[i].cells| then CellText(records[i].cells[j]) else ""
  }

  function Lowered(s: string): string {
    seq(|s|, i requires 0 <= i < |s| => if 'A' <= s[i] <= 'Z' then (s[i] as int + 32) as char else s[i])
  }

  /** The line is a test case: not a header, and its first two cells are not both empty. */
  predicate IsCase(records: seq<Record>, i: nat) {
    i < |records| && !(i == 0 && Lowered(CellAt(records, 0, 0)) == "stdin") &&
    (CellAt(records, i, 0) != "" || CellAt(records, i, 1) != "")
  }

  /** `out` are the first two cells of the lines `at`, which are all the test cases from line
      `from` on, in order. */
  ghost predicate TakenFrom(records: seq<Record>, from: nat, out: seq<Case>, at: seq<nat>) {
    && |at| == |out|
    && (forall k, l :: 0 <= k < l < |at| ==> at[k] < at[l])
    && (forall i: nat :: i in at <==> from <= i && IsCase(records, i))
    && (forall k :: 0 <= k < |at| ==>
          at[k] < |records| && out[k] == Case(CellAt(records, at[k], 0), CellAt(records, at[k], 1)))
  }

  lemma {:induction false} FeedQuoted(s: string, tail: string, st: Scan)
    requires st.inQuote && (tail == "" || tail[0] != '"')
    ensures Feed(DoubleQuotes(s) + "\"" + tail, st) ==
            Feed(tail, st.(field := st.field + s, inQuote := false))
  {
    var all := DoubleQuotes(s) + "\"" + tail;
    if s == "" {
      assert all[1..] == tail;
      assert st.field + s == st.field;
    } else {
      var more := st.(field := st.field + [s[0]]);
      FeedQuoted(s[1..], tail, more);
      var next := DoubleQuotes(s[1..]) + "\"" + tail;
      if s[0] == '"' {
        assert all[2..] == next;
      } else {
        assert all[1..] == next;
      }
      assert st.field + [s[0]] + s[1..] == st.field + s;
    }
  }

  lemma PlainTail(s: string)
    requires s != "" && !NeedsQuotes(s)
    ensures s[0] != '"' && s[0] != ',' && s[0] != '\n' && !NeedsQuotes(s[1..])
  {
    assert s[0] in s;
    forall c | c in s[1..]
      ensures c in s
    {
    }
  }

  lemma PlainChar(s: string, field: string)
    requires s != ""
    ensures field + (if s[0] == '\r' then "" else [s[0]]) + NoCR(s[1..]) == field + NoCR(s)
  {
    Assoc(field, if s[0] == '\r' then "" else [s[0]], NoCR(s[1..]));
  }

  lemma {:induction false} FeedPlain(s: string, tail: string, st: Scan, st': Scan)
    requires !st.inQuote && !NeedsQuotes(s) && st' == st.(field := st.field + NoCR(s))
    ensures Feed(s + tail, st) == Feed(tail, st')
  {
    if s == "" {
      assert s + tail == tail && st' == st;
    } else {
      PlainTail(s);
      PlainChar(s, st.field);
      var next := st.(field := st.field + if s[0] == '\r' then "" else [s[0]]);
      assert s[0] == '\r' ==> st.field + "" == st.field;
      assert st.Next(s[0]) == next;
      HeadAndTail(s, tail);
      FeedChar(s[0], s[1..] + tail, st);
      FeedPlain(s[1..], tail, next, st');
    }
  }

  lemma FeedQuotedField(s: string, tail: string, st: Scan)
    requires !st.inQuote && (tail == "" || tail[0] != '"')
    ensures Feed("\"" + DoubleQuotes(s) + "\"" + tail, st) == Feed(tail, st.(field := st.field + s))
  {
    var inside := DoubleQuotes(s) + "\"" + tail;
    QuotedText(DoubleQuotes(s), tail);
    FeedChar('"', inside, st);
    FeedQuoted(s, tail, st.(inQuote := true));
  }

  lemma QuotedText(x: string, tail: string)
    ensures "\"" + x + "\"" + tail == ['"'] + (x + "\"" + tail)
  {
  }

  lemma FeedChar(c: char, tail: string, st: Scan)
    requires !st.inQuote
    ensures Feed([c] + tail, st) == Feed(tail, st.Next(c))
  {
    assert ([c] + tail)[1..] == tail;
  }

  /** No quote comes next. */
  predicate Calm(tail: string) { tail == "" || tail[0] != '"' }

  /** Reading `text` takes the parser from `st` to `st'`, whatever follows. */
  ghost predicate ReadsAny(text: string, st: Scan, st': Scan) {
    forall tail: string :: Feed(text + tail, st) == Feed(tail, st')
  }

  /** The same, unless a quote follows. */
  ghost predicate Reads(text: string, st: Scan, st': Scan) {
    forall tail: string :: Calm(tail) ==> Feed(text + tail, st) == Feed(tail, st')
  }

  lemma Then(a: string, b: string, s: Scan, t: Scan, u: Scan)
    requires Reads(b, t, u) && (ReadsAny(a, s, t) || (Reads(a, s, t) && Calm(b)))
    ensures Reads(a + b, s, u)
    ensures ReadsAny(b, t, u) && (ReadsAny(a, s, t) || b != "") ==> ReadsAny(a + b, s, u)
  {
    forall tail: string
      ensures Calm(tail) || (ReadsAny(b, t, u) && (ReadsAny(a, s, t) || b != "")) ==>
              Feed(a + b + tail, s) == Feed(tail, u)
    {
      assert a + b + tail == a + (b + tail);
      assert Calm(b) && (b != "" || Calm(tail)) ==> Calm(b + tail);
    }
  }

  lemma EmptyReads(st: Scan)
    ensures ReadsAny("", st, st)
  {
    forall tail: string
      ensures Feed("" + tail, st) == Feed(tail, st)
    {
      assert "" + tail == tail;
    }
  }

  lemma CharReads(c: char, st: Scan)
    requires !st.inQuote
    ensures ReadsAny([c], st, st.Next(c))
  {
    forall tail: string
      ensures Feed([c] + tail, st) == Feed(tail, st.Next(c))
    {
      FeedChar(c, tail, st);
    }
  }

  lemma PieceReads(piece: Piece, st: Scan, st': Scan)
    requires piece.Legal() && !st.inQuote && st' == st.(field := st.field + piece.Read())
    ensures Reads(piece.Written(), st, st') && (!piece.quoted ==> ReadsAny(piece.Written(), st, st'))
  {
    forall tail: string
      ensures Calm(tail) || !piece.quoted ==> Feed(piece.Written() + tail, st) == Feed(tail, st')
    {
      if !piece.quoted {
        FeedPlain(piece.text, tail, st, st');
      } else if Calm(tail) {
        FeedQuotedField(piece.text, tail, st);
      }
    }
  }

  lemma SecondPiece(cell: Cell)
    requires cell != [] && LegalCell(cell)
    ensures LegalCell(cell[1..]) && (cell[0].quoted ==> Calm(WrittenCell(cell[1..])))
  {
    if |cell| > 1 && cell[0].quoted {
      assert !cell[1].quoted && cell[1].Legal() && cell[1..][0] == cell[1];
      assert cell[1].text[0] in cell[1].text;
      assert WrittenCell(cell[1..])[0] == cell[1].text[0];
    }
  }

  lemma {:induction false} CellReads(cell: Cell, st: Scan, st': Scan)
    requires LegalCell(cell) && !st.inQuote && st' == st.(field := st.field + CellText(cell))
    ensures Reads(WrittenCell(cell), st, st')
  {
    if cell == [] {
      EmptyReads(st);
      assert st' == st;
    } else {
      var more := st.(field := st.field + cell[0].Read());
      SecondPiece(cell);
      PieceReads(cell[0], st, more);
      assert more.field + CellText(cell[1..]) == st'.field;
      CellReads(cell[1..], more, st');
      Then(cell[0].Written(), WrittenCell(cell[1..]), st, more, st');
    }
  }

  /** The row the parser makes of a line; a line without cells has one empty cell. */
  function CellTexts(cells: seq<Cell>): (texts: seq<string>)
    ensures |texts| == if cells == [] then 1 else |cells|
    ensures cells != [] ==> texts[0] == CellText(cells[0])
    ensures |cells| > 1 ==> texts[1] == CellText(cells[1])
    ensures cells == [] ==> texts == [""]
  {
    if cells == [] then [""] else if |cells| == 1 then [CellText(cells[0])]
    else [CellText(cells[0])] + CellTexts(cells[1..])
  }

  lemma CellFieldReads(cell: Cell, rows: seq<seq<string>>, row: seq<string>)
    requires LegalCell(cell)
    ensures Reads(WrittenCell(cell), Scan(rows, row, "", false), Scan(rows, row, CellText(cell), false))
  {
    assert "" + CellText(cell) == CellText(cell);
    CellReads(cell, Scan(rows, row, "", false), Scan(rows, row, CellText(cell), false));
  }

  lemma CellAndCommaRead(cell: Cell, rows: seq<seq<string>>, row: seq<string>)
    requires LegalCell(cell)
    ensures ReadsAny(WrittenCell(cell) + ",", Scan(rows, row, "", false), Scan(rows, row + [CellText(cell)], "", false))
  {
    CellFieldReads(cell, rows, row);
    CharReads(',', Scan(rows, row, CellText(cell), false));
    Then(WrittenCell(cell), [','], Scan(rows, row, "", false), Scan(rows, row, CellText(cell), false),
         Scan(rows, row + [CellText(cell)], "", false));
  }

  lemma FrontOf(row: seq<string>, x: string, more: seq<string>, texts: seq<string>)
    requires more != [] && texts == [x] + more
    ensures row + [x] + more[..|more| - 1] == row + texts[..|texts| - 1] && more[|more| - 1] == texts[|texts| - 1]
  {
    assert texts[..|texts| - 1] == [x] + more[..|more| - 1];
  }

  lemma {:induction false} CellsRead(cells: seq<Cell>, rows: seq<seq<string>>, row: seq<string>, st: Scan)
    requires LegalCells(cells)
    requires
      var texts := CellTexts(cells);
      st == Scan(rows, row + texts[..|texts| - 1], texts[|texts| - 1], false)
    ensures Reads(WrittenCells(cells), Scan(rows, row, "", false), st)
  {
    var texts := CellTexts(cells);
    if |cells| <= 1 {
      assert row + texts[..0] == row;
      if cells == [] {
        EmptyReads(st);
      } else {
        CellFieldReads(cells[0], rows, row);
      }
    } else {
      var x := CellText(cells[0]);
      FrontOf(row, x, CellTexts(cells[1..]), texts);
      CellAndCommaRead(cells[0], rows, row);
      CellsRead(cells[1..], rows, row + [x], st);
      Then(WrittenCell(cells[0]) + ",", WrittenCells(cells[1..]), Scan(rows, row, "", false),
           Scan(rows, row + [x], "", false), st);
    }
  }

  lemma EndingReads(ending: Ending, st: Scan)
    requires ending != EndOfText && !st.inQuote
    ensures ReadsAny(ending.Written(), st, st.PushField().FlushRow())
  {
    CharReads('\n', st);
    if ending == CrLf {
      CharReads('\r', st);
      Then(['\r'], ['\n'], st, st, st.Next('\n'));
      assert "\r\n" == ['\r'] + ['\n'];
    }
  }

  lemma RecordReads(r: Record, rows: seq<seq<string>>)
    requires LegalCells(r.cells) && r.ending != EndOfText
    ensures ReadsAny(WrittenCells(r.cells) + r.ending.Written(), Scan(rows, [], "", false),
                     Scan(rows + [CellTexts(r.cells)], [], "", false))
  {
    var texts := CellTexts(r.cells);
    var n := |texts| - 1;
    var st := Scan(rows, [] + texts[..n], texts[n], false);
    assert [] + texts[..n] + [texts[n]] == texts;
    CellsRead(r.cells, rows, [], st);
    EndingReads(r.ending, st);
    assert st.PushField().FlushRow() == Scan(rows + [texts], [], "", false);
    Then(WrittenCells(r.cells), r.ending.Written(), Scan(rows, [], "", false), st, Scan(rows + [texts], [], "", false));
  }

  /** The rows of a rendering: an empty last line without a terminator is none. */
  function TableRows(records: seq<Record>): seq<seq<string>> { FlatMap(RecordRows, records) }

  function RecordRows(r: Record): seq<seq<string>> {
    if r.ending == EndOfText && CellTexts(r.cells) == [""] then [] else [CellTexts(r.cells)]
  }

  /** The rows of a text that is read with `rows` before it. */
  ghost predicate Yields(text: string, rows: seq<seq<string>>, all: seq<seq<string>>) {
    Flushed(Feed(text, Scan(rows, [], "", false))) == all
  }

  lemma LastRow(rows: seq<seq<string>>, texts: seq<string>)
    requires texts != []
    ensures
      var st := Scan(rows, texts[..|texts| - 1], texts[|texts| - 1], false);
      Flushed(st) == rows + if texts == [""] then [] else [texts]
  {
    var n := |texts| - 1;
    assert texts[..n] + [texts[n]] == texts;
    if n == 0 && texts[0] == "" {
      assert texts == [""];
    }
  }

  lemma ReadToTheEnd(text: string, st: Scan, st': Scan)
    requires Reads(text, st, st')
    ensures Feed(text, st) == st'
  {
    assert Calm("") && text + "" == text;
  }

  lemma LastRecord(r: Record, rows: seq<seq<string>>)
    requires LegalCells(r.cells) && r.ending == EndOfText
    ensures Yields(WrittenCells(r.cells), rows, rows + RecordRows(r))
  {
    var texts := CellTexts(r.cells);
    var st := Scan(rows, [] + texts[..|texts| - 1], texts[|texts| - 1], false);
    CellsRead(r.cells, rows, [], st);
    ReadToTheEnd(WrittenCells(r.cells), Scan(rows, [], "", false), st);
    assert [] + texts[..|texts| - 1] == texts[..|texts| - 1];
    LastRow(rows, texts);
  }

  lemma LastRecordOnly(records: seq<Record>, r: Record, rows: seq<seq<string>>)
    requires records == [r] && LegalCells(r.cells) && r.ending == EndOfText
    ensures Yields(Rendering(records), rows, rows + TableRows(records))
  {
    LastRecord(r, rows);
    FlatMapOne(RecordRows, r);
    assert Rendering(records[1..]) == "";
    assert Rendering(records) == WrittenCells(r.cells);
  }

  lemma FirstRecord(records: seq<Record>, r: Record, rest: seq<Record>, rows: seq<seq<string>>)
    requires records == [r] + rest && r.ending != EndOfText && LegalTable(records)
    ensures LegalTable(rest) && TableRows(records) == [CellTexts(r.cells)] + TableRows(rest)
    ensures Feed(Rendering(records), Scan(rows, [], "", false)) ==
            Feed(Rendering(rest), Scan(rows + [CellTexts(r.cells)], [], "", false))
  {
    assert records[1..] == rest && records[0] == r;
    assert forall k :: 0 <= k < |rest| ==> rest[k] == records[k + 1];
    RecordReads(r, rows);
    assert Rendering(records) == WrittenCells(r.cells) + r.ending.Written() + Rendering(rest);
  }

  /** The first line of several, given what the others yield. */
  lemma OneRecordMore(records: seq<Record>, rows: seq<seq<string>>)
    requires records != [] && LegalTable(records) && records[0].ending != EndOfText
    requires
      var more := rows + [CellTexts(records[0].cells)];
      Yields(Rendering(records[1..]), more, more + TableRows(records[1..]))
    ensures Yields(Rendering(records), rows, rows + TableRows(records))
  {
    var r, rest := records[0], records[1..];
    FirstRecord(records, r, rest, rows);
    Assoc(rows, [CellTexts(r.cells)], TableRows(rest));
  }

  lemma {:induction false} RowsOfRendering(records: seq<Record>, rows: seq<seq<string>>)
    requires LegalTable(records)
    ensures Yields(Rendering(records), rows, rows + TableRows(records))
  {
    if records == [] {
      assert rows + TableRows(records) == rows;
    } else if records[0].ending == EndOfText {
      assert records == [records[0]];
      LastRecordOnly(records, records[0], rows);
    } else {
      RowsOfRendering(records[1..], rows + [CellTexts(records[0].cells)]);
      OneRecordMore(records, rows);
    }
  }

  lemma RecordCases(records: seq<Record>, i: nat)
    requires i < |records|
    ensures
      var t := Case(CellAt(records, i, 0), CellAt(records, i, 1));
      Cases(RecordRows(records[i])) == if t == Case("", "") then [] else [t]
  {
    var texts := CellTexts(records[i].cells);
    assert RowCase(texts) == Case(CellAt(records, i, 0), CellAt(records, i, 1));
    FlatMapOne(RowCases, texts);
  }

  lemma OneMoreIndex(at: seq<nat>, from: nat)
    requires forall k, l :: 0 <= k < l < |at| ==> at[k] < at[l]
    requires forall i :: i in at ==> from < i
    ensures forall k, l :: 0 <= k < l < |[from] + at| ==> ([from] + at)[k] < ([from] + at)[l]
    ensures forall i: nat :: i in [from] + at <==> i == from || i in at
  {
    var all := [from] + at;
    forall k, l | 0 <= k < l < |all|
      ensures all[k] < all[l]
    {
      assert all[l] == at[l - 1] && at[l - 1] in at;
    }
  }

  /** One line more in front. */
  lemma TakeOneMore(records: seq<Record>, from: nat, out: seq<Case>, at: seq<nat>)
    requires from < |records| && TakenFrom(records, from + 1, out, at)
    ensures !IsCase(records, from) ==> TakenFrom(records, from, out, at)
    ensures IsCase(records, from) ==>
      TakenFrom(records, from, [Case(CellAt(records, from, 0), CellAt(records, from, 1))] + out, [from] + at)
  {
    if IsCase(records, from) {
      OneMoreIndex(at, from);
      var all, more := [from] + at, [Case(CellAt(records, from, 0), CellAt(records, from, 1))] + out;
      forall k | 0 <= k < |all|
        ensures all[k] < |records| && more[k] == Case(CellAt(records, all[k], 0), CellAt(records, all[k], 1))
      {
        assert k > 0 ==> all[k] == at[k - 1] && more[k] == out[k - 1];
      }
    }
  }

  /** The cases of the lines from `from` on. */
  lemma {:induction false} CasesFrom(records: seq<Record>, from: nat) returns (at: seq<nat>)
    requires from <= |records| && (from == 0 ==> records == [] || Lowered(CellAt(records, 0, 0)) != "stdin")
    ensures TakenFrom(records, from, Cases(TableRows(records[from..])), at)
    decreases |records| - from
  {
    if from == |records| {
      at := [];
      assert records[from..] == [];
    } else {
      var later := CasesFrom(records, from + 1);
      var out := Cases(TableRows(records[from + 1..]));
      CasesOfOneMore(records, from);
      TakeOneMore(records, from, out, later);
      at := if IsCase(records, from) then [from] + later else later;
    }
  }

  lemma CasesOfOneMore(records: seq<Record>, from: nat)
    requires from < |records|
    ensures
      var t, out := Case(CellAt(records, from, 0), CellAt(records, from, 1)), Cases(TableRows(records[from + 1..]));
      Cases(TableRows(records[from..])) == if t == Case("", "") then out else [t] + out
  {
    RecordCases(records, from);
    var first, rest := RecordRows(records[from]), TableRows(records[from + 1..]);
    assert records[from..][1..] == records[from + 1..];
    assert TableRows(records[from..]) == first + rest;
    FlatMapAppend(RowCases, first, rest);
  }

  lemma HeaderCell(s: string)
    ensures IsHeaderCell(s) <==> Lowered(s) == "stdin"
  {
    var t := Lowered(s);
    if |s| == 5 {
      assert t == [t[0], t[1], t[2], t[3], t[4]];
      assert t == "stdin" <==> t[0] == 's' && t[1] == 't' && t[2] == 'd' && t[3] == 'i' && t[4] == 'n';
    }
  }

  lemma HeaderOfRendering(records: seq<Record>)
    requires LegalTable(records)
    ensures HasHeader(TableRows(records)) <==> records != [] && Lowered(CellAt(records, 0, 0)) == "stdin"
    ensures HasHeader(TableRows(records)) ==> TableRows(records)[1..] == TableRows(records[1..])
  {
    if records != [] {
      var texts := CellTexts(records[0].cells);
      assert texts[0] == CellAt(records, 0, 0);
      HeaderCell(texts[0]);
      HeaderCell("");
      if RecordRows(records[0]) == [] {
        FlatMapOne(RecordRows, records[0]);
        assert records == [records[0]];
      } else {
        assert TableRows(records)[0] == texts && TableRows(records)[1..] == TableRows(records[1..]);
      }
    }
  }

  /** What importing gives, however the table was written: LF or CR LF after each line, the last
      one with or without, any number of cells, and each in quotes, plain, or partly so. It is the
      first two cells of every line, missing ones empty, in order, but for lines where both are empty and
      for a first line that spells stdin in any case. */
  lemma ImportOfRendering(records: seq<Record>) returns (at: seq<nat>)
    requires LegalTable(records)
    ensures TakenFrom(records, 0, Parsed(Rendering(records)), at)
  {
    RowsOfRendering(records, []);
    assert [] + TableRows(records) == TableRows(records);
    HeaderOfRendering(records);
    if HasHeader(TableRows(records)) {
      at := CasesFrom(records, 1);
    } else {
      at := CasesFrom(records, 0);
      assert records[0..] == records;
    }
  }

  // ------------------------------------------------------------ round trip

  /** What comes back for one field: an unquoted field loses its CRs. */
  function Survives(s: string): string {
    if NeedsQuotes(s) then s else NoCR(s)
  }

  /** What comes back for a list of cases. */
  function Survivors(ts: seq<Case>): seq<Case> {
    if ts == [] then []
    else (if Trip(ts[0]) == Case("", "") then [] else [Trip(ts[0])]) + Survivors(ts[1..])
  }

  /** The text is one the printer writes: a header and a line per case, each field one piece. */
  function CellOf(x: string): Cell { [Piece(x, NeedsQuotes(x))] }

  function RecordOf(t: Case): Record { Record([CellOf(t.stdin), CellOf(t.expected)], Lf) }

  function Records(ts: seq<Case>): seq<Record> {
    if ts == [] then [] else [RecordOf(ts[0])] + Records(ts[1..])
  }

  function Cells(ts: seq<Case>): seq<seq<string>> {
    if ts == [] then []
    else [[Survives(ts[0].stdin), Survives(ts[0].expected)]] + Cells(ts[1..])
  }

  lemma CellOfField(x: string)
    ensures LegalCell(CellOf(x)) && WrittenCell(CellOf(x)) == Esc(x) && CellText(CellOf(x)) == Survives(x)
  {
    assert CellOf(x)[1..] == [];
  }

  lemma RecordOfCase(t: Case)
    ensures LegalCells(RecordOf(t).cells) && WrittenCells(RecordOf(t).cells) == Line(t)
    ensures RecordRows(RecordOf(t)) == [[Survives(t.stdin), Survives(t.expected)]]
  {
    CellOfField(t.stdin);
    CellOfField(t.expected);
    var cells := RecordOf(t).cells;
    assert cells[1..] == [CellOf(t.expected)];
    assert CellTexts(cells) == [Survives(t.stdin), Survives(t.expected)];
  }

  lemma {:induction false} JoinIsRendering(ts: seq<Case>)
    requires ts != []
    ensures JoinLF(Lines(ts)) + "\n" == Rendering(Records(ts))
  {
    RecordOfCase(ts[0]);
    assert Lines(ts)[1..] == Lines(ts[1..]) && Records(ts)[1..] == Records(ts[1..]);
    if ts[1..] == [] {
      assert |Lines(ts)| == 1 && Rendering(Records(ts[1..])) == "";
      assert Line(ts[0]) + "\n" + "" == Line(ts[0]) + "\n";
    } else {
      JoinIsRendering(ts[1..]);
      assert |Lines(ts)| > 1;
      Assoc(Line(ts[0]) + "\n", JoinLF(Lines(ts[1..])), "\n");
    }
  }

  lemma {:induction false} RowsOfRecords(ts: seq<Case>)
    ensures LegalTable(Records(ts)) && |Records(ts)| == |ts| && TableRows(Records(ts)) == Cells(ts)
    ensures forall r :: r in Records(ts) ==> r.ending == Lf
  {
    if ts != [] {
      RecordOfCase(ts[0]);
      RowsOfRecords(ts[1..]);
      var all, rest := Records(ts), Records(ts[1..]);
      assert all[1..] == rest;
      assert forall k :: 0 < k < |all| ==> all[k] == rest[k - 1];
    }
  }

  lemma {:induction false} CellsToSurvivors(ts: seq<Case>)
    ensures Cases(Cells(ts)) == Survivors(ts)
  {
    if ts != [] {
      CellsToSurvivors(ts[1..]);
      assert Cells(ts)[1..] == Cells(ts[1..]);
    }
  }

  const HEADER := Case("stdin", "expected")

  lemma HeaderLine(x: string, y: string)
    requires x == "stdin" && y == "expected"
    ensures x + "," + y == "stdin,expected" && !NeedsQuotes(x) && !NeedsQuotes(y)
    ensures Survives(x) == x && Survives(y) == y
  {
    NoCRKeeps(x);
    NoCRKeeps(y);
  }

  lemma RowsOfExport(ts: seq<Case>)
    ensures Rows(ExportCSV(ts)) == [["stdin", "expected"]] + Cells(ts)
  {
    var all := [HEADER] + ts;
    assert all[1..] == ts;
    HeaderLine(HEADER.stdin, HEADER.expected);
    JoinIsRendering(all);
    RowsOfRecords(all);
    RowsOfRendering(Records(all), []);
    assert [] + TableRows(Records(all)) == Cells(all);
  }

  /** Importing an export, for every list of cases. */
  lemma ImportOfExport(ts: seq<Case>)
    ensures Parsed(ExportCSV(ts)) == Survivors(ts)
  {
    RowsOfExport(ts);
    var rows := [["stdin", "expected"]] + Cells(ts);
    assert rows[0][0] == "stdin" && HasHeader(rows);
    assert rows[1..] == Cells(ts);
    CellsToSurvivors(ts);
  }

  lemma {:induction false} NoCRKeeps(s: string)
    ensures |NoCR(s)| <= |s|
    ensures NoCR(s) == s <==> '\r' !in s
  {
    if s != "" {
      NoCRKeeps(s[1..]);
      assert s == [s[0]] + s[1..];
      if s[0] != '\r' && NoCR(s) == s {
        assert NoCR(s)[1..] == NoCR(s[1..]);
      }
    }
  }

  /** A field that the printer leaves unquoted although the parser drops its CRs. */
  predicate LosesCR(s: string) {
    '\r' in s && !NeedsQuotes(s)
  }

  predicate CaseSurvives(t: Case) {
    t != Case("", "") && !LosesCR(t.stdin) && !LosesCR(t.expected)
  }

  /** The guard a caller can check before exporting. */
  predicate Exportable(ts: seq<Case>) {
    forall t :: t in ts ==> CaseSurvives(t)
  }

  function Trip(t: Case): Case {
    Case(Survives(t.stdin), Survives(t.expected))
  }

  lemma TripExactly(t: Case)
    ensures Trip(t) == t && t != Case("", "") <==> CaseSurvives(t)
  {
    NoCRKeeps(t.stdin);
    NoCRKeeps(t.expected);
  }

  lemma {:induction false} SurvivorsAreFewer(ts: seq<Case>)
    ensures |Survivors(ts)| <= |ts|
  {
    if ts != [] {
      SurvivorsAreFewer(ts[1..]);
    }
  }

  lemma SurvivorsUnfold(ts: seq<Case>)
    requires ts != []
    ensures Survivors(ts) == ts <==> Trip(ts[0]) == ts[0] && ts[0] != Case("", "") && Survivors(ts[1..]) == ts[1..]
  {
    SurvivorsAreFewer(ts[1..]);
    assert ts == [ts[0]] + ts[1..];
    if Survivors(ts) == ts {
      assert Survivors(ts) == [Trip(ts[0])] + Survivors(ts[1..]);
      assert Survivors(ts)[1..] == Survivors(ts[1..]);
    }
  }

  lemma {:induction false} SurvivorsExactly(ts: seq<Case>)
    ensures Survivors(ts) == ts <==> Exportable(ts)
  {
    if ts != [] {
      SurvivorsUnfold(ts);
      TripExactly(ts[0]);
      SurvivorsExactly(ts[1..]);
      assert forall u :: u in ts <==> u == ts[0] || u in ts[1..];
    }
  }

  /** The round trip holds exactly for the lists whose rows are not blank and whose fields
      hold a CR only next to a quote, a comma or an LF. */
  lemma RoundTrip(ts: seq<Case>)
    ensures Parsed(ExportCSV(ts)) == ts <==> Exportable(ts)
  {
    ImportOfExport(ts);
    SurvivorsExactly(ts);
  }
}
