/** The spreadsheet branch of the text extractor: every sheet becomes a
    block of lines (a title, a rule of `=`, the header row, a rule of `-`
    as long as the header, one line per data row, and a blank line),
    blocks following each other in workbook order. */
module SheetText {
  import opened Text
  import opened Cells

  const Separator: string := " | "

  /** `row.join(' | ')`: undefined and null cells become the empty string.
      An empty header row gives an empty line, and so an empty dash rule. */
  function HeaderLine(row: Row): (line: string)
    ensures |row| == 0 ==> line == ""
    ensures |row| > 0 ==> JoinText(row[0]) <= line
  {
    Join(seq(|row|, i requires 0 <= i < |row| => JoinText(row[i])), Separator)
  }

  /** `cell ?? ''`. `map` skips the holes of a sparse row, so a hole stays a hole. */
  function Coalesce(c: Cell): (r: Cell)
    ensures !(r.Null?)
    ensures !(c.Absent? || c.Null?) ==> r == c
  {
    if c.Null? then Str("") else c
  }

  /** `row.map(cell => cell ?? '').join(' | ')`. */
  function DataLine(row: Row): string
  {
    Join(seq(|row|, i requires 0 <= i < |row| => JoinText(Coalesce(row[i]))), Separator)
  }

  /** Mapping `?? ''` first changes nothing: `join` already renders undefined
      and null as the empty string, so header and data rows are written alike. */
  lemma DataLineIsHeaderLine(row: Row)
    ensures DataLine(row) == HeaderLine(row)
  {
    assert seq(|row|, i requires 0 <= i < |row| => JoinText(Coalesce(row[i])))
        == seq(|row|, i requires 0 <= i < |row| => JoinText(row[i]));
  }

  /** A row of nothing but undefined and null cells is written as the bare separators. */
  lemma EmptyCellsLine(row: Row)
    requires |row| > 0
    requires forall i :: 0 <= i < |row| ==> row[i].Absent? || row[i].Null?
    ensures DataLine(row) == Join(seq(|row|, _ => ""), Separator)
  {
    assert seq(|row|, i requires 0 <= i < |row| => JoinText(Coalesce(row[i]))) == seq(|row|, _ => "");
  }

  function TitleLine(name: string): string
  {
    "Sheet: " + name
  }

  /** The lines written for a sheet's table: the header, its dash rule, and
      one line per data row. */
  function TableLines(data: seq<Row>): seq<string>
  {
    if |data| == 0 then []
    else [HeaderLine(data[0]), Repeat('-', |HeaderLine(data[0])|)] + DataLines(data[1..])
  }

  /** One line per data row, in order. */
  function DataLines(rows: seq<Row>): (lines: seq<string>)
    ensures |lines| == |rows|
  {
    seq(|rows|, i requires 0 <= i < |rows| => DataLine(rows[i]))
  }

  lemma DataLinesStep(rows: seq<Row>, i: nat)
    requires i < |rows|
    ensures DataLines(rows[..i + 1]) == DataLines(rows[..i]) + [DataLine(rows[i])]
  {
    assert rows[..i + 1][..i] == rows[..i];
  }

  /** The lines written for a sheet, without their line feeds. */
  function BlockLines(sheet: Sheet): seq<string>
  {
    [TitleLine(sheet.name), Repeat('=', 40)] + TableLines(sheet.data) + [""]
  }

  /** The layout of a block: the title, the 40-character `=` rule, then for a
      sheet with rows the header, a `-` rule exactly as long as the header,
      and every later row on a line of its own in order; a blank line last. */
  lemma BlockLinesShape(sheet: Sheet)
    ensures var lines := BlockLines(sheet);
            && (|sheet.data| == 0 ==> lines == [TitleLine(sheet.name), Repeat('=', 40), ""])
            && (|sheet.data| > 0 ==> |lines| == |sheet.data| + 4)
            && lines[0] == TitleLine(sheet.name) && lines[1] == Repeat('=', 40) && lines[|lines| - 1] == ""
            && (|sheet.data| > 0 ==>
                  && lines[2] == HeaderLine(sheet.data[0])
                  && lines[3] == Repeat('-', |lines[2]|)
                  && (forall i :: 1 <= i < |sheet.data| ==> lines[i + 3] == DataLine(sheet.data[i])))
  {
    var lines := BlockLines(sheet);
    var table := TableLines(sheet.data);
    TableLinesShape(sheet.data);
    assert lines == [TitleLine(sheet.name), Repeat('=', 40)] + table + [""];
    assert forall k :: 0 <= k < |table| ==> lines[k + 2] == table[k];
  }

  /** A table's lines: the header, its dash rule, then every later row. */
  lemma TableLinesShape(data: seq<Row>)
    ensures var table := TableLines(data);
            && (|data| == 0 ==> table == [])
            && (|data| > 0 ==>
                  && |table| == |data| + 1
                  && table[0] == HeaderLine(data[0])
                  && table[1] == Repeat('-', |table[0]|)
                  && (forall i :: 1 <= i < |data| ==> table[i + 1] == DataLine(data[i])))
  {
    if |data| > 0 {
      var table := TableLines(data);
      var rest := DataLines(data[1..]);
      assert table == [HeaderLine(data[0]), Repeat('-', |HeaderLine(data[0])|)] + rest;
      forall i | 1 <= i < |data| ensures table[i + 1] == DataLine(data[i]) {
        assert table[i + 1] == rest[i - 1];
      }
    }
  }


  /** Lines each followed by a line feed. */
  function Unlines(lines: seq<string>): string
  {
    if |lines| == 0 then ""
    else Unlines(lines[..|lines| - 1]) + lines[|lines| - 1] + "\n"
  }

  lemma UnlinesSnoc(lines: seq<string>, line: string)
    ensures Unlines(lines + [line]) == Unlines(lines) + line + "\n"
  {
    assert (lines + [line])[..|lines|] == lines;
  }

  lemma {:induction false} UnlinesAppend(a: seq<string>, b: seq<string>)
    ensures Unlines(a + b) == Unlines(a) + Unlines(b)
    decreases |b|
  {
    if |b| == 0 {
      assert a + b == a;
    } else {
      var b' := b[..|b| - 1];
      var last := b[|b| - 1];
      assert (a + b)[..|a + b| - 1] == a + b';
      assert (a + b)[|a + b| - 1] == last;
      calc {
        Unlines(a + b);
        Unlines(a + b') + last + "\n";
        { UnlinesAppend(a, b'); }
        (Unlines(a) + Unlines(b')) + last + "\n";
        { Assoc(Unlines(a), Unlines(b'), last); }
        (Unlines(a) + (Unlines(b') + last)) + "\n";
        { Assoc(Unlines(a), Unlines(b') + last, "\n"); }
        Unlines(a) + (Unlines(b') + last + "\n");
        Unlines(a) + Unlines(b);
      }
    }
  }

  lemma {:induction false} SplitUnlinesThen(lines: seq<string>, tail: string)
    requires forall k :: 0 <= k < |lines| ==> '\n' !in lines[k]
    requires '\n' !in tail
    ensures Split(Unlines(lines) + tail, '\n') == lines + [tail]
    decreases |lines|
  {
    if |lines| == 0 {
      SplitNoSeparator(tail, '\n');
      assert Unlines(lines) + tail == tail;
    } else {
      var init := lines[..|lines| - 1];
      var last := lines[|lines| - 1];
      SplitUnlinesThen(init, last);
      assert Unlines(lines) + tail == (Unlines(init) + last) + ['\n'] + tail;
      SplitAround(Unlines(init) + last, tail, '\n');
      SplitNoSeparator(tail, '\n');
      assert init + [last] == lines;
    }
  }

  /** Reading back: when no line holds a line feed, splitting the text at line
      feeds gives the lines again, followed by the empty piece after the last
      line feed. */
  lemma SplitUnlines(lines: seq<string>)
    requires forall k :: 0 <= k < |lines| ==> '\n' !in lines[k]
    ensures Split(Unlines(lines), '\n') == lines + [""]
  {
    SplitUnlinesThen(lines, "");
    assert Unlines(lines) + "" == Unlines(lines);
  }

  /** The text written for one sheet. */
  function SheetBlock(sheet: Sheet): string
  {
    Unlines(BlockLines(sheet))
  }

  /** Every block starts with the title line and the 40-character `=` rule. */
  lemma SheetBlockStart(sheet: Sheet)
    ensures |SheetBlock(sheet)| >= |TitleLine(sheet.name)| + 42
    ensures SheetBlock(sheet)[..|TitleLine(sheet.name)| + 42] == TitleLine(sheet.name) + "\n" + Repeat('=', 40) + "\n"
  {
    var title := TitleLine(sheet.name);
    var rule := Repeat('=', 40);
    var head := [title, rule];
    var rest := TableLines(sheet.data) + [""];
    assert BlockLines(sheet) == head + rest;
    UnlinesAppend(head, rest);
    UnlinesSnoc([], title);
    assert [] + [title] == [title];
    UnlinesSnoc([title], rule);
    assert [title] + [rule] == head;
    var h := Unlines(head);
    assert h == title + "\n" + rule + "\n";
    assert |h| == |title| + 42;
    assert SheetBlock(sheet) == h + Unlines(rest);
    assert (h + Unlines(rest))[..|h|] == h;
  }

  /** Every block ends with a blank line, so with two line feeds. */
  lemma SheetBlockEnd(sheet: Sheet)
    ensures |SheetBlock(sheet)| >= 2
    ensures SheetBlock(sheet)[|SheetBlock(sheet)| - 2..] == "\n\n"
  {
    var lines := BlockLines(sheet);
    var init := lines[..|lines| - 1];
    var front := init[..|init| - 1];
    assert lines == init + [""];
    assert init == front + [init[|init| - 1]];
    UnlinesSnoc(init, "");
    UnlinesSnoc(front, init[|init| - 1]);
    var x := Unlines(front) + init[|init| - 1];
    assert SheetBlock(sheet) == x + "\n" + "" + "\n";
    assert SheetBlock(sheet) == x + "\n\n";
  }

  /** An empty sheet gives only its title, the `=` rule and a blank line. */
  lemma EmptySheetBlock(sheet: Sheet)
    requires |sheet.data| == 0
    ensures SheetBlock(sheet) == TitleLine(sheet.name) + "\n" + Repeat('=', 40) + "\n" + "\n"
  {
    var title := TitleLine(sheet.name);
    var rule := Repeat('=', 40);
    UnlinesSnoc([], title);
    assert [] + [title] == [title];
    assert Unlines([title]) == title + "\n";
    UnlinesSnoc([title], rule);
    assert [title] + [rule] == [title, rule];
    assert Unlines([title, rule]) == title + "\n" + rule + "\n";
    UnlinesSnoc([title, rule], "");
    assert [title, rule] + [""] == BlockLines(sheet);
    assert Unlines([title, rule]) + "" + "\n" == title + "\n" + rule + "\n" + "\n";
  }

  /** The block's lines can be read back one by one when neither the sheet
      name nor any written row holds a line feed. */
  lemma SheetBlockLines(sheet: Sheet)
    requires '\n' !in sheet.name
    requires |sheet.data| > 0 ==> '\n' !in HeaderLine(sheet.data[0])
    requires forall i :: 1 <= i < |sheet.data| ==> '\n' !in DataLine(sheet.data[i])
    ensures Split(SheetBlock(sheet), '\n') == BlockLines(sheet) + [""]
  {
    var lines := BlockLines(sheet);
    BlockLinesShape(sheet);
    forall k | 0 <= k < |lines| ensures '\n' !in lines[k] {
      if k == 0 {
        assert lines[0] == "Sheet: " + sheet.name;
      } else if 4 <= k < |lines| - 1 {
        assert lines[k] == DataLine(sheet.data[k - 3]);
      }
    }
    SplitUnlines(lines);
  }

  lemma AppendLine(text: string, lines: seq<string>, line: string)
    ensures text + Unlines(lines) + line + "\n" == text + Unlines(lines + [line])
  {
    UnlinesSnoc(lines, line);
    var u := Unlines(lines);
    Assoc(text, u, line);
    Assoc(text, u + line, "\n");
  }

  /** Strings one after the other. */
  function Concat(parts: seq<string>): string
  {
    if |parts| == 0 then "" else Concat(parts[..|parts| - 1]) + parts[|parts| - 1]
  }

  lemma {:induction false} ConcatAppend(a: seq<string>, b: seq<string>)
    ensures Concat(a + b) == Concat(a) + Concat(b)
    decreases |b|
  {
    if |b| == 0 {
      assert a + b == a;
    } else {
      var b' := b[..|b| - 1];
      var last := b[|b| - 1];
      assert (a + b)[..|a + b| - 1] == a + b';
      assert (a + b)[|a + b| - 1] == last;
      calc {
        Concat(a + b);
        Concat(a + b') + last;
        { ConcatAppend(a, b'); }
        (Concat(a) + Concat(b')) + last;
        { Assoc(Concat(a), Concat(b'), last); }
        Concat(a) + (Concat(b') + last);
        Concat(a) + Concat(b);
      }
    }
  }

  /** Each sheet's block, in workbook order. */
  function Blocks(sheets: seq<Sheet>): (blocks: seq<string>)
    ensures |blocks| == |sheets|
  {
    seq(|sheets|, i requires 0 <= i < |sheets| => SheetBlock(sheets[i]))
  }

  /** The whole extracted text of a workbook: the sheets' blocks in order. */
  function WorkbookText(sheets: seq<Sheet>): string
  {
    Concat(Blocks(sheets))
  }

  lemma WorkbookTextSnoc(sheets: seq<Sheet>, sheet: Sheet)
    ensures WorkbookText(sheets + [sheet]) == WorkbookText(sheets) + SheetBlock(sheet)
  {
    var blocks := Blocks(sheets + [sheet]);
    assert blocks[..|sheets|] == Blocks(sheets);
    assert blocks[|sheets|] == SheetBlock(sheet);
  }

  /** The text of the first s + 1 sheets is that of the first s and then sheet s's block. */
  lemma WorkbookTextStep(sheets: seq<Sheet>, s: nat)
    requires s < |sheets|
    ensures WorkbookText(sheets[..s + 1]) == WorkbookText(sheets[..s]) + SheetBlock(sheets[s])
  {
    assert sheets[..s + 1] == sheets[..s] + [sheets[s]];
    WorkbookTextSnoc(sheets[..s], sheets[s]);
  }

  /** Sheets are written in workbook order: the text of a workbook split in
      two is the text of the first part followed by that of the second. */
  lemma WorkbookTextAppend(a: seq<Sheet>, b: seq<Sheet>)
    ensures WorkbookText(a + b) == WorkbookText(a) + WorkbookText(b)
  {
    assert Blocks(a + b) == Blocks(a) + Blocks(b);
    ConcatAppend(Blocks(a), Blocks(b));
  }

  /** The data-row loop: `extractedText += row.map(...).join(' | ') + '\n'`
      for every row, in order. */
  method AppendRows(text: string, rows: seq<Row>) returns (extractedText: string)
    ensures extractedText == text + Unlines(DataLines(rows))
  {
    extractedText := text;
    for i := 0 to |rows|
      invariant extractedText == text + Unlines(DataLines(rows[..i]))
    {
      AppendLine(text, DataLines(rows[..i]), DataLine(rows[i]));
      extractedText := extractedText + DataLine(rows[i]) + "\n";
      DataLinesStep(rows, i);
    }
    assert rows[..|rows|] == rows;
  }

  /** One sheet's iteration of the extraction loop: the title, the rule, and
      for a sheet with rows the header, its dash rule and the data rows; then
      the blank line. */
  method AppendSheet(text: string, sheet: Sheet) returns (extractedText: string)
    ensures extractedText == text + SheetBlock(sheet)
  {
    var data := sheet.data;
    ghost var lines: seq<string> := [];
    extractedText := text;
    assert extractedText == text + Unlines(lines);
    AppendLine(text, lines, TitleLine(sheet.name));
    extractedText := extractedText + TitleLine(sheet.name) + "\n";
    lines := lines + [TitleLine(sheet.name)];
    AppendLine(text, lines, Repeat('=', 40));
    extractedText := extractedText + Repeat('=', 40) + "\n";
    lines := lines + [Repeat('=', 40)];
    ghost var head := lines;
    assert head == [TitleLine(sheet.name), Repeat('=', 40)];
    if |data| > 0 {
      var headers := data[0];
      AppendLine(text, lines, HeaderLine(headers));
      extractedText := extractedText + HeaderLine(headers) + "\n";
      lines := lines + [HeaderLine(headers)];
      AppendLine(text, lines, Repeat('-', |HeaderLine(headers)|));
      extractedText := extractedText + Repeat('-', |HeaderLine(headers)|) + "\n";
      lines := lines + [Repeat('-', |HeaderLine(headers)|)];
      extractedText := AppendRows(extractedText, data[1..]);
      UnlinesAppend(lines, DataLines(data[1..]));
      Assoc(text, Unlines(lines), Unlines(DataLines(data[1..])));
      ghost var table := [HeaderLine(headers), Repeat('-', |HeaderLine(headers)|)];
      assert lines == head + table;
      Assoc(head, table, DataLines(data[1..]));
      lines := lines + DataLines(data[1..]);
    }
    assert lines == head + TableLines(data);
    AppendLine(text, lines, "");
    extractedText := extractedText + "\n";
    lines := lines + [""];
  }

  /** The extraction loop over the sheets, in workbook order. */
  method ExtractSheetText(sheets: seq<Sheet>) returns (extractedText: string)
    ensures extractedText == WorkbookText(sheets)
  {
    extractedText := "";
    for s := 0 to |sheets|
      invariant extractedText == WorkbookText(sheets[..s])
    {
      extractedText := AppendSheet(extractedText, sheets[s]);
      WorkbookTextStep(sheets, s);
    }
    assert sheets[..|sheets|] == sheets;
  }
}
